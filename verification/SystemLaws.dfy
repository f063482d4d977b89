/**
 What callers see, over every run of a client, its retries and the sessions at the far end:
 whose reply a call returns, and how often the handler sees a request.
 */
module SystemLaws {
  import opened Bytes
  import opened StreamPrefix
  import opened Transfer
  import opened Connection
  import opened System
  import opened SystemSteps
  import C = Client
  import S = Session

  // ---------------------------------------------------------------- whose reply

  /**
   The session's last handler call was for this very call: it was given the frame, and what
   it returned is the payload and the code of the reply.
   */
  predicate ServedBy(c: Conn, id: int, frame: seq<byte>, hdr: Hdr, pay: seq<byte>) {
    && c.handled != [] && c.handled[|c.handled| - 1] == id
    && c.sess.calls != []
    && var call := c.sess.calls[|c.sess.calls| - 1];
       && call.request == frame && call.result.Done?
       && pay == call.result.pay && Word(hdr, CODE) == call.result.code
  }

  lemma RequestFields(s: System)
    requires ClientOk(s) && !s.client.at.Idle? && !IsPing(s.client.at)
    ensures Current(s).isRequest && Current(s).pay == s.client.frame && Current(s).id == |s.calls| - 1
  {
    hide Header;
  }

  /** A completed transaction on an answered connection, seen from the connection. */
  lemma ReplyIsOwn(c: Conn, m: Msg, hdr: Hdr, got: seq<byte>)
    requires InStep(c) && Tidy(c, Listening, m, hdr + got) && |got| == Word(hdr, LEN) && m.isRequest
    ensures Valid(hdr)
    ensures c.reply.Replied? ==> Word(hdr, CMD) == CMD_RESPONSE && ServedBy(c, m.id, m.pay, hdr, got)
    ensures c.reply == NoReply ==> Word(hdr, CMD) == CMD_ERROR && hdr == c.sess.final && got == [] && !S.Alive(c.sess)
  {
    hide InStep, Valid, Word, Header, OnlyReply, S.Alive, Answers;
    HeaderFromTidy(c, m, hdr, got);
    FrameFromTidy(c, m, hdr, got);
    if c.reply.Replied? {
      assert (hdr + got)[..PREFIX_SIZE] == hdr && (hdr + got)[PREFIX_SIZE..] == got;
      AnswerIsFrame(c, m, c.reply.frame);
      AnswerNames(c, m, c.reply.frame);
    }
  }

  lemma AnswerNames(c: Conn, m: Msg, r: seq<byte>)
    requires Answers(c, m, r) && m.isRequest
    ensures c.handled != [] && c.handled[|c.handled| - 1] == m.id && c.sess.calls != []
    ensures var call := c.sess.calls[|c.sess.calls| - 1]; call.request == m.pay && call.result.Done?
  {
    hide S.ReplyFrame;
  }

  /**
   A RESPONSE carries what the handler returned for the frame of the call in progress;
   anything else is the ERROR frame with which the session ended.
   */
  predicate OwnOrFinal(s: System, reply: C.Outcome) {
    && reply.Reply? && s.cur < |s.conns|
    && var c := s.conns[s.cur];
       && Valid(reply.hdr)
       && if Word(reply.hdr, CMD) == CMD_RESPONSE
          then ServedBy(c, |s.calls| - 1, s.client.frame, reply.hdr, reply.pay)
          else Word(reply.hdr, CMD) == CMD_ERROR && reply.hdr == c.sess.final && reply.pay == []
  }

  /** The client's next step is to return true from a transaction. */
  predicate ReturnsTrue(s: System) {
    Enabled(s, ClientFilled) && Step(s, ClientFilled).client.at.Idle? && Step(s, ClientFilled).client.outcome.Reply?
  }

  /**
   Own reply. In every run, a transaction that returns true on a connection on which no
   `Sync` has returned false returns its own reply, or the ERROR frame of the session.
   */
  lemma OwnReply(actions: seq<Action>)
    requires Runs(START, actions) && !Run(START, actions).dirty && ReturnsTrue(Run(START, actions))
    ensures OwnOrFinal(Run(START, actions), Step(Run(START, actions), ClientFilled).client.outcome)
  {
    Reachable(actions);
    FilledIsOwn(Run(START, actions));
  }

  lemma FilledIsOwn(s: System)
    requires Inv(s) && Enabled(s, ClientFilled) && !s.dirty
    requires Step(s, ClientFilled).client.outcome.Reply? && Step(s, ClientFilled).client.at.Idle?
    ensures var c, reply := s.conns[s.cur], Step(s, ClientFilled).client.outcome;
            && Valid(reply.hdr)
            && (c.reply.Replied? ==>
                  && Word(reply.hdr, CMD) == CMD_RESPONSE
                  && ServedBy(c, |s.calls| - 1, s.client.frame, reply.hdr, reply.pay))
            && (c.reply == NoReply ==>
                  && Word(reply.hdr, CMD) == CMD_ERROR && reply.hdr == c.sess.final && reply.pay == []
                  && !S.Alive(c.sess))
  {
    hide InStep, Tidy, Attributed, Ordered, MsgFor, AttemptsOk, Tried, Silenced, Word, Valid, C.PongOk, ServedBy,
         Linked, CallsOk, TxSilenced, AttemptOk;
    CurrentOrdered(s);
    RequestFields(s);
    ReplyIsOwn(s.conns[s.cur], Current(s), s.client.at.hdr, s.client.at.got);
    assert s.client.at.got + [] == s.client.at.got;
  }

  // ---------------------------------------------------------------- how often the handler sees a request

  function Count(ids: seq<nat>, id: nat): nat {
    if ids == [] then 0 else (if ids[0] == id then 1 else 0) + Count(ids[1..], id)
  }

  /** The handler calls made for call `id`, over all connections. */
  function Executions(conns: seq<Conn>, id: nat): nat {
    if conns == [] then 0
    else Executions(conns[..|conns| - 1], id) + Count(conns[|conns| - 1].handled, id)
  }

  /** A strictly increasing log names each call at most once. */
  lemma {:induction false} CountOnce(ids: seq<nat>, id: nat)
    requires forall i, j :: 0 <= i < j < |ids| ==> ids[i] < ids[j]
    ensures Count(ids, id) <= 1
    ensures Count(ids, id) == 1 <==> id in ids
  {
    if ids != [] {
      CountOnce(ids[1..], id);
      assert ids == [ids[0]] + ids[1..];
    }
  }

  /** The attempt went to one of the first `n` connections and did not end in a failed send. */
  predicate Counts(a: seq<Attempt>, i: nat, n: nat) {
    i < |a| && a[i].reached && a[i].conn < n && !a[i].unsent
  }

  function Live(a: seq<Attempt>, n: nat): nat {
    (if Counts(a, 0, n) then 1 else 0) + if Counts(a, 1, n) then 1 else 0
  }

  lemma LiveGrows(a: seq<Attempt>, k: nat, i: nat)
    requires |a| <= 2 && i < |a| && a[i].reached && a[i].conn == k && !a[i].unsent
    ensures Live(a, k + 1) >= Live(a, k) + 1
  {
  }

  lemma LiveMonotone(a: seq<Attempt>, k: nat)
    ensures Live(a, k) <= Live(a, k + 1)
  {
  }

  /** A handler call for `id` on connection `k` is the work of an attempt that got its frame out. */
  lemma HandledByAttempt(s: System, k: nat, id: nat)
    requires ConnsOk(s) && CallsOk(s) && TxSilenced(s) && k < |s.conns| && id < |s.calls| && id in s.conns[k].handled
    ensures exists i :: 0 <= i < |s.calls[id].attempts| && s.calls[id].attempts[i].reached
                        && s.calls[id].attempts[i].conn == k && !s.calls[id].attempts[i].unsent
  {
    hide InStep, AttemptsOk, Ordered;
    var c := s.conns[k];
    assert Attributed(c, k, s.calls);
    var i :| 0 <= i < |c.handled| && c.handled[i] == id;
    assert Tried(s.calls[id], k);
    var a :| 0 <= a < |s.calls[id].attempts| && s.calls[id].attempts[a].reached && s.calls[id].attempts[a].conn == k;
    assert s.calls[id].attempts[a].unsent ==> Silenced(s, k, id);
  }

  lemma OneConnection(s: System, k: nat, id: nat)
    requires ConnsOk(s) && CallsOk(s) && TxSilenced(s) && k < |s.conns| && id < |s.calls|
    ensures Count(s.conns[k].handled, id) <= Live(s.calls[id].attempts, k + 1) - Live(s.calls[id].attempts, k)
  {
    hide InStep, Live, TxSilenced, MsgOk, Tried;
    var c, a := s.conns[k], s.calls[id].attempts;
    assert Attributed(c, k, s.calls) && AttemptsOk(s.calls[id], id, |s.conns|);
    CountOnce(c.handled, id);
    LiveMonotone(a, k);
    if id in c.handled {
      HandledByAttempt(s, k, id);
      var i :| 0 <= i < |a| && a[i].reached && a[i].conn == k && !a[i].unsent;
      LiveGrows(a, k, i);
    }
  }

  lemma {:induction false} ExecutionsUpTo(s: System, n: nat, id: nat)
    requires ConnsOk(s) && CallsOk(s) && TxSilenced(s) && n <= |s.conns| && id < |s.calls|
    ensures Executions(s.conns[..n], id) <= Live(s.calls[id].attempts, n)
    decreases n
  {
    hide ConnsOk, CallsOk, TxSilenced, Live;
    if n > 0 {
      ExecutionsUpTo(s, n - 1, id);
      OneConnection(s, n - 1, id);
      assert s.conns[..n][..n - 1] == s.conns[..n - 1];
    }
  }

  /**
   Executions under retry. In every run the handler sees one call's request at most twice,
   and at most once for each of its attempts; an attempt that ended in a failed send counts
   for nothing, so two handler calls mean that the first attempt ended in a failed receive.
   */
  lemma ExecutionsUnderRetry(actions: seq<Action>, id: nat)
    requires Runs(START, actions) && id < |Run(START, actions).calls|
    ensures var s := Run(START, actions);
            var a := s.calls[id].attempts;
            && 1 <= |a| <= 2
            && Executions(s.conns, id) <= |a|
            && (Executions(s.conns, id) == 2 ==> a[0].why == ERR_RX)
            && (forall i :: 0 <= i < |a| && a[i].unsent ==> Executions(s.conns, id) <= |a| - 1)
  {
    Reachable(actions);
    TwiceAtMost(Run(START, actions), id);
  }

  lemma TwiceAtMost(s: System, id: nat)
    requires Inv(s) && id < |s.calls|
    ensures var a := s.calls[id].attempts;
            && 1 <= |a| <= 2
            && Executions(s.conns, id) <= |a|
            && (Executions(s.conns, id) == 2 ==> a[0].why == ERR_RX)
            && (forall i :: 0 <= i < |a| && a[i].unsent ==> Executions(s.conns, id) <= |a| - 1)
  {
    hide MsgOk, ClientOk, Linked, ConnsOk, TxSilenced, AttemptOk, TidyOk, Executions;
    ExecutionsUpTo(s, |s.conns|, id);
    assert s.conns[..|s.conns|] == s.conns;
    assert AttemptsOk(s.calls[id], id, |s.conns|);
  }

  /** The log of executions is the handler's: each of its calls is a recorded transaction's, with that call's frame. */
  lemma HandlerCallsAreNamed(actions: seq<Action>, k: nat)
    requires Runs(START, actions) && k < |Run(START, actions).conns|
    ensures var s := Run(START, actions);
            var c := s.conns[k];
            && |c.handled| == |c.sess.calls|
            && (forall i :: 0 <= i < |c.handled| ==>
                  && c.handled[i] < |s.calls| && s.calls[c.handled[i]].msg.isRequest
                  && c.sess.calls[i].request == s.calls[c.handled[i]].msg.pay)
            && (forall i, j :: 0 <= i < j < |c.handled| ==> c.handled[i] < c.handled[j])
  {
    hide Runs, Run;
    Reachable(actions);
    assert Attributed(Run(START, actions).conns[k], k, Run(START, actions).calls);
  }

  /** Ended attempts stay on record as they ended. */
  ghost predicate EndsKept(calls: seq<CallRec>, calls': seq<CallRec>) {
    && |calls| <= |calls'|
    && forall id, i :: 0 <= id < |calls| && 0 <= i < |calls[id].attempts| && calls[id].attempts[i].why != CONN_OK ==>
         i < |calls'[id].attempts| && calls'[id].attempts[i] == calls[id].attempts[i]
  }

  lemma StepKeepsEnds(s: System, a: Action)
    requires AttemptOk(s) && Enabled(s, a)
    ensures EndsKept(s.calls, Step(s, a).calls)
  {
    hide MsgFor, Header, Word, Valid, C.RequestFrame, C.PingFrame, C.PongOk;
  }

  lemma {:induction false} RunKeepsEnds(s: System, actions: seq<Action>)
    requires Inv(s) && Runs(s, actions)
    ensures EndsKept(s.calls, Run(s, actions).calls) && Inv(Run(s, actions))
    decreases |actions|
  {
    hide Step, Enabled, ClientOk, Linked, ConnsOk, CallsOk, TxSilenced, AttemptOk, TidyOk;
    if actions != [] {
      StepKeepsEnds(s, actions[0]);
      StepKeeps(s, actions[0]);
      RunKeepsEnds(Step(s, actions[0]), actions[1..]);
    }
  }

  /** A failed send is final: no handler call for that attempt has been made, or ever will be. */
  lemma FailedSendIsNeverExecuted(actions: seq<Action>, more: seq<Action>)
    requires Runs(START, actions) && Runs(Run(START, actions), more)
    ensures var s, s' := Run(START, actions), Run(Run(START, actions), more);
            |s.calls| <= |s'.calls|
            && forall id, i :: 0 <= id < |s.calls| && 0 <= i < |s.calls[id].attempts| ==>
                 var at := s.calls[id].attempts[i];
                 at.reached && at.unsent ==>
                   at.conn < |s'.conns| && Count(s'.conns[at.conn].handled, id) == 0
  {
    hide Runs, Run;
    Reachable(actions);
    RunKeepsEnds(Run(START, actions), more);
    var s, s' := Run(START, actions), Run(Run(START, actions), more);
    forall id, i | 0 <= id < |s.calls| && 0 <= i < |s.calls[id].attempts|
      ensures var at := s.calls[id].attempts[i];
              at.reached && at.unsent ==> at.conn < |s'.conns| && Count(s'.conns[at.conn].handled, id) == 0
    {
      var at := s.calls[id].attempts[i];
      if at.reached && at.unsent {
        assert s'.calls[id].attempts[i] == at;
        TxNeverCounts(s', id, i);
      }
    }
  }

  lemma TxNeverCounts(s: System, id: nat, i: nat)
    requires Inv(s) && id < |s.calls| && i < |s.calls[id].attempts|
    requires s.calls[id].attempts[i].reached && s.calls[id].attempts[i].unsent
    ensures var at := s.calls[id].attempts[i]; at.conn < |s.conns| && Count(s.conns[at.conn].handled, id) == 0
  {
    hide ClientOk, Linked, AttemptOk, TidyOk, InStep, Tried, MsgOk;
    var k := s.calls[id].attempts[i].conn;
    assert AttemptsOk(s.calls[id], id, |s.conns|);
    assert Silenced(s, k, id) && Attributed(s.conns[k], k, s.calls);
    CountOnce(s.conns[k].handled, id);
  }
}
