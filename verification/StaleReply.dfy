/**
 Why a reply is a call's own only as long as every `Sync` returned true: `Sync` leaves its
 connection open when it fails, and the reply it gave up on stays in the channel.
 */
module StaleReply {
  import opened Bytes
  import opened StreamPrefix
  import opened Transfer
  import opened Connection
  import opened System
  import opened SystemSteps
  import opened Scenarios
  import C = Client
  import S = Session

  /** A `Sync` that times out, or whose `recv` is interrupted; its reply comes too late. */
  lemma SyncGivesUp(s: System, ms: int, rand: u32, why: ConnState) returns (t: System)
    requires Inv(s) && AtRest(s) && why in {ERR_TIMEOUT, ERR_RX}
    ensures Reaches(s, t) && t.cur == s.cur < |t.conns| && t.client.open && t.client.at.Idle? && t.dirty
    ensures t.client.outcome == C.Synced(false) && |t.calls| == |s.calls| + 1
    ensures Served(t.conns[t.cur], S.ReplyFrame(S.Answer(CMD_PING_RESPONSE, rand, [])), s.conns[s.cur].handled)
  {
    hide Run, Reaches, Word, Valid, Header, MsgOk, MsgFor, BytesOf, Inv;
    var e := BeginSync(rand, ms);
    RestIsQuiet(s);
    Here(s);
    MsgForFields(|s.calls|, e);
    t := ClientSpeaks(s, s, e);
    Then(s, t, ClientReadFails(why));
    t := Step(t, ClientReadFails(why));
    assert [] + [MsgFor(|s.calls|, e)] == [MsgFor(|s.calls|, e)];
    t := ServerReplies(s, t, MsgFor(|s.calls|, e), NotCalled);
  }

  /** The next call is given the late reply, and its own reply comes too late in turn. */
  lemma NextCallIsServedLate(from: System, s: System, ms: int, rand: u32, frame: Payload, result: HandlerResult)
    returns (t: System)
    requires Reaches(from, s) && s.cur < |s.conns| && s.client.open && s.client.at.Idle? && result.Done?
    requires Served(s.conns[s.cur], S.ReplyFrame(S.Answer(CMD_PING_RESPONSE, rand, [])), s.conns[s.cur].handled)
    ensures Reaches(from, t) && t.cur == s.cur < |t.conns| && t.client.open && t.client.at.Idle? && t.dirty == s.dirty
    ensures |t.calls| == |s.calls| + 1
    ensures Served(t.conns[t.cur], S.ReplyFrame(S.Answer(CMD_RESPONSE, result.code, result.pay)),
                   s.conns[s.cur].handled + [|s.calls|])
  {
    hide Run, Reaches, Word, Valid, Header, MsgOk, MsgFor, BytesOf;
    var e := Begin(frame, ms);
    MsgForFields(|s.calls|, e);
    t := ClientSpeaks(from, s, e);
    t := ClientListens(from, t, S.Answer(CMD_PING_RESPONSE, rand, []));
    Then(from, t, ClientFilled);
    t := Step(t, ClientFilled);
    assert [] + [MsgFor(|s.calls|, e)] == [MsgFor(|s.calls|, e)];
    t := ServerReplies(from, t, MsgFor(|s.calls|, e), result);
  }

  /**
   Why own reply depends on `Sync`. From every reachable state in which the client is between
   calls on a live connection where every `Sync` has returned true, for all frames and
   whatever the handler returns, there is a run in which a `Sync` fails in its receive and
   the call with the second frame returns the result of the call with the first, although
   the handler has not been called for it.
   */
  lemma StaleReply(s: System, ms: int, rand: u32, why: ConnState, frame1: Payload, frame2: Payload, result: HandlerResult)
    returns (t: System)
    requires Inv(s) && AtRest(s) && why in {ERR_TIMEOUT, ERR_RX} && result.Done?
    ensures Reaches(s, t) && Enabled(t, ClientFilled) && t.dirty && t.client.open && t.cur == s.cur < |t.conns|
    ensures |t.calls| == |s.calls| + 3 && Current(t) == MsgFor(|s.calls| + 2, Begin(frame2, ms))
    ensures t.conns[t.cur].handled == s.conns[s.cur].handled + [|s.calls| + 1]
    ensures var out := Step(t, ClientFilled).client.outcome;
            out.Reply? && Word(out.hdr, CMD) == CMD_RESPONSE && Word(out.hdr, CODE) == result.code && out.pay == result.pay
  {
    hide Run, Reaches, Word, Valid, Header, MsgOk, MsgFor, BytesOf, Inv, AtRest;
    t := SyncGivesUp(s, ms, rand, why);
    t := NextCallIsServedLate(s, t, ms, rand, frame1, result);
    t := ClientSpeaks(s, t, Begin(frame2, ms));
    t := ClientListens(s, t, S.Answer(CMD_RESPONSE, result.code, result.pay));
    HeaderFields(CMD_RESPONSE, result.code, 0, |result.pay|);
    assert result.pay + [] == result.pay;
  }

  /** Every reachable state is one of these, and what it reaches is reachable. */
  lemma ReachableStale(actions: seq<Action>, ms: int, rand: u32, why: ConnState,
                       frame1: Payload, frame2: Payload, result: HandlerResult)
    returns (more: seq<Action>)
    requires Runs(START, actions) && AtRest(Run(START, actions)) && why in {ERR_TIMEOUT, ERR_RX} && result.Done?
    ensures Runs(Run(START, actions), more)
    ensures var s, t := Run(START, actions), Run(Run(START, actions), more);
            && Enabled(t, ClientFilled) && |t.calls| == |s.calls| + 3 && t.cur == s.cur < |t.conns|
            && t.conns[t.cur].handled == s.conns[s.cur].handled + [|s.calls| + 1]
            && var out := Step(t, ClientFilled).client.outcome;
               && out.Reply? && Word(out.hdr, CMD) == CMD_RESPONSE
               && Word(out.hdr, CODE) == result.code && out.pay == result.pay
  {
    Reachable(actions);
    hide Runs, Run, Step, Enabled, Inv, Word;
    var t := StaleReply(Run(START, actions), ms, rand, why, frame1, frame2, result);
    more :| Runs(Run(START, actions), more) && Run(Run(START, actions), more) == t;
  }

  // ---------------------------------------------------------------- the next `Sync`

  /** The user makes no further call and leaves the connection alone. */
  predicate OneCall(actions: seq<Action>) {
    forall i :: 0 <= i < |actions| ==> !actions[i].Starts? && !actions[i].UserCloses? && !actions[i].UserConnects?
  }

  /** A `Sync` with number `rand` whose first 24 bytes will be `hdr`, or which has returned false. */
  ghost predicate Misled(s: System, hdr: Hdr, rand: u32) {
    && s.client.rand == rand
    && (s.client.open && IsPing(s.client.at) ==> s.cur < |s.conns|)
    && match s.client.at
       case Pinging(_) => s.client.open && hdr <= s.conns[s.cur].s2c
       case AwaitingPong(got) => s.client.open && |got| <= 24 && hdr <= got + s.conns[s.cur].s2c
       case Idle => s.client.outcome == C.Synced(false)
       case _ => false
  }

  lemma StepKeepsMisled(s: System, a: Action, hdr: Hdr, rand: u32)
    requires Misled(s, hdr, rand) && Word(hdr, 2) != rand && Enabled(s, a) && OneCall([a])
    ensures Misled(Step(s, a), hdr, rand)
  {
    hide Word, Valid, Header, BytesOf, MsgFor, Ended, S.Step, S.Enabled;
    assert !a.Starts? && !a.UserCloses? && !a.UserConnects? by { assert [a][0] == a; }
    if a.ClientReads? {
      var got, s2c := s.client.at.got, s.conns[s.cur].s2c;
      assert (got + s2c[..a.n]) + s2c[a.n..] == got + s2c;
    } else if a.ClientFilled? {
      assert s.client.at.got + [] == s.client.at.got == hdr;
    }
  }

  lemma {:induction false} RunKeepsMisled(s: System, actions: seq<Action>, hdr: Hdr, rand: u32)
    requires Misled(s, hdr, rand) && Word(hdr, 2) != rand && Runs(s, actions) && OneCall(actions)
    ensures Misled(Run(s, actions), hdr, rand)
    decreases |actions|
  {
    hide Step, Enabled, Word, Misled;
    if actions != [] {
      StepKeepsMisled(s, actions[0], hdr, rand);
      RunKeepsMisled(Step(s, actions[0]), actions[1..], hdr, rand);
    }
  }

  /**
   The number of a pong counts. In any state between calls, if the bytes under way to the
   client begin with a header that carries another number, a `Sync` with number `rand` can
   only return false, however the run goes on.
   */
  lemma EarlierPongIsRefused(s: System, hdr: Hdr, ms: int, rand: u32, more: seq<Action>)
    requires s.client.at.Idle? && s.client.open && s.cur < |s.conns| && hdr <= s.conns[s.cur].s2c && Word(hdr, 2) != rand
    requires Runs(s, [Starts(BeginSync(rand, ms))] + more) && OneCall(more)
    ensures var t := Run(s, [Starts(BeginSync(rand, ms))] + more);
            t.client.at.Idle? ==> t.client.outcome == C.Synced(false)
  {
    hide Word, Valid, Header, BytesOf, MsgFor;
    var actions := [Starts(BeginSync(rand, ms))] + more;
    assert actions[0] == Starts(BeginSync(rand, ms)) && actions[1..] == more;
    RunKeepsMisled(Step(s, actions[0]), more, hdr, rand);
  }

  /**
   A `Sync` that gave up spoils the next one: from every reachable state at rest there is a
   run with a failed `Sync` after which no `Sync` with another number can return true.
   */
  lemma NextSyncFails(s: System, ms: int, rand: u32, why: ConnState) returns (t: System)
    requires Inv(s) && AtRest(s) && why in {ERR_TIMEOUT, ERR_RX}
    ensures Reaches(s, t) && t.client.at.Idle? && t.client.open && t.cur == s.cur && t.client.outcome == C.Synced(false)
    ensures forall rand': u32, more: seq<Action> ::
              rand' != rand && OneCall(more) && Runs(t, [Starts(BeginSync(rand', ms))] + more) ==>
                var t' := Run(t, [Starts(BeginSync(rand', ms))] + more);
                t'.client.at.Idle? ==> t'.client.outcome == C.Synced(false)
  {
    hide Run, Runs, Step, Reaches, Word, Valid, Header, OneCall, Inv, AtRest;
    t := SyncGivesUp(s, ms, rand, why);
    var hdr := Header(CMD_PING_RESPONSE, rand, 0, 0);
    HeaderFields(CMD_PING_RESPONSE, rand, 0, 0);
    assert S.ReplyFrame(S.Answer(CMD_PING_RESPONSE, rand, [])) == hdr + [] == hdr;
    forall rand': u32, more: seq<Action> |
      rand' != rand && OneCall(more) && Runs(t, [Starts(BeginSync(rand', ms))] + more)
      ensures var t' := Run(t, [Starts(BeginSync(rand', ms))] + more);
              t'.client.at.Idle? ==> t'.client.outcome == C.Synced(false)
    {
      EarlierPongIsRefused(t, hdr, ms, rand', more);
    }
  }
}
