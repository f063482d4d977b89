/**
 Runs without failures: calling through the wire is calling the handler.
 */
module Transparency {
  import opened Bytes
  import opened StreamPrefix
  import opened Transfer
  import opened Connection
  import opened System
  import opened SystemSteps
  import opened SystemLaws
  import C = Client
  import S = Session
  import L = SessionLaws

  const OPENED := System(C.Client(C.Idle, [], 0, 0, 0, true, C.Nothing), 0, [FRESH], [], false, {})

  predicate IsRequest(pc: S.Pc) {
    pc.Executing? && Word(pc.hdr, CMD) == CMD_REQUEST
  }

  /** The network, the clock and the handler do their part, and the caller keeps its connection. */
  predicate Smooth(s: System, a: Action) {
    match a
    case Starts(_) => true
    case ClientSends(_) => true
    case ClientReads(_) => true
    case ClientFilled => true
    case ServerReads(_, _) => true
    case ServerSends(_, _) => true
    case Server(k, e) =>
      && !e.RxFail? && !e.TxFail? && !e.WaitFail? && !e.Stopped?
      && (e.Ran? && k < |s.conns| && IsRequest(s.conns[k].sess.pc) ==> e.result.Done?)
    case _ => false
  }

  predicate AllSmooth(s: System, actions: seq<Action>)
    requires Runs(s, actions)
    decreases |actions|
  {
    actions != [] ==> Smooth(s, actions[0]) && AllSmooth(Step(s, actions[0]), actions[1..])
  }

  /** The transactions among the calls, in order. */
  function RequestIds(calls: seq<CallRec>): seq<nat> {
    if calls == [] then []
    else RequestIds(calls[..|calls| - 1]) + if calls[|calls| - 1].msg.isRequest then [calls[|calls| - 1].msg.id] else []
  }

  /** The current call has been answered, or there is none. */
  predicate Answered(s: System)
    requires s.cur < |s.conns|
  {
    s.client.at.Idle? || s.conns[s.cur].reply.Replied?
  }

  function AnsweredCalls(s: System): seq<CallRec>
    requires s.cur < |s.conns|
  {
    if Answered(s) || s.calls == [] then s.calls else s.calls[..|s.calls| - 1]
  }

  /** No failure so far. */
  ghost predicate Sound(s: System) {
    && s.client.open && !s.dirty && s.cur == 0 && |s.conns| == 1
    && S.Alive(s.conns[0].sess)
    && !s.client.at.Reconnecting?
    && !s.client.outcome.Failed? && s.client.outcome != C.Synced(false)
    && (!s.client.at.Idle? ==> s.client.outcome == C.Nothing)
    && s.conns[0].handled == RequestIds(AnsweredCalls(s))
    && (s.client.outcome.Reply? ==>
          Word(s.client.outcome.hdr, CMD) == CMD_RESPONSE
          && ServedBy(s.conns[0], |s.calls| - 1, s.client.frame, s.client.outcome.hdr, s.client.outcome.pay))
  }

  lemma OpenedIsSound()
    ensures OPENED == Step(START, UserConnects) && Inv(OPENED) && Sound(OPENED)
  {
  }

  lemma StartsSound(s: System, e: Event)
    requires Inv(s) && Sound(s) && Enabled(s, Starts(e))
    ensures Sound(Step(s, Starts(e)))
  {
    hide InStep, Attributed, OnlyReply, MsgFor, Header, C.RequestFrame, C.PingFrame, Word, ServedBy, RequestIds, AttemptsOk;
    var s' := Step(s, Starts(e));
    assert s'.calls[..|s.calls|] == s.calls;
  }

  lemma ClientSendsSound(s: System, n: nat)
    requires Inv(s) && Sound(s) && Enabled(s, ClientSends(n))
    ensures Sound(Step(s, ClientSends(n)))
  {
    hide Inv, RequestIds, Word, ServedBy;
  }

  lemma ClientReadsSound(s: System, n: nat)
    requires Inv(s) && Sound(s) && Enabled(s, ClientReads(n))
    ensures Sound(Step(s, ClientReads(n)))
  {
    hide Inv, RequestIds, Word, ServedBy;
  }

  /** While the session is alive a whole header is the reply's. */
  lemma HeaderSound(s: System, hdr: Hdr, got: seq<byte>)
    requires Inv(s) && Sound(s) && C.Receiving(s.client.at) && GotOf(s.client.at) == hdr + got
    ensures Valid(hdr) && s.conns[0].reply.Replied? && InStep(s.conns[0])
    ensures Tidy(s.conns[0], Listening, Current(s), hdr + got)
  {
    hide InStep, Tidy, Attributed, RequestIds, Word, ServedBy, ClientOk, Linked, CallsOk, TxSilenced, AttemptOk, Valid;
    assert InStep(s.conns[0]);
    HeaderFromTidy(s.conns[0], Current(s), hdr, got);
  }

  lemma ClientFilledSound(s: System)
    requires Inv(s) && Sound(s) && Enabled(s, ClientFilled)
    ensures Sound(Step(s, ClientFilled))
  {
    hide InStep, Tidy, ConnsOk, Linked, CallsOk, TxSilenced, AttemptOk, TidyOk, RequestIds, Word, Valid, C.PongOk;
    match s.client.at
    case AwaitingHeader(got) =>
      assert got + [] == got;
      HeaderSound(s, got, []);
    case AwaitingPong(got) =>
      assert got + [] == got;
      HeaderSound(s, got, []);
      PingCode(s);
      PongFromTidy(s.conns[0], Current(s), got, s.client.rand);
    case AwaitingPayload(hdr, got) =>
      HeaderSound(s, hdr, got);
      FilledIsOwn(s);
    case _ =>
  }

  lemma QuietServerSound(s: System, c': Conn)
    requires Sound(s) && S.Alive(c'.sess) && c'.handled == s.conns[0].handled && c'.sess.calls == s.conns[0].sess.calls
    requires c'.reply == s.conns[0].reply
    ensures Sound(s.(conns := s.conns[0 := c']))
  {
    hide RequestIds, Word;
  }

  lemma ExecutionSound(s: System, result: HandlerResult)
    requires Inv(s) && Sound(s) && s.conns[0].sess.pc.Executing?
    requires Word(s.conns[0].sess.pc.hdr, CMD) == CMD_REQUEST ==> result.Done?
    ensures Sound(s.(conns := s.conns[0 := ServerDoes(s.conns[0], Ran(result))]))
  {
    hide Attributed, InStep, Tidy, Header, ServedBy, FlatMsgs, MsgOk, S.ReplyFrame, S.ErrorFrame, AttemptsOk,
         Linked, CallsOk, TxSilenced, AttemptOk;
    var c, m := s.conns[0], Current(s);
    assert InStep(c);
    ExecutionIsForCurrentCall(c, PhaseOf(s.client.at), m, GotOf(s.client.at));
    ExecutesHead(c);
    HeadCommand(m);
    var c' := ServerDoes(c, Ran(result));
    assert c'.handled == c.handled + if m.isRequest then [m.id] else [];
  }

  lemma HeadCommand(m: Msg)
    requires MsgOk(m)
    ensures Word(m.hdr, CMD) == CMD_REQUEST <==> m.isRequest
    ensures !m.isRequest ==> Word(m.hdr, CMD) == CMD_PING_REQUEST
  {
  }

  lemma ServerSound(s: System, k: nat, e: Event)
    requires Inv(s) && Sound(s) && Enabled(s, Server(k, e)) && Smooth(s, Server(k, e))
    ensures Sound(Step(s, Server(k, e)))
  {
    hide Sound, Inv, Word, Valid, InStep;
    assert k == 0 && S.Alive(s.conns[0].sess) by { SoundAlive(s); }
    var c := s.conns[0];
    if e.Ran? {
      ExecutionSound(s, e.result);
    } else {
      WholeHeaderIsValid(s);
      QuietServerSound(s, ServerDoes(c, e));
    }
  }

  lemma SoundAlive(s: System)
    requires Sound(s)
    ensures |s.conns| == 1 && S.Alive(s.conns[0].sess)
  {
  }

  lemma WholeHeaderIsValid(s: System)
    requires Inv(s) && Sound(s)
    ensures var sess := s.conns[0].sess;
            sess.pc.ReadingHeader? && |sess.pc.got| == PREFIX_SIZE ==> Valid(sess.pc.got)
  {
    hide InStep, ClientOk, Linked, CallsOk, TxSilenced, AttemptOk, TidyOk, Attributed, ServedBy, RequestIds, MsgOk, Valid;
    var c := s.conns[0];
    if c.sess.pc.ReadingHeader? && |c.sess.pc.got| == PREFIX_SIZE {
      assert c.sess.pc.got + [] == c.sess.pc.got;
      HeaderInStep(c, c.sess.pc.got, []);
      HeadIsValid(c.queue[0]);
    }
  }

  lemma ServerReadsSound(s: System, k: nat, n: nat)
    requires Sound(s) && Enabled(s, ServerReads(k, n))
    ensures Sound(Step(s, ServerReads(k, n)))
  {
    hide Word;
    QuietServerSound(s, Connection.ServerReads(s.conns[0], n));
  }

  lemma ServerSendsSound(s: System, k: nat, n: nat)
    requires Sound(s) && Enabled(s, ServerSends(k, n))
    ensures Sound(Step(s, ServerSends(k, n)))
  {
    hide Word;
    QuietServerSound(s, Connection.ServerSends(s.conns[0], n));
  }

  lemma StepSound(s: System, a: Action)
    requires Inv(s) && Sound(s) && Enabled(s, a) && Smooth(s, a)
    ensures Inv(Step(s, a)) && Sound(Step(s, a))
  {
    hide Inv, Sound, Step, Enabled;
    StepKeeps(s, a);
    match a
    case Starts(e) => StartsSound(s, e);
    case ClientSends(n) => ClientSendsSound(s, n);
    case ClientReads(n) => ClientReadsSound(s, n);
    case ClientFilled => ClientFilledSound(s);
    case Server(k, e) => ServerSound(s, k, e);
    case ServerReads(k, n) => ServerReadsSound(s, k, n);
    case ServerSends(k, n) => ServerSendsSound(s, k, n);
    case _ =>
  }

  lemma {:induction false} RunSound(s: System, actions: seq<Action>)
    requires Inv(s) && Sound(s) && Runs(s, actions) && AllSmooth(s, actions)
    ensures Inv(Run(s, actions)) && Sound(Run(s, actions))
    decreases |actions|
  {
    hide Inv, Sound, Step, Enabled, Smooth;
    if actions != [] {
      StepSound(s, actions[0]);
      RunSound(Step(s, actions[0]), actions[1..]);
    }
  }

  /** Between calls of a failure-free run nothing is under way. */
  lemma NothingUnderWay(s: System)
    requires Inv(s) && Sound(s) && s.client.at.Idle?
    ensures AllQuiet(s.conns[0])
  {
    hide Attributed, ServedBy, RequestIds, InStep, Tidy, CallsOk, TxSilenced, AttemptOk;
    QuietConn(s.conns[0], Current(s));
  }

  /**
   RPC transparency. In every failure-free run of any number of calls on one connection,
   however the bytes are cut up and the steps interleave: no `Sync` returns false and no
   `Transaction` fails; a transaction returns the payload and the code that calling the
   handler on its frame returns, under a RESPONSE header; and between calls the handler has been called
   once for each transaction, in order, with its frame, and nothing is under way.
   */
  lemma RpcTransparency(h: L.Handler, actions: seq<Action>)
    requires Runs(OPENED, actions) && AllSmooth(OPENED, actions)
    requires forall k :: 0 <= k < |Run(OPENED, actions).conns| ==> L.Obeys(h, Run(OPENED, actions).conns[k].sess.calls)
    ensures var t := Run(OPENED, actions);
            && |t.conns| == 1
            && var c, out := t.conns[0], t.client.outcome;
            && |c.sess.calls| == |c.handled|
            && !out.Failed? && out != C.Synced(false)
            && (out.Reply? ==>
                  && c.sess.calls != [] && c.handled[|c.handled| - 1] == |t.calls| - 1
                  && var n := |c.sess.calls| - 1;
                     var direct := h(n, t.client.frame, c.sess.calls[n].stale);
                     && direct.Done? && out.pay == direct.pay && Word(out.hdr, CODE) == direct.code
                     && Word(out.hdr, CMD) == CMD_RESPONSE)
            && (t.client.at.Idle? ==>
                  && c.handled == RequestIds(t.calls)
                  && (forall i :: 0 <= i < |c.handled| ==>
                        c.handled[i] < |t.calls| && c.sess.calls[i].request == t.calls[c.handled[i]].msg.pay)
                  && AllQuiet(c))
  {
    hide Runs, Run, AllSmooth, Word, RequestIds, InStep, AttemptsOk, Tidy, MsgOk;
    OpenedIsSound();
    RunSound(OPENED, actions);
    var t := Run(OPENED, actions);
    assert Attributed(t.conns[0], 0, t.calls);
    if t.client.at.Idle? {
      NothingUnderWay(t);
    }
  }
}
