/**
 Failure-free calls end: every step brings the call in progress nearer to its end, whatever
 the schedule, and until it has ended there is always a step to take.
 */
module Progress {
  import opened Bytes
  import opened StreamPrefix
  import opened Transfer
  import opened Connection
  import opened System
  import opened Transparency
  import C = Client
  import S = Session
  import L = SessionLaws

  // ---------------------------------------------------------------- the measure

  /** 2 until the request of the call in progress is executed, 1 until its reply is read, 0 between calls. */
  function Stage(s: System): nat
    requires |s.conns| == 1
  {
    if s.client.at.Idle? then 0 else if s.conns[0].reply.Replied? then 1 else 2
  }

  function ServerPos(pc: S.Pc): nat {
    match pc
    case Sending(_) => 6
    case Waiting => 5
    case ReadingHeader(_) => 4
    case ReadingPayload(_, _) => 3
    case Executing(_, _) => 2
    case _ => 0
  }

  function ClientPos(at: C.Place): nat {
    match at
    case Asking(_) => 3
    case Pinging(_) => 3
    case AwaitingHeader(_) => 2
    case AwaitingPayload(_, _) => 1
    case AwaitingPong(_) => 1
    case _ => 0
  }

  function Unsent(at: C.Place): seq<byte> {
    if at.Asking? || at.Pinging? then at.rest else []
  }

  function ConnLeft(c: Conn): nat {
    |c.c2s| + 2 * |Outgoing(c.sess)| + |c.s2c| + ServerPos(c.sess.pc)
  }

  /** The bytes still to be moved, those not sent yet counted twice, and the places still to be passed. */
  function Left(s: System): nat
    requires |s.conns| == 1
  {
    2 * |Unsent(s.client.at)| + ClientPos(s.client.at) + ConnLeft(s.conns[0])
  }

  /** A step that is neither the start of a call nor an idle turn of the server. */
  predicate Working(a: Action) {
    !a.Starts? && !(a.Server? && a.e.Quiet?)
  }

  /** What a step adds to the work: executing a request begins a reply. */
  function Added(s: System, a: Action): nat
    requires Enabled(s, a) && |s.conns| == 1
  {
    if a.Server? && a.e.Ran? then 2 * |ReplyBytes(Step(s, a).conns[0].reply)| + 5 else 0
  }

  /** Less work is left after the step, but for the reply it may have begun, and no stage is entered again. */
  ghost predicate Advances(s: System, a: Action)
    requires |s.conns| == 1
  {
    && Enabled(s, a)
    && var s' := Step(s, a);
       && |s'.conns| == 1
       && (if a.Server? && a.e.Ran? then Stage(s) == 2 && Stage(s') == 1 else Stage(s') <= Stage(s))
       && Left(s') + 1 <= Left(s) + Added(s, a)
  }

  // ---------------------------------------------------------------- what each step does

  /** One connection, the current one. */
  predicate Single(s: System) {
    s.client.open && s.cur == 0 && |s.conns| == 1
  }

  lemma SoundFacts(s: System)
    requires Inv(s) && Sound(s)
    ensures var c := s.conns[0];
            && Single(s)
            && InStep(c) && L.WellFormed(c.sess) && !c.deaf && !c.sess.deaf && S.Alive(c.sess)
            && Tidy(c, PhaseOf(s.client.at), Current(s), GotOf(s.client.at))
            && (s.client.at.Asking? || s.client.at.Pinging? ==> s.client.at.rest != [])
            && (C.Receiving(s.client.at) ==> |s.client.at.got| <= C.Needed(s.client.at))
  {
    hide Tidy, Attributed, RequestIds, Word, Valid, CallsOk, TxSilenced, AttemptOk, MsgFor, FlatMsgs, MsgOk;
    assert InStep(s.conns[0]);
  }

  lemma SendAdvances(s: System, n: nat)
    requires Single(s) && Enabled(s, ClientSends(n)) && s.conns[0].reply == NoReply
    ensures Advances(s, ClientSends(n))
  {
    hide Current, C.RequestFrame, C.PingFrame, Outgoing, ServerPos;
    var s', c' := Step(s, ClientSends(n)), Step(s, ClientSends(n)).conns[0];
    assert |Unsent(s'.client.at)| == |s.client.at.rest| - n;
    assert ConnLeft(c') == ConnLeft(s.conns[0]) + n;
  }

  lemma ReadAdvances(s: System, n: nat)
    requires Single(s) && Enabled(s, ClientReads(n))
    ensures Advances(s, ClientReads(n))
  {
    hide Outgoing, ServerPos, Word;
    var s' := Step(s, ClientReads(n));
    assert ConnLeft(s'.conns[0]) == ConnLeft(s.conns[0]) - n;
  }

  lemma FilledAdvances(s: System)
    requires Single(s) && Enabled(s, ClientFilled) && (s.client.at.AwaitingHeader? ==> Valid(s.client.at.got))
    ensures Advances(s, ClientFilled)
  {
    hide Outgoing, ServerPos, Word, Valid, C.PongOk, Ended;
    var s', at := Step(s, ClientFilled), s.client.at;
    assert at.got + [] == at.got;
    assert ConnLeft(s'.conns[0]) == ConnLeft(s.conns[0]);
  }

  lemma ServerReadAdvances(s: System, k: nat, n: nat)
    requires Single(s) && Enabled(s, ServerReads(k, n))
    ensures Advances(s, ServerReads(k, n))
  {
    hide Word;
    var s' := Step(s, ServerReads(k, n));
    assert ConnLeft(s'.conns[0]) == ConnLeft(s.conns[0]) - n;
  }

  lemma ServerSendAdvances(s: System, k: nat, n: nat)
    requires Single(s) && Enabled(s, ServerSends(k, n)) && !s.conns[0].sess.deaf && S.Alive(s.conns[0].sess)
    ensures Advances(s, ServerSends(k, n))
  {
    var s' := Step(s, ServerSends(k, n));
    assert ConnLeft(s'.conns[0]) < ConnLeft(s.conns[0]);
  }

  lemma TurnAdvances(s: System, k: nat, e: Event)
    requires Single(s) && Enabled(s, Server(k, e)) && Smooth(s, Server(k, e)) && !e.Ran? && !e.Quiet?
    requires var sess := s.conns[0].sess;
             sess.pc.ReadingHeader? && |sess.pc.got| == PREFIX_SIZE ==> Valid(sess.pc.got)
    requires S.Alive(s.conns[0].sess) && !s.conns[0].sess.deaf
    ensures Advances(s, Server(k, e))
  {
    hide Word, Valid, S.ErrorFrame;
    var s' := Step(s, Server(k, e));
    assert ConnLeft(s'.conns[0]) < ConnLeft(s.conns[0]);
  }

  lemma ExecutionAdvances(s: System, k: nat, result: HandlerResult)
    requires Single(s) && Enabled(s, Server(k, Ran(result))) && Smooth(s, Server(k, Ran(result)))
    requires s.conns[0].queue != [] && s.conns[0].reply == NoReply && !s.client.at.Idle? && !s.conns[0].sess.deaf
    ensures Advances(s, Server(k, Ran(result)))
  {
    hide Header, S.ErrorFrame, S.AnswerTo;
    var s' := Step(s, Server(k, Ran(result)));
    var c, c' := s.conns[0], s'.conns[0];
    assert c'.sess.pc.Sending? && c'.reply == Replied(c'.sess.pc.rest);
    assert ConnLeft(c') == ConnLeft(c) + 4 + 2 * |c'.sess.pc.rest|;
  }

  lemma SendsHere(s: System, n: nat)
    requires Inv(s) && Sound(s) && Enabled(s, ClientSends(n))
    ensures Advances(s, ClientSends(n))
  {
    hide Inv, Sound, Advances, InStep, OnlyReply, Answers, L.WellFormed;
    SoundFacts(s);
    SendAdvances(s, n);
  }

  lemma FillsHere(s: System)
    requires Inv(s) && Sound(s) && Enabled(s, ClientFilled)
    ensures Advances(s, ClientFilled)
  {
    hide Inv, Sound, Advances, InStep, Tidy, L.WellFormed, Valid, Word;
    SoundFacts(s);
    var at := s.client.at;
    if at.AwaitingHeader? {
      assert at.got + [] == at.got;
      HeaderSound(s, at.got, []);
    }
    FilledAdvances(s);
  }

  lemma ExecutesHere(s: System, k: nat, result: HandlerResult)
    requires Inv(s) && Sound(s) && Enabled(s, Server(k, Ran(result))) && Smooth(s, Server(k, Ran(result)))
    ensures Advances(s, Server(k, Ran(result)))
  {
    hide Inv, Sound, Advances, InStep, Tidy, L.WellFormed, Valid, Word, Smooth;
    SoundFacts(s);
    assert s.conns[0].sess.pc.Executing?;
    ExecutionIsForCurrentCall(s.conns[0], PhaseOf(s.client.at), Current(s), GotOf(s.client.at));
    ExecutionAdvances(s, k, result);
  }

  lemma TurnsHere(s: System, k: nat, e: Event)
    requires Inv(s) && Sound(s) && Enabled(s, Server(k, e)) && Smooth(s, Server(k, e)) && !e.Ran? && !e.Quiet?
    ensures Advances(s, Server(k, e))
  {
    hide Inv, Sound, Advances, InStep, Tidy, L.WellFormed, Valid, Word, Smooth, Enabled, Step, S.Alive;
    SoundFacts(s);
    WholeHeaderIsValid(s);
    TurnAdvances(s, k, e);
  }

  lemma ServerSendsHere(s: System, k: nat, n: nat)
    requires Inv(s) && Sound(s) && Enabled(s, ServerSends(k, n))
    ensures Advances(s, ServerSends(k, n))
  {
    hide Inv, Sound, Advances, InStep, Tidy, L.WellFormed, Enabled, Step, S.Alive;
    SoundFacts(s);
    ServerSendAdvances(s, k, n);
  }

  /** Every failure-free step of every schedule brings the call nearer to its end. */
  lemma EveryStepAdvances(s: System, a: Action)
    requires Inv(s) && Sound(s) && Enabled(s, a) && Smooth(s, a) && Working(a)
    ensures Advances(s, a)
  {
    assert Single(s) by { SoundFacts(s); }
    hide Inv, Sound, Advances, Enabled, Step, Single;
    match a
    case ClientSends(n) => SendsHere(s, n);
    case ClientReads(n) => ReadAdvances(s, n);
    case ClientFilled => FillsHere(s);
    case Server(k, e) =>
      if e.Ran? {
        ExecutesHere(s, k, e.result);
      } else {
        TurnsHere(s, k, e);
      }
    case ServerReads(k, n) => ServerReadAdvances(s, k, n);
    case ServerSends(k, n) => ServerSendsHere(s, k, n);
    case _ =>
  }

  // ---------------------------------------------------------------- there is always a step

  /** Step `a` can be taken, is no idle one, and fails nothing. */
  predicate Useful(s: System, a: Action) {
    Enabled(s, a) && Smooth(s, a) && Working(a)
  }

  /** The next part of a frame of which `rest` is unsent: what is left of the header, or else of the payload. */
  function NextPart(rest: seq<byte>, payload: nat): nat {
    if |rest| > payload then |rest| - payload else |rest|
  }

  lemma Speaks(s: System) returns (a: Action)
    requires Inv(s) && Sound(s) && (s.client.at.Asking? || s.client.at.Pinging?)
    ensures Useful(s, a) && a == ClientSends(NextPart(s.client.at.rest, |Current(s).pay|))
  {
    hide Inv, Sound, Tidy, InStep, L.WellFormed, Current;
    SoundFacts(s);
    a := ClientSends(NextPart(s.client.at.rest, |Current(s).pay|));
  }

  /** What the session still needs of the request has been sent. */
  lemma RequestIsThere(c: Conn, m: Msg, got: seq<byte>)
    requires InStep(c) && S.Alive(c.sess) && Tidy(c, Listening, m, got) && c.reply == NoReply
    ensures !c.sess.pc.Sending?
    ensures c.sess.pc.ReadingHeader? ==> |c.sess.pc.got| + |c.c2s| >= PREFIX_SIZE
    ensures c.sess.pc.ReadingPayload? ==> |c.sess.pc.got| + |c.c2s| >= Word(c.sess.pc.hdr, LEN)
  {
    hide Valid, Header, Answers;
    assert L.Absorbed(c.sess) + c.c2s + [] == FlatMsgs([m]);
    assert FlatMsgs([m]) == BytesOf(m) + FlatMsgs([]);
    NoMsgs();
    if c.sess.pc.ReadingPayload? {
      HeaderInStep(c, c.sess.pc.hdr, c.sess.pc.got);
    }
  }

  /** The session can read on, or go on, or execute. */
  lemma SessionGoesOn(s: System) returns (a: Action)
    requires Single(s) && S.Alive(s.conns[0].sess) && !s.conns[0].sess.pc.Sending? && L.WellFormed(s.conns[0].sess)
    requires var c := s.conns[0];
             && (c.sess.pc.ReadingHeader? ==> |c.sess.pc.got| + |c.c2s| >= PREFIX_SIZE)
             && (c.sess.pc.ReadingPayload? ==> |c.sess.pc.got| + |c.c2s| >= Word(c.sess.pc.hdr, LEN))
    ensures Useful(s, a)
  {
    hide Word, Valid;
    var c := s.conns[0];
    a := Server(0, Ran(Done([], 0)));
    match c.sess.pc
    case Waiting => a := Server(0, Ready);
    case ReadingHeader(got) =>
      a := if |got| < PREFIX_SIZE then ServerReads(0, PREFIX_SIZE - |got|) else Server(0, Filled);
    case ReadingPayload(hdr, got) =>
      a := if |got| < Word(hdr, LEN) then ServerReads(0, Word(hdr, LEN) - |got|) else Server(0, Filled);
    case Executing(_, _) =>
    case _ => assert false;
  }

  /** The request reaches the session and is executed. */
  lemma IsServed(s: System) returns (a: Action)
    requires Inv(s) && Sound(s) && C.Receiving(s.client.at) && s.conns[0].reply == NoReply
    ensures Useful(s, a)
  {
    hide Inv, Sound, Tidy, InStep, Word, Valid, L.WellFormed, Useful;
    SoundFacts(s);
    RequestIsThere(s.conns[0], Current(s), GotOf(s.client.at));
    a := SessionGoesOn(s);
  }

  lemma ReplyIsThere(s: System)
    requires Inv(s) && Sound(s) && C.Receiving(s.client.at) && s.conns[0].reply.Replied?
    ensures L.IsFrame(s.conns[0].reply.frame)
    ensures |s.client.at.got| < C.Needed(s.client.at) ==>
              s.conns[0].s2c != [] || (s.conns[0].sess.pc.Sending? && s.conns[0].sess.pc.rest != [])
  {
    SoundFacts(s);
    var c, at := s.conns[0], s.client.at;
    hide Inv, Valid, Header, Answers;
    AnswerIsFrame(c, Current(s), c.reply.frame);
    if at.AwaitingPayload? {
      HeaderFromTidy(c, Current(s), at.hdr, at.got);
    }
  }

  /** The reply reaches the client. */
  lemma Hears(s: System) returns (a: Action)
    requires Inv(s) && Sound(s) && C.Receiving(s.client.at) && s.conns[0].reply.Replied?
    ensures Useful(s, a)
  {
    hide Inv, Sound, Tidy, InStep, Word, Valid, L.WellFormed, Outgoing;
    SoundFacts(s);
    ReplyIsThere(s);
    var c, at := s.conns[0], s.client.at;
    if |at.got| == C.Needed(at) {
      a := ClientFilled;
    } else if c.s2c != [] {
      a := ClientReads(Least(C.Needed(at) - |at.got|, |c.s2c|));
    } else {
      a := ServerSends(0, NextPart(c.sess.pc.rest, |c.reply.frame| - PREFIX_SIZE));
    }
  }

  /** In a failure-free run no call is ever stuck. */
  lemma NeverStuck(s: System) returns (a: Action)
    requires Inv(s) && Sound(s) && !s.client.at.Idle?
    ensures Useful(s, a)
  {
    hide Inv, Useful;
    if s.client.at.Asking? || s.client.at.Pinging? {
      a := Speaks(s);
    } else if s.conns[0].reply == NoReply {
      a := IsServed(s);
    } else {
      a := Hears(s);
    }
  }

  // ---------------------------------------------------------------- every schedule

  predicate NoneStarts(actions: seq<Action>) {
    forall i :: 0 <= i < |actions| ==> !actions[i].Starts?
  }

  /** The steps of a schedule that are no idle ones. */
  function Steps(actions: seq<Action>): nat {
    if actions == [] then 0 else (if Working(actions[0]) then 1 else 0) + Steps(actions[1..])
  }

  /** No reply begun in the run is longer than this. */
  predicate RepliesWithin(s: System, actions: seq<Action>, bytes: nat)
    requires Runs(s, actions)
    decreases |actions|
  {
    actions != [] ==>
      && (actions[0].Server? && actions[0].e.Ran? && |Step(s, actions[0]).conns| == 1 ==>
            |ReplyBytes(Step(s, actions[0]).conns[0].reply)| <= bytes)
      && RepliesWithin(Step(s, actions[0]), actions[1..], bytes)
  }

  /** What the schedule may still cost: the work left, and a reply if the request is not executed yet. */
  function Bound(s: System, bytes: nat): nat
    requires |s.conns| == 1
  {
    Left(s) + if Stage(s) == 2 then 2 * bytes + 5 else 0
  }

  lemma IdleStepKeeps(s: System, a: Action)
    requires Single(s) && Enabled(s, a) && a.Server? && a.e.Quiet?
    ensures var s' := Step(s, a); |s'.conns| == 1 && Stage(s') == Stage(s) && Left(s') == Left(s)
  {
    hide Outgoing;
  }

  lemma StepWithinBound(s: System, a: Action, bytes: nat)
    requires Inv(s) && Sound(s) && Enabled(s, a) && Smooth(s, a) && !a.Starts?
    requires a.Server? && a.e.Ran? && |Step(s, a).conns| == 1 ==> |ReplyBytes(Step(s, a).conns[0].reply)| <= bytes
    ensures |Step(s, a).conns| == 1
    ensures Bound(Step(s, a), bytes) + (if Working(a) then 1 else 0) <= Bound(s, bytes)
  {
    hide Inv, Sound, Enabled, Step, Smooth, Left, ReplyBytes, InStep, Tidy, L.WellFormed, S.Alive;
    SoundFacts(s);
    if Working(a) {
      EveryStepAdvances(s, a);
    } else {
      IdleStepKeeps(s, a);
    }
  }

  /**
   Every failure-free schedule ends the call. However the steps interleave and however the
   bytes are cut up, and idle turns of the server aside, a run without new calls has no more
   steps than the work left at its beginning and the reply allow; and as long as the call has
   not returned there is a step to take.
   */
  lemma {:induction false} EveryScheduleEnds(s: System, actions: seq<Action>, bytes: nat)
    requires Inv(s) && Sound(s) && Runs(s, actions) && AllSmooth(s, actions) && NoneStarts(actions)
    requires RepliesWithin(s, actions, bytes)
    ensures |s.conns| == 1 && Steps(actions) <= Bound(s, bytes)
    ensures !Run(s, actions).client.at.Idle? ==> exists a :: Useful(Run(s, actions), a)
    decreases |actions|
  {
    hide Inv, Sound, Step, Enabled, Smooth, Bound, Useful, Working;
    SoundAlive(s);
    if actions == [] {
      if !s.client.at.Idle? {
        var a := NeverStuck(s);
      }
    } else {
      var a, s' := actions[0], Step(s, actions[0]);
      StepWithinBound(s, a, bytes);
      StepSound(s, a);
      EveryScheduleEnds(s', actions[1..], bytes);
    }
  }

  /** From every state of a failure-free run there is a failure-free way to the end of the call. */
  lemma {:induction false} CallReturns(s: System) returns (actions: seq<Action>)
    requires Inv(s) && Sound(s)
    ensures Runs(s, actions) && AllSmooth(s, actions) && Run(s, actions).client.at.Idle?
    decreases if |s.conns| == 1 then Stage(s) else 0, if |s.conns| == 1 then Left(s) else 0
  {
    SoundAlive(s);
    if s.client.at.Idle? {
      actions := [];
    } else {
      var a := NeverStuck(s);
      EveryStepAdvances(s, a);
      StepSound(s, a);
      hide Inv, Sound, Step, Enabled, Smooth, Stage, Left;
      var rest := CallReturns(Step(s, a));
      actions := [a] + rest;
      assert actions[1..] == rest;
    }
  }

  /** Whatever a failure-free run has done so far, it can be continued without failure until the call returns. */
  lemma EveryCallCanReturn(actions: seq<Action>) returns (more: seq<Action>)
    requires Runs(OPENED, actions) && AllSmooth(OPENED, actions)
    ensures var s := Run(OPENED, actions);
            Runs(s, more) && AllSmooth(s, more) && Run(s, more).client.at.Idle? && Inv(Run(s, more)) && Sound(Run(s, more))
  {
    hide *;
    OpenedIsSound();
    RunSound(OPENED, actions);
    more := CallReturns(Run(OPENED, actions));
    RunSound(Run(OPENED, actions), more);
  }
}
