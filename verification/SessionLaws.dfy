/**
 What a session answers depends on the bytes it is sent and on nothing else: not on how
 `recv` cuts them up, nor on how `send` takes the replies.
 */
module SessionLaws {
  import opened Bytes
  import opened StreamPrefix
  import opened Transfer
  import opened Session

  /** The handler: its n-th call, the request, and the code the previous exchange left behind. */
  type Handler = (nat, seq<byte>, u32) -> HandlerResult

  // ---------------------------------------------------------------- the reference responder

  /** The replies to a byte stream, the ERROR frame it ends with (if any), and the handler calls. */
  datatype Response = Response(replies: seq<seq<byte>>, final: seq<byte>, calls: seq<Call>)

  const SILENCE := Response([], [], [])

  /** A whole valid header and its whole payload are at the front of the stream. */
  predicate HasRequest(input: seq<byte>) {
    |input| >= PREFIX_SIZE && Valid(input[..PREFIX_SIZE])
    && |input| >= PREFIX_SIZE + Word(input[..PREFIX_SIZE], LEN)
  }

  function RequestSize(input: seq<byte>): nat
    requires HasRequest(input)
  {
    PREFIX_SIZE + Word(input[..PREFIX_SIZE], LEN)
  }

  /**
   Reads a whole stream at once: `n` handler calls were made before, and `cmd` and `code`
   are what the last reply carried.
   */
  function Respond(h: Handler, n: nat, cmd: u32, code: u32, input: seq<byte>): Response
    decreases |input|
  {
    if |input| < PREFIX_SIZE then SILENCE
    else if !Valid(input[..PREFIX_SIZE]) then Response([], ErrorFrame(ERR_SYNC), [])
    else if !HasRequest(input) then SILENCE
    else
      var size := RequestSize(input);
      Answered(h, n, cmd, code, input[..PREFIX_SIZE], input[PREFIX_SIZE..size], input[size..])
  }

  /** The reply to one request, then the replies to the rest of the stream. */
  function Answered(h: Handler, n: nat, cmd: u32, code: u32, hdr: Hdr, pay: seq<byte>, rest: seq<byte>): Response
    decreases |rest| + 1
  {
    if Word(hdr, CMD) == CMD_REQUEST then
      var result := h(n, pay, code);
      if result.Done? then
        var a := AnswerTo(hdr, cmd, code, result);
        Before([ReplyFrame(a)], [Call(pay, code, result)], Respond(h, n + 1, a.cmd, a.code, rest))
      else Response([], ErrorFrame(ERR_EXEC), [Call(pay, code, result)])
    else
      var a := AnswerTo(hdr, cmd, code, NotCalled);
      Before([ReplyFrame(a)], [], Respond(h, n, a.cmd, a.code, rest))
  }

  function Before(replies: seq<seq<byte>>, calls: seq<Call>, r: Response): Response {
    Response(replies + r.replies, r.final, calls + r.calls)
  }

  function Flat(frames: seq<seq<byte>>): seq<byte> {
    if frames == [] then [] else frames[0] + Flat(frames[1..])
  }

  /** The bytes of a whole response. */
  function Wire(r: Response): seq<byte> {
    Flat(r.replies) + r.final
  }

  // ---------------------------------------------------------------- where a session stands

  /** The bytes of the current request read so far. */
  function Absorbed(s: Session): seq<byte> {
    match s.pc
    case ReadingHeader(got) => got
    case ReadingPayload(hdr, got) => hdr + got
    case Executing(hdr, pay) => hdr + pay
    case _ => []
  }

  /** The bytes it has begun to send and that are not accepted yet. */
  function Pending(s: Session): seq<byte> {
    if s.pc.Sending? || s.pc.Closing? then s.pc.rest else []
  }

  /** Between requests, or gone: nothing is half done. */
  predicate Settled(s: Session) {
    s.pc.Waiting? || s.pc.Gone?
  }

  predicate WellFormed(s: Session) {
    match s.pc
    case ReadingHeader(got) => |got| <= PREFIX_SIZE
    case ReadingPayload(hdr, got) => Valid(hdr) && |got| <= Word(hdr, LEN)
    case Executing(hdr, pay) => Valid(hdr) && |pay| == Word(hdr, LEN)
    case Sending(rest) => rest != []
    case Closing(rest) => rest != []
    case _ => true
  }

  /** What a session still has to answer if `x` is all it will read. */
  function Future(h: Handler, s: Session, x: seq<byte>): Response {
    if s.pc.Closing? || s.pc.Gone? then SILENCE
    else Respond(h, |s.calls|, s.outCmd, s.outCode, Absorbed(s) + x)
  }

  /** What it has answered so far and what it will answer. */
  function Whole(h: Handler, s: Session, x: seq<byte>): Response {
    var f := Future(h, s, x);
    Response(s.replies + f.replies, s.final + f.final, s.calls + f.calls)
  }

  /** No timeout and no failed system call; the peer may leave at any point. */
  predicate Clean(e: Event) {
    (e.RxFail? ==> e.why == ERR_CLOSED) && !e.TxFail? && !e.Broke? && !e.WaitFail?
  }

  predicate AllClean(events: seq<Event>) {
    forall i :: 0 <= i < |events| ==> Clean(events[i])
  }

  predicate NoneBroken(events: seq<Event>) {
    forall i :: 0 <= i < |events| ==> !events[i].Broke?
  }

  predicate NoneUnsent(events: seq<Event>) {
    forall i :: 0 <= i < |events| ==> !events[i].TxFail?
  }

  function Taken(e: Event): seq<byte> {
    if e.Chunk? then e.bytes else []
  }

  /** The results in the log are the handler's. */
  predicate Obeys(h: Handler, calls: seq<Call>) {
    forall i :: 0 <= i < |calls| ==> calls[i].result == h(i, calls[i].request, calls[i].stale)
  }

  lemma StepWellFormed(s: Session, e: Event)
    requires WellFormed(s) && Enabled(s, e)
    ensures WellFormed(Step(s, e))
    ensures Step(s, e).input == s.input + Taken(e)
    ensures s.calls <= Step(s, e).calls && s.replies <= Step(s, e).replies
  {
    hide Valid, Word, Header, AnswerTo;
    assert s.input + [] == s.input;
  }

  // ---------------------------------------------------------------- one step answers nothing by itself

  lemma RespondRequest(h: Handler, n: nat, cmd: u32, code: u32, hdr: Hdr, pay: seq<byte>, x: seq<byte>)
    requires Valid(hdr) && |pay| == Word(hdr, LEN)
    ensures Respond(h, n, cmd, code, hdr + pay + x) == Answered(h, n, cmd, code, hdr, pay, x)
  {
    var input := hdr + pay + x;
    assert input[..PREFIX_SIZE] == hdr;
    assert input[PREFIX_SIZE..PREFIX_SIZE + |pay|] == pay && input[PREFIX_SIZE + |pay|..] == x;
  }

  lemma RespondBadHeader(h: Handler, n: nat, cmd: u32, code: u32, hdr: Hdr, x: seq<byte>)
    requires !Valid(hdr)
    ensures Respond(h, n, cmd, code, hdr + x) == Response([], ErrorFrame(ERR_SYNC), [])
  {
    assert (hdr + x)[..PREFIX_SIZE] == hdr;
  }

  lemma RespondShort(h: Handler, n: nat, cmd: u32, code: u32)
    ensures Respond(h, n, cmd, code, []) == SILENCE
  {
  }

  lemma ExecuteKeepsWhole(h: Handler, s: Session, result: HandlerResult, x: seq<byte>)
    requires WellFormed(s) && s.pc.Executing? && Enabled(s, Ran(result)) && s.final == []
    requires Obeys(h, Step(s, Ran(result)).calls)
    ensures Whole(h, Step(s, Ran(result)), x) == Whole(h, s, x)
  {
    hide Respond, Header, Valid, Word;
    var hdr, pay, s1 := s.pc.hdr, s.pc.pay, Step(s, Ran(result));
    RespondRequest(h, |s.calls|, s.outCmd, s.outCode, hdr, pay, x);
    if Word(hdr, CMD) == CMD_REQUEST {
      assert s1.calls == s.calls + [Call(pay, s.outCode, result)];
      assert s1.calls[|s.calls|].result == result;
      assert h(|s.calls|, pay, s.outCode) == result;
    } else {
      assert s1.calls == s.calls;
    }
    if s1.pc.Sending? {
      var a := AnswerTo(hdr, s.outCmd, s.outCode, result);
      assert [] + x == x;
      var r := Respond(h, |s1.calls|, a.cmd, a.code, x);
      assert Future(h, s1, x) == r;
      assert s.replies + ([ReplyFrame(a)] + r.replies) == s1.replies + r.replies;
      assert s.calls + (s1.calls[|s.calls|..] + r.calls) == s1.calls + r.calls;
    } else {
      assert s.replies + [] == s.replies && s1.calls + [] == s1.calls && s1.final + [] == [] + s1.final;
    }
  }

  /** The request in hand is whole, and only the deadline stands between it and its execution. */
  predicate AtEmptyPayload(s: Session) {
    s.pc.ReadingPayload? && Word(s.pc.hdr, LEN) == 0
  }

  /** Everywhere else a failed receive leaves a part of a request that is not answered. */
  lemma FailedReadIsPartial(h: Handler, s: Session, e: Event)
    requires WellFormed(s) && Enabled(s, e) && e.RxFail? && !AtEmptyPayload(s)
    ensures Future(h, s, []) == SILENCE
  {
    hide Valid, Word, Header, Answered;
    var got := Absorbed(s) + [];
    assert got == Absorbed(s);
    if s.pc.ReadingPayload? {
      assert got[..PREFIX_SIZE] == s.pc.hdr;
      assert !HasRequest(got);
    }
  }

  lemma ReadingKeepsWhole(h: Handler, s: Session, e: Event, x: seq<byte>)
    requires WellFormed(s) && Enabled(s, e) && Clean(e) && s.final == [] && (s.pc.ReadingHeader? || s.pc.ReadingPayload?)
    requires !Alive(Step(s, e)) ==> x == []
    ensures Whole(h, Step(s, e), x) == Whole(h, s, Taken(e) + x)
    ensures Alive(Step(s, e)) ==> Step(s, e).final == []
  {
    hide Respond, Header, Valid, Word, ErrorFrame, Execute;
    assert [] + x == x;
    if e.RxFail? {
      FailedReadIsPartial(h, s, e);
    } else if s.pc.ReadingPayload? {
      if e.Chunk? {
        assert s.pc.hdr + (s.pc.got + e.bytes) + x == s.pc.hdr + s.pc.got + (e.bytes + x);
      }
    } else if e.Chunk? {
      assert (s.pc.got + e.bytes) + x == s.pc.got + (e.bytes + x);
    } else if Valid(s.pc.got) {
      assert s.pc.got + [] + x == s.pc.got + x;
    } else {
      RespondBadHeader(h, |s.calls|, s.outCmd, s.outCode, s.pc.got, x);
    }
  }

  /** A clean step changes neither what has been nor what will be answered, only how far it got. */
  lemma CleanStepKeepsWhole(h: Handler, s: Session, e: Event, x: seq<byte>)
    requires WellFormed(s) && Enabled(s, e) && Clean(e) && (Alive(s) ==> s.final == [])
    requires Obeys(h, Step(s, e).calls) && (!Alive(Step(s, e)) ==> x == [])
    ensures Whole(h, Step(s, e), x) == Whole(h, s, Taken(e) + x)
    ensures Alive(Step(s, e)) ==> Step(s, e).final == []
  {
    hide Respond, Header, Valid, Word, ErrorFrame, Execute;
    if s.pc.ReadingHeader? || s.pc.ReadingPayload? {
      ReadingKeepsWhole(h, s, e, x);
    } else if s.pc.Executing? {
      assert [] + x == x;
      ExecuteKeepsWhole(h, s, e.result, x);
      ExecutionEnds(s, s.pc.hdr, s.pc.pay, e.result);
    } else {
      assert [] + x == x;
      RespondShort(h, |s.calls|, s.outCmd, s.outCode);
    }
  }

  lemma ExecutionEnds(s: Session, hdr: Hdr, pay: seq<byte>, result: HandlerResult)
    ensures var s1 := Execute(s, hdr, pay, result); s1.pc.Closing? || (s1.pc.Sending? && s1.final == s.final)
  {
  }

  /** A failure ends the session and answers nothing, and nothing was due. */
  lemma FailureAnswersNothing(h: Handler, s: Session, e: Event)
    requires WellFormed(s) && Enabled(s, e) && !Clean(e) && !e.Broke? && !(e.RxFail? && AtEmptyPayload(s))
    ensures Whole(h, Step(s, e), []).replies == Whole(h, s, []).replies
    ensures Whole(h, Step(s, e), []).calls == Whole(h, s, []).calls
    ensures !Alive(Step(s, e)) && Taken(e) == []
  {
    hide Respond, Header, Valid, Word;
    RespondShort(h, |s.calls|, s.outCmd, s.outCode);
    if e.RxFail? {
      FailedReadIsPartial(h, s, e);
    }
    assert [] + [] == Taken(e);
  }

  /** A deadline that expires once the request is whole loses exactly that request's reply or call. */
  lemma LateFailureLosesOne(h: Handler, s: Session, e: Event)
    requires WellFormed(s) && Enabled(s, e) && e.RxFail? && AtEmptyPayload(s)
    ensures !Clean(e) && !Alive(Step(s, e)) && Taken(e) == []
    ensures Whole(h, Step(s, e), []).replies <= Whole(h, s, []).replies
    ensures Whole(h, Step(s, e), []).calls <= Whole(h, s, []).calls
    ensures var was, now := Whole(h, s, []), Whole(h, Step(s, e), []);
            |now.replies| < |was.replies| || (|now.calls| < |was.calls| && !AllDone(was.calls))
  {
    hide Respond, Header, Valid, Word, AnswerTo, ReplyFrame, ErrorFrame;
    var hdr := s.pc.hdr;
    assert s.pc.got == [];
    assert Absorbed(s) + [] == hdr + [] + [];
    RespondRequest(h, |s.calls|, s.outCmd, s.outCode, hdr, [], []);
    var was := Whole(h, s, []);
    if Word(hdr, CMD) == CMD_REQUEST && !h(|s.calls|, [], s.outCode).Done? {
      assert was.calls[|s.calls|].result == h(|s.calls|, [], s.outCode);
    }
  }

  // ---------------------------------------------------------------- whole runs

  lemma {:induction false} RunGrows(s: Session, events: seq<Event>)
    requires WellFormed(s) && Runs(s, events)
    ensures WellFormed(Run(s, events))
    ensures s.calls <= Run(s, events).calls && s.input <= Run(s, events).input
    decreases |events|
  {
    hide Step, Enabled, WellFormed;
    if events != [] {
      StepWellFormed(s, events[0]);
      RunGrows(Step(s, events[0]), events[1..]);
    }
  }

  lemma DeadStepReadsNothing(s: Session, e: Event)
    requires !Alive(s) && Enabled(s, e)
    ensures !Alive(Step(s, e)) && Step(s, e).input == s.input
  {
  }

  lemma {:induction false} DeadReadsNoMore(s: Session, events: seq<Event>)
    requires !Alive(s) && Runs(s, events)
    ensures Run(s, events).input == s.input
    decreases |events|
  {
    hide Step, Enabled, Alive;
    if events != [] {
      DeadStepReadsNothing(s, events[0]);
      DeadReadsNoMore(Step(s, events[0]), events[1..]);
    }
  }

  lemma {:induction false} CleanRun(h: Handler, s: Session, events: seq<Event>)
    requires WellFormed(s) && Runs(s, events) && AllClean(events) && (Alive(s) ==> s.final == [])
    requires Obeys(h, Run(s, events).calls)
    ensures var t := Run(s, events);
            && s.input <= t.input && (Alive(t) ==> t.final == [])
            && Whole(h, t, []) == Whole(h, s, t.input[|s.input|..])
    decreases |events|
  {
    hide Step, Enabled, WellFormed, Whole, Alive;
    var t := Run(s, events);
    RunGrows(s, events);
    if events == [] {
      assert t.input[|s.input|..] == [];
    } else {
      var e, s1 := events[0], Step(s, events[0]);
      StepWellFormed(s, e);
      RunGrows(s1, events[1..]);
      ObeysPrefix(h, s1.calls, t.calls);
      var x := t.input[|s1.input|..];
      if !Alive(s1) {
        DeadReadsNoMore(s1, events[1..]);
      }
      CleanStepKeepsWhole(h, s, e, x);
      CleanRun(h, s1, events[1..]);
      assert t.input[|s.input|..] == Taken(e) + x;
    }
  }

  lemma ObeysPrefix(h: Handler, a: seq<Call>, b: seq<Call>)
    requires a <= b && Obeys(h, b)
    ensures Obeys(h, a)
  {
  }

  /**
   Chunking independence. In a run without timeouts and failures, ended by whoever leaves
   first, a session that is between requests or gone has made exactly the handler calls, and begun exactly the
   replies and the ERROR frame, of the reference responder on the bytes it read.
   */
  lemma ChunkingIndependence(h: Handler, events: seq<Event>)
    requires Runs(SESSION_START, events) && AllClean(events)
    requires Obeys(h, Run(SESSION_START, events).calls)
    ensures var t := Run(SESSION_START, events);
            var r := Respond(h, 0, 0, 0, t.input);
            && Whole(h, t, []) == r
            && (Settled(t) ==> t.calls == r.calls && t.output == Wire(r))
  {
    hide Step, Enabled, Respond;
    var t := Run(SESSION_START, events);
    CleanRun(h, SESSION_START, events);
    assert t.input[0..] == t.input && [] + t.input == t.input;
    var r := Respond(h, 0, 0, 0, t.input);
    assert Whole(h, SESSION_START, t.input) == r;
    if Settled(t) {
      RespondShort(h, |t.calls|, t.outCmd, t.outCode);
      assert Absorbed(t) + [] == [];
      OutputIsFramed(SESSION_START, events);
      assert t.replies + [] == t.replies && t.final + [] == t.final && t.calls + [] == t.calls;
    }
  }

  /** Two clean runs over the same bytes answer with the same bytes and the same calls. */
  lemma SameInputSameOutput(h: Handler, events: seq<Event>, events': seq<Event>)
    requires Runs(SESSION_START, events) && AllClean(events) && Obeys(h, Run(SESSION_START, events).calls)
    requires Runs(SESSION_START, events') && AllClean(events') && Obeys(h, Run(SESSION_START, events').calls)
    requires Run(SESSION_START, events).input == Run(SESSION_START, events').input
    requires Settled(Run(SESSION_START, events)) && Settled(Run(SESSION_START, events'))
    ensures Run(SESSION_START, events).output == Run(SESSION_START, events').output
    ensures Run(SESSION_START, events).calls == Run(SESSION_START, events').calls
  {
    hide *;
    ChunkingIndependence(h, events);
    ChunkingIndependence(h, events');
  }

  /** The session ends because a deadline expired after a request had been read whole. */
  predicate EndsLate(s: Session, events: seq<Event>)
    requires Runs(s, events)
    decreases |events|
  {
    events != [] && ((events[0].RxFail? && AtEmptyPayload(s)) || EndsLate(Step(s, events[0]), events[1..]))
  }

  /** What a session in `t` has left out of a whole response. */
  predicate NothingMissing(t: Response, r: Response) {
    t.replies == r.replies && t.calls == r.calls
  }

  /** A reply is missing, or the call of a handler that would have failed. */
  predicate SomethingMissing(t: Response, r: Response) {
    && t.replies <= r.replies && t.calls <= r.calls
    && (|t.replies| < |r.replies| || (|t.calls| < |r.calls| && !AllDone(r.calls)))
  }

  /** The handler has failed in none of these calls. */
  predicate AllDone(calls: seq<Call>) {
    forall i :: 0 <= i < |calls| ==> calls[i].result.Done?
  }

  lemma {:induction false} RunAnswersAll(h: Handler, s: Session, events: seq<Event>)
    requires WellFormed(s) && Runs(s, events) && NoneBroken(events) && (Alive(s) ==> s.final == [])
    requires Obeys(h, Run(s, events).calls)
    ensures var t := Run(s, events);
            && s.input <= t.input
            && var was, now := Whole(h, s, t.input[|s.input|..]), Whole(h, t, []);
               if EndsLate(s, events) then SomethingMissing(now, was) else NothingMissing(now, was)
    decreases |events|
  {
    hide Step, Enabled, WellFormed, Alive, Whole, Clean, AtEmptyPayload;
    var t := Run(s, events);
    RunGrows(s, events);
    if events == [] {
      assert t.input[|s.input|..] == [];
    } else {
      var e, s1 := events[0], Step(s, events[0]);
      StepWellFormed(s, e);
      RunGrows(s1, events[1..]);
      ObeysPrefix(h, s1.calls, t.calls);
      var x := t.input[|s1.input|..];
      assert t.input[|s.input|..] == Taken(e) + x;
      if !Alive(s1) {
        DeadReadsNoMore(s1, events[1..]);
        assert x == [] && Taken(e) + [] == Taken(e);
      }
      if Clean(e) {
        CleanStepKeepsWhole(h, s, e, x);
        assert !(e.RxFail? && AtEmptyPayload(s)) by { CleanIsInTime(s, e); }
      } else if e.RxFail? && AtEmptyPayload(s) {
        LateFailureLosesOne(h, s, e);
        DeadIsNotLate(s1, events[1..]);
      } else {
        FailureAnswersNothing(h, s, e);
      }
      RunAnswersAll(h, s1, events[1..]);
    }
  }

  lemma CleanIsInTime(s: Session, e: Event)
    requires Enabled(s, e) && Clean(e)
    ensures !(e.RxFail? && AtEmptyPayload(s))
  {
  }

  lemma {:induction false} DeadIsNotLate(s: Session, events: seq<Event>)
    requires !Alive(s) && Runs(s, events)
    ensures !EndsLate(s, events)
    decreases |events|
  {
    hide Step, Enabled;
    if events != [] {
      DeadStepReadsNothing(s, events[0]);
      DeadIsNotLate(Step(s, events[0]), events[1..]);
    }
  }

  /**
   Replies in request order, whatever fails or times out. The replies begun and the handler
   calls made are the first ones of the reference responder on the bytes read; and a settled
   session has left none of them out if and only if it did not end by a deadline that
   expired on a request already read whole.
   */
  lemma RepliesInRequestOrder(h: Handler, events: seq<Event>)
    requires Runs(SESSION_START, events) && NoneBroken(events)
    requires Obeys(h, Run(SESSION_START, events).calls)
    ensures var t := Run(SESSION_START, events);
            var r := Respond(h, 0, 0, 0, t.input);
            && t.replies <= r.replies && t.calls <= r.calls
            && (Settled(t) ==> (t.replies == r.replies && t.calls == r.calls <==> !EndsLate(SESSION_START, events)))
            && (Settled(t) && EndsLate(SESSION_START, events) ==> |t.replies| < |r.replies| || !AllDone(r.calls))
  {
    hide Step, Enabled, Respond, Runs, Run, EndsLate, AllDone;
    var t := Run(SESSION_START, events);
    RunAnswersAll(h, SESSION_START, events);
    assert t.input[0..] == t.input && [] + t.input == t.input;
    var r := Respond(h, 0, 0, 0, t.input);
    assert Whole(h, SESSION_START, t.input) == Response([] + r.replies, [] + r.final, [] + r.calls);
    assert [] + r.replies == r.replies && [] + r.calls == r.calls;
    var whole := Whole(h, t, []);
    assert t.replies <= whole.replies && t.calls <= whole.calls;
    if Settled(t) {
      RespondShort(h, |t.calls|, t.outCmd, t.outCode);
      assert Absorbed(t) + [] == [];
      assert t.replies + [] == t.replies && t.calls + [] == t.calls;
    }
  }

  /** A command the server does not know: neither a request nor a ping. */
  predicate Unknown(hdr: Hdr) {
    Word(hdr, CMD) != CMD_REQUEST && Word(hdr, CMD) != CMD_PING_REQUEST
  }

  /**
   Command and code survive from one exchange to the next: an unknown command is answered
   with those of the reply before it, and no payload.
   */
  lemma UnknownCommandRepeatsLastReply(h: Handler, n: nat, cmd: u32, code: u32, hdr: Hdr, pay: seq<byte>,
                                       hdr': Hdr, pay': seq<byte>, x: seq<byte>)
    requires Valid(hdr) && |pay| == Word(hdr, LEN) && Valid(hdr') && |pay'| == Word(hdr', LEN) && Unknown(hdr')
    requires Word(hdr, CMD) == CMD_REQUEST ==> h(n, pay, code).Done?
    ensures var replies := Respond(h, n, cmd, code, hdr + pay + (hdr' + pay' + x)).replies;
            && |replies| >= 2 && |replies[0]| >= PREFIX_SIZE == |replies[1]|
            && Word(replies[1], CMD) == Word(replies[0][..PREFIX_SIZE], CMD)
            && Word(replies[1], CODE) == Word(replies[0][..PREFIX_SIZE], CODE)
            && Word(replies[1], LEN) == 0
  {
    hide Respond, Header, Valid, Word;
    var result := if Word(hdr, CMD) == CMD_REQUEST then h(n, pay, code) else NotCalled;
    var a := AnswerTo(hdr, cmd, code, result);
    var n' := if Word(hdr, CMD) == CMD_REQUEST then n + 1 else n;
    RespondRequest(h, n, cmd, code, hdr, pay, hdr' + pay' + x);
    RespondRequest(h, n', a.cmd, a.code, hdr', pay', x);
    HeaderFields(a.cmd, a.code, 0, |a.pay|);
    HeaderFields(a.cmd, a.code, 0, 0);
    assert ReplyFrame(a)[..PREFIX_SIZE] == Header(a.cmd, a.code, 0, |a.pay|);
    assert Header(a.cmd, a.code, 0, 0) + [] == Header(a.cmd, a.code, 0, 0);
  }

  // ---------------------------------------------------------------- framing of the output

  /** A header whose length field is the size of the payload behind it. */
  predicate IsFrame(f: seq<byte>) {
    |f| >= PREFIX_SIZE && Valid(f[..PREFIX_SIZE]) && |f| == PREFIX_SIZE + Word(f[..PREFIX_SIZE], LEN)
  }

  lemma ReplyIsFrame(a: Answer)
    ensures var r := ReplyFrame(a);
            && IsFrame(r) && |r| == PREFIX_SIZE + |a.pay| && r[PREFIX_SIZE..] == a.pay
            && Word(r[..PREFIX_SIZE], CMD) == a.cmd && Word(r[..PREFIX_SIZE], CODE) == a.code
  {
    HeaderFields(a.cmd, a.code, 0, |a.pay|);
    assert ReplyFrame(a)[..PREFIX_SIZE] == Header(a.cmd, a.code, 0, |a.pay|);
  }

  lemma ErrorIsFrame(why: ConnState)
    ensures IsFinal(ErrorFrame(why)) && ErrorFrame(why) != []
  {
    HeaderFields(CMD_ERROR, StateCode(why), 0, 0);
    assert ErrorFrame(why)[..PREFIX_SIZE] == ErrorFrame(why);
  }

  predicate AllFrames(frames: seq<seq<byte>>) {
    forall i :: 0 <= i < |frames| ==> IsFrame(frames[i])
  }

  /** Nothing, or one ERROR frame without payload. */
  predicate IsFinal(f: seq<byte>) {
    f == [] || (|f| == PREFIX_SIZE && IsFrame(f) && Word(f, CMD) == CMD_ERROR)
  }

  /** What is accepted and what is pending are the replies begun and then the final frame. */
  predicate Framed(s: Session) {
    && AllFrames(s.replies) && IsFinal(s.final)
    && s.output + Pending(s) == Flat(s.replies) + s.final
    && (Alive(s) ==> s.final == [])
  }

  lemma {:induction false} FlatAppend(frames: seq<seq<byte>>, f: seq<byte>)
    ensures Flat(frames + [f]) == Flat(frames) + f
  {
    if frames == [] {
      assert Flat([f]) == f + Flat([]);
    } else {
      assert (frames + [f])[1..] == frames[1..] + [f];
      FlatAppend(frames[1..], f);
      assert frames[0] + (Flat(frames[1..]) + f) == (frames[0] + Flat(frames[1..])) + f;
    }
  }

  lemma FailFramed(s: Session, why: ConnState)
    requires Framed(s) && Alive(s) && Pending(s) == []
    ensures Framed(Fail(s, why))
  {
    hide IsFrame, ErrorFrame;
    ErrorIsFrame(why);
    assert s.output + [] == s.output && Flat(s.replies) + [] == Flat(s.replies);
    assert s.output + Pending(s) == Flat(s.replies) + s.final;
  }

  lemma ExecuteFramed(s: Session, hdr: Hdr, pay: seq<byte>, result: HandlerResult)
    requires Framed(s) && Alive(s) && Pending(s) == []
    ensures Framed(Execute(s, hdr, pay, result))
  {
    hide IsFrame, ReplyFrame, AnswerTo, Word;
    if Word(hdr, CMD) == CMD_REQUEST && !result.Done? {
      FailFramed(s.(calls := s.calls + [Call(pay, s.outCode, result)]), ERR_EXEC);
    } else {
      var a := AnswerTo(hdr, s.outCmd, s.outCode, result);
      ReplyIsFrame(a);
      FlatAppend(s.replies, ReplyFrame(a));
      assert s.output + [] == s.output && Flat(s.replies) + [] == Flat(s.replies);
    }
  }

  lemma StepFramed(s: Session, e: Event)
    requires WellFormed(s) && Framed(s) && Enabled(s, e) && !e.TxFail?
    ensures Framed(Step(s, e))
  {
    hide AllFrames, IsFinal, Flat, Execute, Fail;
    match s.pc
    case Executing(hdr, pay) => ExecuteFramed(s, hdr, pay, e.result);
    case Sending(rest) =>
      if e.n < |rest| {
        assert s.output + rest == (s.output + rest[..e.n]) + rest[e.n..];
      }
    case Closing(rest) =>
      if e.n < |rest| {
        assert s.output + rest == (s.output + rest[..e.n]) + rest[e.n..];
      }
    case Waiting =>
    case Gone =>
    case ReadingHeader(got) =>
      if e.RxFail? {
        FailFramed(s, e.why);
      } else {
        FailFramed(s, ERR_SYNC);
      }
    case ReadingPayload(_, _) =>
      if e.RxFail? {
        FailFramed(s, e.why);
      }
  }

  lemma {:induction false} OutputIsFramed(s: Session, events: seq<Event>)
    requires WellFormed(s) && Framed(s) && Runs(s, events) && NoneUnsent(events)
    ensures Framed(Run(s, events))
    decreases |events|
  {
    hide Step, Enabled, WellFormed, Framed;
    if events != [] {
      StepWellFormed(s, events[0]);
      StepFramed(s, events[0]);
      OutputIsFramed(Step(s, events[0]), events[1..]);
    }
  }

  /** Splits a byte stream at the length fields of its headers. */
  function SplitFrames(b: seq<byte>): (res: (seq<seq<byte>>, seq<byte>))
    decreases |b|
  {
    if !HasRequest(b) then ([], b)
    else
      var (frames, rest) := SplitFrames(b[RequestSize(b)..]);
      ([b[..RequestSize(b)]] + frames, rest)
  }

  lemma {:induction false} SplitFlat(frames: seq<seq<byte>>)
    requires AllFrames(frames)
    ensures SplitFrames(Flat(frames)) == (frames, [])
  {
    hide Valid, Word;
    if frames == [] {
    } else {
      var f, b := frames[0], Flat(frames);
      SplitFlat(frames[1..]);
      assert IsFrame(f) && b[..PREFIX_SIZE] == f[..PREFIX_SIZE];
      assert b[..|f|] == f && b[|f|..] == Flat(frames[1..]);
      assert HasRequest(b) && RequestSize(b) == |f|;
      assert [f] + frames[1..] == frames;
    }
  }

  /** The frames that end a session's output. */
  function Finals(final: seq<byte>): seq<seq<byte>> {
    if final == [] then [] else [final]
  }

  /**
   Well-framed output. If no send fails, a settled session's output splits at its length
   fields into exactly the replies begun, followed by at most one ERROR frame of zero length.
   */
  lemma WellFramedOutput(events: seq<Event>)
    requires Runs(SESSION_START, events) && NoneUnsent(events) && Settled(Run(SESSION_START, events))
    ensures var t := Run(SESSION_START, events);
            IsFinal(t.final) && SplitFrames(t.output) == (t.replies + Finals(t.final), [])
  {
    hide Step, Enabled, IsFrame;
    var t := Run(SESSION_START, events);
    OutputIsFramed(SESSION_START, events);
    assert t.output + [] == t.output;
    var frames := t.replies + Finals(t.final);
    FlatAppend(t.replies, t.final);
    assert Flat(t.replies) + [] == Flat(t.replies) && t.replies + [] == t.replies;
    assert t.output == Flat(frames);
    SplitFlat(frames);
  }

  lemma SameFront(a: seq<seq<byte>>, b: seq<seq<byte>>, c: seq<seq<byte>>)
    ensures a + c == b + c <==> a == b
  {
    if a + c == b + c {
      assert |a| == |b| && (a + c)[..|a|] == a && (b + c)[..|b|] == b;
    }
  }
}
