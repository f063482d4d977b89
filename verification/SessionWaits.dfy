/**
 What a session is told between requests, how it is left, and what it answers of the bytes
 it is offered: the bytes in its socket, whether it reads them or not.
 */
module SessionWaits {
  import opened Bytes
  import opened StreamPrefix
  import opened Transfer
  import opened Session
  import opened SessionLaws
  import opened SessionRequests

  /** The stop flag and the answer of `frame_wait`'s `select`, for one turn of the shell. */
  datatype Turn = Turn(stop: bool, select: int)

  predicate IsWait(e: Event) {
    e.Ready? || e.Quiet? || e.WaitFail? || e.Stopped?
  }

  /** What a waiting session was told, in order. */
  function Waits(events: seq<Event>): seq<Event> {
    if events == [] then [] else (if IsWait(events[0]) then [events[0]] else []) + Waits(events[1..])
  }

  /** Turn by turn: stopped by the flag or at the end of the turns, otherwise told what `select` says. */
  ghost predicate ByTurns(waits: seq<Event>, turns: seq<Turn>) {
    && |waits| <= |turns| + 1
    && forall k :: 0 <= k < |waits| ==>
         waits[k] == if k == |turns| || turns[k].stop then Stopped
                     else if turns[k].select < 0 then WaitFail
                     else if turns[k].select == 0 then Quiet
                     else Ready
  }

  lemma NothingTold(turns: seq<Turn>)
    ensures ByTurns([], turns)
  {
  }

  /** What the next turn tells. */
  function Next(waits: seq<Event>, turns: seq<Turn>): Event
    requires |waits| <= |turns|
  {
    if |waits| == |turns| || turns[|waits|].stop then Stopped
    else if turns[|waits|].select < 0 then WaitFail
    else if turns[|waits|].select == 0 then Quiet
    else Ready
  }

  lemma Told(waits: seq<Event>, turns: seq<Turn>)
    requires ByTurns(waits, turns) && |waits| <= |turns|
    ensures ByTurns(waits + [Next(waits, turns)], turns)
  {
  }

  /** No turn stops the session or fails. */
  predicate Uninterrupted(turns: seq<Turn>) {
    forall k :: 0 <= k < |turns| ==> !turns[k].stop && turns[k].select >= 0
  }

  function ReadyTurns(turns: seq<Turn>): nat {
    if turns == [] then 0 else (if turns[0].select > 0 then 1 else 0) + ReadyTurns(turns[1..])
  }

  function Readies(waits: seq<Event>): nat {
    if waits == [] then 0 else (if waits[0].Ready? then 1 else 0) + Readies(waits[1..])
  }

  lemma {:induction false} WaitsAppend(a: seq<Event>, b: seq<Event>)
    ensures Waits(a + b) == Waits(a) + Waits(b)
  {
    if a == [] {
      assert a + b == b;
    } else {
      var first := if IsWait(a[0]) then [a[0]] else [];
      assert (a + b)[0] == a[0] && (a + b)[1..] == a[1..] + b;
      WaitsAppend(a[1..], b);
      assert Waits(a + b) == first + (Waits(a[1..]) + Waits(b)) == first + Waits(a[1..]) + Waits(b);
    }
  }

  lemma {:induction false} NoWaits(events: seq<Event>)
    requires forall i :: 0 <= i < |events| ==> !IsWait(events[i])
    ensures Waits(events) == []
  {
    if events != [] {
      NoWaits(events[1..]);
    }
  }

  lemma WaitsOne(a: seq<Event>, e: Event)
    ensures Waits(a + [e]) == Waits(a) + if IsWait(e) then [e] else []
  {
    WaitsAppend(a, [e]);
    assert Waits([e][1..]) == [];
  }

  lemma {:induction false} ReadiesOne(waits: seq<Event>, e: Event)
    ensures Readies(waits + [e]) == Readies(waits) + if e.Ready? then 1 else 0
  {
    if waits == [] {
      assert Readies([e][1..]) == 0 && waits + [e] == [e];
    } else {
      assert (waits + [e])[1..] == waits[1..] + [e];
      ReadiesOne(waits[1..], e);
    }
  }

  lemma {:induction false} ReadiesByTurns(waits: seq<Event>, turns: seq<Turn>)
    requires ByTurns(waits, turns) && Uninterrupted(turns)
    ensures Readies(waits) <= ReadyTurns(turns)
    ensures |waits| == |turns| + 1 ==> Readies(waits) == ReadyTurns(turns)
  {
    if waits != [] && turns != [] {
      assert waits[0] == if turns[0].select == 0 then Quiet else Ready;
      ReadiesByTurns(waits[1..], turns[1..]);
    } else if waits != [] {
      assert waits[1..] == [];
    }
  }

  // ---------------------------------------------------------------- how a session is left

  /**
   How the loop is left: told to stop, or by a failed wait, or after an exchange that began
   an ERROR frame or found that the peer had left. Until then it was told Ready or Quiet.
   */
  ghost predicate LeftBy(t: Session, waits: seq<Event>, events: seq<Event>) {
    && waits != []
    && (forall k :: 0 <= k < |waits| - 1 ==> waits[k].Ready? || waits[k].Quiet?)
    && var last := waits[|waits| - 1];
       || ((last.Stopped? || last.WaitFail?) && t.final == [])
       || (&& last.Ready? && events != []
           && (t.final != [] || events[|events| - 1] in {RxFail(ERR_CLOSED), TxFail(ERR_CLOSED)}))
  }

  /** The same, for a session under way as well. */
  ghost predicate Accounts(t: Session, waits: seq<Event>, events: seq<Event>) {
    if t.pc.Gone? then LeftBy(t, waits, events)
    else
      && (forall k :: 0 <= k < |waits| ==> waits[k].Ready? || waits[k].Quiet?)
      && (t.pc.Waiting? || (waits != [] && waits[|waits| - 1].Ready?))
      && (t.pc.Closing? <==> t.final != [])
  }

  lemma StepAccounts(t: Session, waits: seq<Event>, events: seq<Event>, e: Event)
    requires Accounts(t, waits, events) && Enabled(t, e)
    ensures Accounts(Step(t, e), waits + if IsWait(e) then [e] else [], events + [e])
  {
    hide Valid, Word, Header, AnswerTo, ReplyFrame;
    assert (events + [e])[|events|] == e;
    assert waits + [] == waits;
  }

  lemma {:induction false} RunAccounts(events: seq<Event>)
    requires Runs(SESSION_START, events)
    ensures Accounts(Run(SESSION_START, events), Waits(events), events)
    decreases |events|
  {
    hide Step, Enabled, Accounts;
    if events == [] {
      StartAccounts();
    } else {
      var before, e := events[..|events| - 1], events[|events| - 1];
      assert before + [e] == events;
      RunsPrefix(SESSION_START, before, [e]);
      RunAppend(SESSION_START, before, [e]);
      RunAccounts(before);
      RunOne(Run(SESSION_START, before), e);
      StepAccounts(Run(SESSION_START, before), Waits(before), before, e);
      WaitsOne(before, e);
    }
  }

  lemma {:induction false} RunsPrefix(s: Session, a: seq<Event>, b: seq<Event>)
    requires Runs(s, a + b)
    ensures Runs(s, a)
    decreases |a|
  {
    hide Step, Enabled;
    if a != [] {
      assert (a + b)[0] == a[0] && (a + b)[1..] == a[1..] + b;
      RunsPrefix(Step(s, a[0]), a[1..], b);
    }
  }

  lemma StartAccounts()
    ensures Accounts(SESSION_START, [], [])
  {
  }

  /** Every session that is over was left in one of these ways, whatever happened. */
  lemma LoopIsLeft(events: seq<Event>)
    requires Runs(SESSION_START, events) && Run(SESSION_START, events).pc.Gone?
    ensures LeftBy(Run(SESSION_START, events), Waits(events), events)
  {
    hide LeftBy;
    RunAccounts(events);
  }

  // ---------------------------------------------------------------- one reply for each turn that is ready

  predicate PeerLeft(events: seq<Event>) {
    exists i :: 0 <= i < |events| && events[i].RxFail?
  }

  /** Without a failure each Ready has got its reply, but for the one being served and the one that ended it all. */
  ghost predicate Tally(t: Session, waits: seq<Event>, left: bool) {
    match t.pc
    case Waiting => Readies(waits) == |t.replies|
    case Sending(_) => Readies(waits) == |t.replies|
    case Gone =>
      || (Readies(waits) == |t.replies| && t.final == [] && waits != [] && !waits[|waits| - 1].Ready?)
      || (Readies(waits) == |t.replies| + 1 && (t.final != [] || left))
    case _ => Readies(waits) == |t.replies| + 1
  }

  lemma StepTallies(t: Session, waits: seq<Event>, events: seq<Event>, e: Event)
    requires Accounts(t, waits, events) && Tally(t, waits, PeerLeft(events)) && Enabled(t, e) && Clean(e)
    ensures Tally(Step(t, e), waits + if IsWait(e) then [e] else [], PeerLeft(events + [e]))
  {
    hide Valid, Word, Header, AnswerTo, ReplyFrame, Readies;
    ReadiesOne(waits, e);
    assert waits + [] == waits;
    assert (events + [e])[|events|] == e;
    if PeerLeft(events) {
      var i :| 0 <= i < |events| && events[i].RxFail?;
      assert (events + [e])[i] == events[i];
    }
  }

  lemma {:induction false} RunTallies(events: seq<Event>)
    requires Runs(SESSION_START, events) && AllClean(events)
    ensures Tally(Run(SESSION_START, events), Waits(events), PeerLeft(events))
    decreases |events|
  {
    hide Step, Enabled, Accounts, Tally, Clean, PeerLeft;
    if events == [] {
      StartTallies();
    } else {
      var before, e := events[..|events| - 1], events[|events| - 1];
      assert before + [e] == events;
      RunsPrefix(SESSION_START, before, [e]);
      RunAppend(SESSION_START, before, [e]);
      RunAccounts(before);
      RunTallies(before);
      RunOne(Run(SESSION_START, before), e);
      StepTallies(Run(SESSION_START, before), Waits(before), before, e);
      WaitsOne(before, e);
    }
  }

  lemma StartTallies()
    ensures Tally(SESSION_START, [], PeerLeft([]))
  {
  }

  // ---------------------------------------------------------------- the input offered

  /** The frames of a whole answer. */
  function Frames(r: Response): nat {
    |r.replies| + |Finals(r.final)|
  }

  lemma {:induction false} RespondEnds(h: Handler, n: nat, cmd: u32, code: u32, input: seq<byte>)
    ensures IsFinal(Respond(h, n, cmd, code, input).final)
    decreases |input|
  {
    hide Valid, Word, ReplyFrame, AnswerTo, ErrorFrame, IsFrame;
    ErrorIsFrame(ERR_SYNC);
    ErrorIsFrame(ERR_EXEC);
    if HasRequest(input) {
      var hdr, pay := input[..PREFIX_SIZE], input[PREFIX_SIZE..RequestSize(input)];
      var result := if Word(hdr, CMD) == CMD_REQUEST then h(n, pay, code) else NotCalled;
      var a := AnswerTo(hdr, cmd, code, result);
      RespondEnds(h, if Word(hdr, CMD) == CMD_REQUEST then n + 1 else n, a.cmd, a.code, input[RequestSize(input)..]);
    }
  }

  lemma NoFramesNoCalls(h: Handler, n: nat, cmd: u32, code: u32, input: seq<byte>)
    requires Frames(Respond(h, n, cmd, code, input)) == 0
    ensures Respond(h, n, cmd, code, input) == SILENCE
  {
    hide Valid, Word, ReplyFrame, AnswerTo, ErrorFrame;
    ErrorIsFrame(ERR_SYNC);
    ErrorIsFrame(ERR_EXEC);
  }

  /** What the response to a stream says of the response to a longer one. */
  ghost predicate Extends(r: Response, r': Response) {
    && r.replies <= r'.replies && r.calls <= r'.calls && Frames(r) <= Frames(r')
    && (r.final != [] || Frames(r) == Frames(r') ==> r == r')
  }

  lemma ExtendsBefore(replies: seq<seq<byte>>, calls: seq<Call>, r: Response, r': Response)
    requires Extends(r, r')
    ensures Extends(Before(replies, calls, r), Before(replies, calls, r'))
  {
  }

  lemma {:induction false} RespondExtends(h: Handler, n: nat, cmd: u32, code: u32, input: seq<byte>, x: seq<byte>)
    ensures Extends(Respond(h, n, cmd, code, input), Respond(h, n, cmd, code, input + x))
    decreases |input|
  {
    hide Valid, Word, ReplyFrame, AnswerTo, ErrorFrame, Extends;
    if |input| >= PREFIX_SIZE {
      assert (input + x)[..PREFIX_SIZE] == input[..PREFIX_SIZE];
    }
    if HasRequest(input) {
      var size := RequestSize(input);
      var hdr, pay, rest := input[..PREFIX_SIZE], input[PREFIX_SIZE..size], input[size..];
      assert (input + x)[PREFIX_SIZE..size] == pay && (input + x)[size..] == rest + x;
      var asks := Word(hdr, CMD) == CMD_REQUEST;
      var result := if asks then h(n, pay, code) else NotCalled;
      if asks && !result.Done? {
        SameExtends(Respond(h, n, cmd, code, input));
      } else {
        var a := AnswerTo(hdr, cmd, code, result);
        var n' := if asks then n + 1 else n;
        RespondExtends(h, n', a.cmd, a.code, rest, x);
        ExtendsBefore([ReplyFrame(a)], if asks then [Call(pay, code, result)] else [],
                      Respond(h, n', a.cmd, a.code, rest), Respond(h, n', a.cmd, a.code, rest + x));
      }
    } else if |input| >= PREFIX_SIZE && !Valid(input[..PREFIX_SIZE]) {
      SameExtends(Respond(h, n, cmd, code, input));
    } else {
      SilenceExtends(h, n, cmd, code, input + x);
    }
  }

  lemma SameExtends(r: Response)
    ensures Extends(r, r)
  {
  }

  lemma SilenceExtends(h: Handler, n: nat, cmd: u32, code: u32, input: seq<byte>)
    ensures Extends(SILENCE, Respond(h, n, cmd, code, input))
  {
    hide Respond;
    if Frames(Respond(h, n, cmd, code, input)) == 0 {
      NoFramesNoCalls(h, n, cmd, code, input);
    }
  }

  lemma WireSplits(r: Response)
    requires AllFrames(r.replies) && IsFinal(r.final)
    ensures SplitFrames(Wire(r)) == (r.replies + Finals(r.final), [])
  {
    hide IsFrame;
    FlatAppend(r.replies, r.final);
    assert Flat(r.replies) + [] == Flat(r.replies) && r.replies + [] == r.replies;
    SplitFlat(r.replies + Finals(r.final));
  }

  lemma ResponseSplits(h: Handler, input: seq<byte>)
    ensures var r := Respond(h, 0, 0, 0, input);
            SplitFrames(Wire(r)) == (r.replies + Finals(r.final), []) && |SplitFrames(Wire(r)).0| == Frames(r)
  {
    hide Respond, Wire, SplitFrames, IsFinal, IsFrame;
    RepliesMatchRequests(h, 0, 0, 0, input);
    RespondEnds(h, 0, 0, 0, input);
    var r := Respond(h, 0, 0, 0, input);
    forall i | 0 <= i < |r.replies|
      ensures IsFrame(r.replies[i])
    {
      assert Fits(Requests(input)[i], r.replies[i]);
    }
    WireSplits(r);
  }

  /**
   The input offered. A session without timeouts and failures, that was not stopped before
   its turns were used up, answers all of `input` exactly if it had a ready turn for each
   frame of the answer. `input` is what its socket was given, of which it has read a part:
   all of it, if the peer has left.
   */
  lemma OfferedInput(h: Handler, events: seq<Event>, turns: seq<Turn>, input: seq<byte>)
    requires Runs(SESSION_START, events) && AllClean(events) && Obeys(h, Run(SESSION_START, events).calls)
    requires Run(SESSION_START, events).pc.Gone? && ByTurns(Waits(events), turns) && Uninterrupted(turns)
    requires Run(SESSION_START, events).input <= input
    requires PeerLeft(events) ==> Run(SESSION_START, events).input == input
    ensures var t, r := Run(SESSION_START, events), Respond(h, 0, 0, 0, input);
            && (t.output == Wire(r) && t.calls == r.calls <==> ReadyTurns(turns) >= Frames(r))
            && (t.output == Wire(r) <==> Respond(h, 0, 0, 0, t.input) == r)
  {
    hide Runs, Run, AllClean, Obeys, Respond, Wire, SplitFrames, Waits, Readies, ReadyTurns, PeerLeft, Flat;
    var t, r := Run(SESSION_START, events), Respond(h, 0, 0, 0, input);
    var mine, waits := Respond(h, 0, 0, 0, t.input), Waits(events);
    ChunkingIndependence(h, events);
    assert t.replies == mine.replies && t.final == mine.final by { WholeOfGone(h, t); }
    RespondExtends(h, 0, 0, 0, t.input, input[|t.input|..]);
    assert t.input + input[|t.input|..] == input;
    ResponseSplits(h, input);
    ResponseSplits(h, t.input);
    LoopIsLeft(events);
    RunTallies(events);
    ReadiesByTurns(waits, turns);
    assert ReadyTurns(turns) >= Frames(mine);
    if mine == r {
    } else {
      assert mine.final == [] && !PeerLeft(events) && waits[|waits| - 1].Stopped?;
      assert Frames(mine) < Frames(r) && t.output != Wire(r);
    }
  }

  lemma WholeOfGone(h: Handler, t: Session)
    requires t.pc.Gone?
    ensures Whole(h, t, []).replies == t.replies && Whole(h, t, []).final == t.final
  {
    assert t.replies + [] == t.replies && t.final + [] == t.final;
  }

  lemma {:induction false} SplitExtends(input: seq<byte>, x: seq<byte>)
    ensures Requests(input) <= Requests(input + x)
    ensures input == Flat(Requests(input)) + SplitFrames(input).1
    decreases |input|
  {
    hide Valid, Word;
    if HasRequest(input) {
      var size := RequestSize(input);
      assert (input + x)[..PREFIX_SIZE] == input[..PREFIX_SIZE];
      assert (input + x)[..size] == input[..size] && (input + x)[size..] == input[size..] + x;
      SplitExtends(input[size..], x);
      assert Requests(input)[1..] == Requests(input[size..]);
    }
  }

  lemma {:induction false} WholeRequestsEndQuietly(h: Handler, n: nat, cmd: u32, code: u32, input: seq<byte>)
    requires SplitFrames(input).1 == [] && AllDone(Respond(h, n, cmd, code, input).calls)
    ensures Respond(h, n, cmd, code, input).final == []
    decreases |input|
  {
    hide Valid, Word, ReplyFrame, AnswerTo, ErrorFrame;
    if HasRequest(input) {
      var hdr, pay := input[..PREFIX_SIZE], input[PREFIX_SIZE..RequestSize(input)];
      var asks := Word(hdr, CMD) == CMD_REQUEST;
      var result := if asks then h(n, pay, code) else NotCalled;
      var a, n' := AnswerTo(hdr, cmd, code, result), if asks then n + 1 else n;
      var r, rest := Respond(h, n, cmd, code, input), Respond(h, n', a.cmd, a.code, input[RequestSize(input)..]);
      if asks {
        assert r.calls[0] == Call(pay, code, result);
      }
      assert forall i :: 0 <= i < |rest.calls| ==> r.calls[|r.calls| - |rest.calls| + i] == rest.calls[i];
      WholeRequestsEndQuietly(h, n', a.cmd, a.code, input[RequestSize(input)..]);
    }
  }

  /**
   The requests offered are read: if `input` is whole requests and nothing else, the handler
   fails for none of them, and there is a ready turn for each, such a session reads all of it.
   */
  lemma OfferedIsRead(h: Handler, events: seq<Event>, turns: seq<Turn>, input: seq<byte>)
    requires Runs(SESSION_START, events) && AllClean(events) && Obeys(h, Run(SESSION_START, events).calls)
    requires Run(SESSION_START, events).pc.Gone? && ByTurns(Waits(events), turns) && Uninterrupted(turns)
    requires Run(SESSION_START, events).input <= input
    requires PeerLeft(events) ==> Run(SESSION_START, events).input == input
    requires SplitFrames(input).1 == [] && AllDone(Respond(h, 0, 0, 0, input).calls)
    requires ReadyTurns(turns) >= |Requests(input)|
    ensures Run(SESSION_START, events).input == input
  {
    hide Runs, Run, AllClean, Obeys, Respond, Wire, SplitFrames, Waits, ReadyTurns, PeerLeft, Flat, AllDone, AllFit,
         ByTurns, Uninterrupted;
    var read := Run(SESSION_START, events).input;
    WholeRequestsEndQuietly(h, 0, 0, 0, input);
    RepliesMatchRequests(h, 0, 0, 0, input);
    RepliesMatchRequests(h, 0, 0, 0, read);
    OfferedInput(h, events, turns, input);
    SplitExtends(read, input[|read|..]);
    SplitExtends(input, []);
    assert read + input[|read|..] == input && input + [] == input;
    assert Requests(read) == Requests(input);
  }
}
