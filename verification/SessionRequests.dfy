/**
 Counting requests: which of the requests a session has read whole get a reply, and that
 each reply fits its request.
 */
module SessionRequests {
  import opened Bytes
  import opened StreamPrefix
  import opened Transfer
  import opened Session
  import opened SessionLaws

  // ---------------------------------------------------------------- the responder and its input

  /** The requests at the front of a stream, whole frames with a valid header. */
  function Requests(input: seq<byte>): seq<seq<byte>> {
    SplitFrames(input).0
  }

  /** The payloads of the frames whose command is a request. */
  function Payloads(requests: seq<seq<byte>>): seq<seq<byte>>
    requires AllFrames(requests)
  {
    if requests == [] then []
    else
      var f := requests[0];
      (if Word(f[..PREFIX_SIZE], CMD) == CMD_REQUEST then [f[PREFIX_SIZE..]] else []) + Payloads(requests[1..])
  }

  /** The reply is a frame of the kind the request asks for; a ping's number comes back. */
  predicate Fits(request: seq<byte>, reply: seq<byte>)
    requires IsFrame(request)
  {
    && IsFrame(reply)
    && var asked, said := request[..PREFIX_SIZE], reply[..PREFIX_SIZE];
       if Word(asked, CMD) == CMD_REQUEST then Word(said, CMD) == CMD_RESPONSE
       else
         && |reply| == PREFIX_SIZE
         && (Word(asked, CMD) == CMD_PING_REQUEST ==>
               Word(said, CMD) == CMD_PING_RESPONSE && Word(said, CODE) == Word(asked, CODE))
  }

  predicate AllFit(requests: seq<seq<byte>>, replies: seq<seq<byte>>)
    requires AllFrames(requests)
  {
    |replies| <= |requests| && forall i :: 0 <= i < |replies| ==> Fits(requests[i], replies[i])
  }

  lemma {:induction false} RequestsAreFrames(input: seq<byte>)
    ensures AllFrames(Requests(input))
    decreases |input|
  {
    hide Valid, Word;
    if HasRequest(input) {
      var size := RequestSize(input);
      RequestsAreFrames(input[size..]);
      assert input[..size][..PREFIX_SIZE] == input[..PREFIX_SIZE];
      assert IsFrame(input[..size]);
    }
  }

  lemma AnswerFits(hdr: Hdr, pay: seq<byte>, outCmd: u32, outCode: u32, result: HandlerResult)
    requires Valid(hdr) && |pay| == Word(hdr, LEN) && (Word(hdr, CMD) == CMD_REQUEST ==> result.Done?)
    ensures IsFrame(hdr + pay) && Fits(hdr + pay, ReplyFrame(AnswerTo(hdr, outCmd, outCode, result)))
  {
    hide Valid, Word, Header, ReplyFrame;
    assert (hdr + pay)[..PREFIX_SIZE] == hdr;
    ReplyIsFrame(AnswerTo(hdr, outCmd, outCode, result));
  }

  /** What the responder promises for the requests. */
  predicate Matches(r: Response, requests: seq<seq<byte>>)
    requires AllFrames(requests)
  {
    && AllFit(requests, r.replies)
    && (|r.replies| == |requests| <==> AllDone(r.calls))
    && |r.calls| <= |Payloads(requests)|
    && (forall i :: 0 <= i < |r.calls| ==> r.calls[i].request == Payloads(requests)[i])
    && (AllDone(r.calls) ==> |r.calls| == |Payloads(requests)|)
  }

  lemma FirstAndRest(call: seq<Call>, reply: seq<byte>, rest: Response, f: seq<byte>, requests: seq<seq<byte>>)
    requires AllFrames(requests) && IsFrame(f) && Matches(rest, requests) && Fits(f, reply)
    requires if Word(f[..PREFIX_SIZE], CMD) == CMD_REQUEST
             then |call| == 1 && call[0].request == f[PREFIX_SIZE..] && call[0].result.Done?
             else call == []
    ensures Matches(Before([reply], call, rest), [f] + requests)
  {
    hide IsFrame, Fits, Word;
    var all, r := [f] + requests, Before([reply], call, rest);
    assert all[1..] == requests;
    assert forall i :: 0 <= i < |rest.calls| ==> r.calls[|call| + i] == rest.calls[i];
    if AllDone(r.calls) {
      assert AllDone(rest.calls);
    }
    if AllDone(rest.calls) {
      assert AllDone(r.calls);
    }
  }

  /**
   The reference responder against the requests in its input. Its replies fit the first
   requests one by one, there is one for each request exactly if the handler fails in none
   of its calls, and those calls are given the payloads of the requests in order.
   */
  lemma {:induction false} RepliesMatchRequests(h: Handler, n: nat, cmd: u32, code: u32, input: seq<byte>)
    ensures AllFrames(Requests(input))
    ensures Matches(Respond(h, n, cmd, code, input), Requests(input))
    decreases |input|
  {
    hide Valid, Word, ReplyFrame, AnswerTo, Fits, ErrorFrame;
    RequestsAreFrames(input);
    if HasRequest(input) {
      var size := RequestSize(input);
      var hdr, pay, x := input[..PREFIX_SIZE], input[PREFIX_SIZE..size], input[size..];
      var f := input[..size];
      assert f == hdr + pay && f[..PREFIX_SIZE] == hdr && f[PREFIX_SIZE..] == pay;
      assert input == hdr + pay + x;
      RespondRequest(h, n, cmd, code, hdr, pay, x);
      assert Requests(input) == [f] + Requests(x);
      RequestsAreFrames(x);
      var asks := Word(hdr, CMD) == CMD_REQUEST;
      var result := if asks then h(n, pay, code) else NotCalled;
      var r := Respond(h, n, cmd, code, input);
      if asks && !result.Done? {
        assert r.replies == [] && r.calls == [Call(pay, code, result)];
        assert !AllDone(r.calls) by { assert !r.calls[0].result.Done?; }
        assert Payloads(Requests(input)) == [pay] + Payloads(Requests(x));
      } else {
        var a := AnswerTo(hdr, cmd, code, result);
        var n' := if asks then n + 1 else n;
        AnswerFits(hdr, pay, cmd, code, result);
        RepliesMatchRequests(h, n', a.cmd, a.code, x);
        var call := if asks then [Call(pay, code, result)] else [];
        FirstAndRest(call, ReplyFrame(a), Respond(h, n', a.cmd, a.code, x), f, Requests(x));
        assert r.replies == [ReplyFrame(a)] + Respond(h, n', a.cmd, a.code, x).replies;
        assert r.calls == call + Respond(h, n', a.cmd, a.code, x).calls;
      }
    } else {
      assert Respond(h, n, cmd, code, input).replies == [] && Respond(h, n, cmd, code, input).calls == [];
    }
  }

  // ---------------------------------------------------------------- a session and its requests

  /**
   Every request gets its reply, whatever fails or times out. The replies of a session fit
   the first requests it has read whole, one by one; and once it is settled there is one for
   each of them if and only if it did not end late and the handler failed in no call.
   */
  lemma RequestsAnswered(h: Handler, events: seq<Event>)
    requires Runs(SESSION_START, events) && NoneBroken(events) && Obeys(h, Run(SESSION_START, events).calls)
    ensures var t := Run(SESSION_START, events);
            var requests := Requests(t.input);
            && AllFrames(requests) && AllFit(requests, t.replies)
            && (Settled(t) ==>
                  (|t.replies| == |requests|
                   <==> !EndsLate(SESSION_START, events) && AllDone(Respond(h, 0, 0, 0, t.input).calls)))
  {
    hide *;
    var t := Run(SESSION_START, events);
    RepliesInRequestOrder(h, events);
    RepliesMatchRequests(h, 0, 0, 0, t.input);
    PrefixFits(Requests(t.input), t.replies, Respond(h, 0, 0, 0, t.input));
  }

  lemma PrefixFits(requests: seq<seq<byte>>, replies: seq<seq<byte>>, r: Response)
    requires AllFrames(requests) && Matches(r, requests) && replies <= r.replies
    ensures AllFit(requests, replies) && |replies| <= |r.replies| <= |requests|
    ensures |r.replies| == |requests| <==> AllDone(r.calls)
    ensures |replies| == |r.replies| ==> replies == r.replies
  {
    hide Fits, IsFrame;
  }

  /**
   One reply per request on the wire. If no send fails, a settled session's output splits
   into replies that fit the first requests, one by one, and then at most one ERROR frame.
   There is a reply for every request read whole if and only if the session did not end late
   and the handler failed in no call; and they are the reference responder's, with its
   calls, if and only if the session did not end late.
   */
  lemma OneReplyPerRequest(h: Handler, events: seq<Event>)
    requires Runs(SESSION_START, events) && NoneUnsent(events) && NoneBroken(events)
    requires Obeys(h, Run(SESSION_START, events).calls) && Settled(Run(SESSION_START, events))
    ensures var t := Run(SESSION_START, events);
            var r, requests, frames := Respond(h, 0, 0, 0, t.input), Requests(t.input), SplitFrames(t.output);
            && frames == (t.replies + Finals(t.final), []) && IsFinal(t.final)
            && AllFrames(requests) && AllFit(requests, t.replies)
            && (|frames.0| == |requests| + |Finals(t.final)| <==> !EndsLate(SESSION_START, events) && AllDone(r.calls))
            && (frames.0 == r.replies + Finals(t.final) && t.calls == r.calls <==> !EndsLate(SESSION_START, events))
  {
    hide *;
    WellFramedOutput(events);
    RepliesInRequestOrder(h, events);
    RequestsAnswered(h, events);
    var t := Run(SESSION_START, events);
    SameFront(t.replies, Respond(h, 0, 0, 0, t.input).replies, Finals(t.final));
  }

  // ---------------------------------------------------------------- the two ways to go unanswered

  lemma Extend(events: seq<Event>, e: Event, s: Session)
    requires Runs(SESSION_START, events) && s == Run(SESSION_START, events) && Enabled(s, e)
    ensures Runs(SESSION_START, events + [e]) && Run(SESSION_START, events + [e]) == Step(s, e)
  {
    hide Runs, Run, Step, Enabled;
    RunOne(s, e);
    RunAppend(SESSION_START, events, [e]);
  }

  /** A request arrives whole, in one piece or two. */
  lemma Arrives(hdr: Hdr, pay: seq<byte>) returns (events: seq<Event>)
    requires Valid(hdr) && |pay| == Word(hdr, LEN)
    ensures Runs(SESSION_START, events) && AllClean(events)
    ensures Run(SESSION_START, events) == SESSION_START.(pc := ReadingPayload(hdr, pay), input := hdr + pay)
  {
    hide Valid, Word, Runs, Run;
    assert [] + hdr == hdr && [] + pay == pay && hdr + [] == hdr;
    RunOne(SESSION_START, Ready);
    events := [Ready];
    Extend(events, Chunk(hdr), SESSION_START.(pc := ReadingHeader([])));
    events := events + [Chunk(hdr)];
    Extend(events, Filled, SESSION_START.(pc := ReadingHeader(hdr), input := hdr));
    events := events + [Filled];
    if pay != [] {
      Extend(events, Chunk(pay), SESSION_START.(pc := ReadingPayload(hdr, []), input := hdr));
      events := events + [Chunk(pay)];
    }
  }

  lemma OneRequest(hdr: Hdr, pay: seq<byte>)
    requires Valid(hdr) && |pay| == Word(hdr, LEN)
    ensures Requests(hdr + pay) == [hdr + pay]
  {
    hide Valid, Word;
    var f := hdr + pay;
    assert f[..PREFIX_SIZE] == hdr;
    var none: seq<seq<byte>> := [];
    assert [f][1..] == none && Flat(none) == [];
    assert Flat([f]) == f + [] == f;
    assert AllFrames([f]);
    SplitFlat([f]);
  }

  lemma {:induction false} CleanIsNotLate(s: Session, events: seq<Event>)
    requires Runs(s, events) && AllClean(events)
    ensures !EndsLate(s, events)
    decreases |events|
  {
    hide Step, Enabled, Clean, AtEmptyPayload;
    if events != [] {
      CleanIsInTime(s, events[0]);
      CleanIsNotLate(Step(s, events[0]), events[1..]);
    }
  }

  /**
   The first way: the handler fails. Whatever the request, it is read whole without any
   timeout or failed call, and an ERROR frame is all it gets.
   */
  lemma FailedHandlerGivesNoReply(h: Handler, hdr: Hdr, pay: seq<byte>) returns (events: seq<Event>)
    requires Valid(hdr) && |pay| == Word(hdr, LEN) && Word(hdr, CMD) == CMD_REQUEST && !h(0, pay, 0).Done?
    ensures Runs(SESSION_START, events) && AllClean(events) && !EndsLate(SESSION_START, events)
    ensures var t := Run(SESSION_START, events);
            && Settled(t) && Obeys(h, t.calls) && Requests(t.input) == [hdr + pay]
            && t.replies == [] && t.output == ErrorFrame(ERR_EXEC)
  {
    hide Valid, Word, ErrorFrame, Runs, Run;
    var frame := ErrorFrame(ERR_EXEC);
    ErrorIsFrame(ERR_EXEC);
    events := Arrives(hdr, pay);
    var s := SESSION_START.(pc := ReadingPayload(hdr, pay), input := hdr + pay);
    Extend(events, Filled, s);
    events := events + [Filled];
    Extend(events, Ran(h(0, pay, 0)), s.(pc := Executing(hdr, pay)));
    events := events + [Ran(h(0, pay, 0))];
    var calls := [Call(pay, 0, h(0, pay, 0))];
    assert [] + calls == calls && [] + frame == frame;
    Extend(events, Sent(PREFIX_SIZE), s.(pc := Closing(frame), final := frame, calls := calls));
    events := events + [Sent(PREFIX_SIZE)];
    CleanIsNotLate(SESSION_START, events);
    OneRequest(hdr, pay);
  }

  /**
   The second way: the session ends late. Whatever the request, if it has no payload it can
   be read whole and its deadline expire, and an ERROR frame is all it gets.
   */
  lemma LateRequestIsNotAnswered(h: Handler, hdr: Hdr) returns (events: seq<Event>)
    requires Valid(hdr) && Word(hdr, LEN) == 0
    ensures Runs(SESSION_START, events) && NoneBroken(events) && NoneUnsent(events)
    ensures EndsLate(SESSION_START, events)
    ensures var t := Run(SESSION_START, events);
            && Settled(t) && Requests(t.input) == [hdr]
            && t.replies == [] && t.calls == [] && t.output == ErrorFrame(ERR_TIMEOUT)
  {
    hide Valid, Word, Header, ErrorFrame, Respond;
    assert [] + hdr == hdr;
    events := [Ready, Chunk(hdr), Filled, RxFail(ERR_TIMEOUT), Sent(PREFIX_SIZE)];
    var s1 := SESSION_START.(pc := ReadingHeader([]));
    var s2 := s1.(pc := ReadingHeader(hdr), input := hdr);
    var s3 := s2.(pc := ReadingPayload(hdr, []));
    var frame := ErrorFrame(ERR_TIMEOUT);
    ErrorIsFrame(ERR_TIMEOUT);
    assert [] + frame == frame;
    var s4 := s3.(pc := Closing(frame), final := frame);
    var s5 := s4.(pc := Gone, output := frame);
    FiveSteps(SESSION_START, events, s1, s2, s3, s4, s5);
    assert hdr + [] == hdr;
    OneRequest(hdr, []);
  }

  lemma FiveSteps(s: Session, events: seq<Event>, s1: Session, s2: Session, s3: Session, s4: Session, s5: Session)
    requires |events| == 5 && Enabled(s, events[0]) && s1 == Step(s, events[0])
    requires Enabled(s1, events[1]) && s2 == Step(s1, events[1])
    requires Enabled(s2, events[2]) && s3 == Step(s2, events[2])
    requires Enabled(s3, events[3]) && s4 == Step(s3, events[3])
    requires Enabled(s4, events[4]) && s5 == Step(s4, events[4])
    ensures Runs(s, events) && Run(s, events) == s5
    ensures events[3].RxFail? && AtEmptyPayload(s3) ==> EndsLate(s, events)
  {
    hide Step, Enabled, AtEmptyPayload;
    var e1 := events[1..];
    var e2 := e1[1..];
    var e3 := e2[1..];
    var e4 := e3[1..];
    assert e4[1..] == [];
    assert Runs(s4, e4) && Run(s4, e4) == s5;
    assert Runs(s3, e3) && Run(s3, e3) == s5;
    assert Runs(s2, e2) && Run(s2, e2) == s5;
    assert Runs(s1, e1) && Run(s1, e1) == s5;
    if events[3].RxFail? && AtEmptyPayload(s3) {
      assert EndsLate(s3, e3);
      assert EndsLate(s2, e2);
      assert EndsLate(s1, e1);
    }
  }
}
