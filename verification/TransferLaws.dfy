/** The receive loop's promises: what is in the buffer, when it gives up, and that it ends. */
module TransferLaws {
  import opened Bytes
  import opened Transfer

  /**
   `CONN_OK` without a failed `select` means the buffer is exactly the next bytes of the
   stream; every other end leaves a strict prefix of them over the old contents.
   */
  lemma BufferIsStreamPrefix(o: RxOutcome, buf0: seq<byte>, inbox0: seq<byte>, buf: seq<byte>, inbox: seq<byte>,
                             end: int, stamp: int, codes: Codes, rounds: seq<Round>)
    requires o == RxLoop(|buf0|, |inbox0|, end, stamp, codes, rounds) && Received(o, buf0, inbox0, buf, inbox)
    ensures |buf| == |buf0|
    ensures buf[..Sum(o.cuts)] + inbox == inbox0
    ensures RxState(o.end) == CONN_OK && o.end != RxSelectFailed <==> Sum(o.cuts) == |buf0|
    ensures RxState(o.end) == CONN_OK && o.end != RxSelectFailed ==> buf + inbox == inbox0
  {
    RxCutsBounded(|buf0|, |inbox0|, end, stamp, codes, rounds);
    var got := Sum(o.cuts);
    assert buf[..got] == inbox0[..got];
    if got == |buf0| {
      assert buf == inbox0[..got];
    }
  }

  // ---------------------------------------------------------------- the deadline

  /**
   The exception is real: whatever part of the buffer has been filled, if `select` fails
   while there is time left the loop stops there and reports `CONN_OK`.
   */
  lemma SelectFailureLooksOk(need: nat, part: nat, avail: nat, end: int, now: int, codes: Codes)
    returns (rounds: seq<Round>)
    requires part < need && part <= avail && codes.again != codes.wouldBlock && GetTimeval(end, now).0
    ensures var o := RxLoop(need, avail, end, now, codes, rounds);
            o.end == RxSelectFailed && RxState(o.end) == CONN_OK && Sum(o.cuts) == part < need
  {
    hide GetTimeval;
    var blocked := [Round(Fails(codes.wouldBlock), now, -1)];
    if part == 0 {
      rounds := blocked;
    } else {
      rounds := [Round(Got(part), now, 0)] + blocked;
      assert rounds[1..] == blocked;
      assert RxLoop(need - part, avail - part, end, now, codes, blocked).end == RxSelectFailed;
    }
  }

  ghost predicate WaitsEndBy(waits: seq<Wait>, end: int) {
    forall i :: 0 <= i < |waits| ==> waits[i].now + 1_000 * waits[i].micros <= end
  }

  lemma {:induction false} LoopKeepsDeadline(need: nat, avail: nat, end: int, stamp: int, codes: Codes, rounds: seq<Round>)
    ensures var o := RxLoop(need, avail, end, stamp, codes, rounds);
            && WaitsEndBy(o.waits, end)
            && (o.end == RxEnded(ERR_TIMEOUT) ==> end < o.stamp + 1_001_000)
    decreases |rounds|
  {
    hide RxLoop, Legal;
    RxStop(avail, end, stamp, codes, rounds, need);
    if need > 0 && rounds != [] {
      RxTurn(need, avail, end, stamp, codes, rounds);
      var answer := Legal(rounds[0].recv, need, avail, codes);
      if answer.Got? {
        LoopKeepsDeadline(need - answer.n, avail - answer.n, end, stamp, codes, rounds[1..]);
      } else {
        LoopKeepsDeadline(need, avail, end, stamp, codes, rounds[1..]);
        LoopKeepsDeadline(need, avail, end, rounds[0].now, codes, rounds[1..]);
      }
    }
  }

  /**
   Two-sided deadline. When the first clock reading `cur` is before the expiration and the
   second one, `start`, is not earlier: no wait goes past the loop's end time, which
   exceeds the expiration by no more than the gap between the readings, and a timeout is
   only reported less than 2001 microseconds before the expiration.
   */
  lemma TwoSidedDeadline(need: nat, avail: nat, expiration: int, cur: int, start: int, codes: Codes, rounds: seq<Round>)
    requires cur < expiration && cur <= start
    ensures var end := EndTime(expiration, cur, start);
            var o := RxLoop(need, avail, end, start, codes, rounds);
            && end - expiration <= start - cur
            && WaitsEndBy(o.waits, end)
            && WaitsEndBy(o.waits, expiration + (start - cur))
            && (o.end == RxEnded(ERR_TIMEOUT) ==> o.stamp > expiration - 2_001_000)
  {
    hide RxLoop;
    LoopKeepsDeadline(need, avail, EndTime(expiration, cur, start), start, codes, rounds);
  }

  // ---------------------------------------------------------------- termination

  /**
   No answer is the first of the two error numbers, and the clock moves on between
   answers that would block.
   */
  predicate Progresses(need: nat, avail: nat, codes: Codes, stamp: int, rounds: seq<Round>)
    decreases |rounds|
  {
    need == 0 || rounds == [] ||
    match Legal(rounds[0].recv, need, avail, codes)
    case Got(n) => Progresses(need - n, avail - n, codes, stamp, rounds[1..])
    case Eof => true
    case Fails(errno) =>
      && errno != codes.again
      && (errno == codes.wouldBlock ==>
            rounds[0].now > stamp && Progresses(need, avail, codes, rounds[0].now, rounds[1..]))
  }

  function TimeLeft(end: int, stamp: int): nat {
    if end > stamp then end - stamp else 0
  }

  /** The loop ends within one turn per byte needed and per clock tick left, and one more. */
  lemma {:induction false} LoopTerminates(need: nat, avail: nat, end: int, stamp: int, codes: Codes, rounds: seq<Round>)
    requires Progresses(need, avail, codes, stamp, rounds)
    requires |rounds| > need + TimeLeft(end, stamp)
    ensures var o := RxLoop(need, avail, end, stamp, codes, rounds);
            o.end != RxUnfinished && o.used <= need + TimeLeft(end, stamp) + 1
    decreases |rounds|
  {
    hide RxLoop, Legal;
    RxStop(avail, end, stamp, codes, rounds, need);
    if need > 0 {
      RxTurn(need, avail, end, stamp, codes, rounds);
      match Legal(rounds[0].recv, need, avail, codes)
      case Got(n) =>
        LoopTerminates(need - n, avail - n, end, stamp, codes, rounds[1..]);
      case Eof =>
      case Fails(errno) =>
        if errno == codes.wouldBlock && GetTimeval(end, rounds[0].now).0 {
          LoopTerminates(need, avail, end, rounds[0].now, codes, rounds[1..]);
        }
    }
  }

  /** A peer that sends nothing while the clock moves on. */
  ghost predicate SilentPeer(codes: Codes, stamp: int, rounds: seq<Round>)
    decreases |rounds|
  {
    rounds != [] ==>
      && rounds[0].recv == Fails(codes.wouldBlock) && rounds[0].select >= 0 && rounds[0].now > stamp
      && SilentPeer(codes, rounds[0].now, rounds[1..])
  }

  lemma {:induction false} SilenceProgresses(need: nat, avail: nat, codes: Codes, stamp: int, rounds: seq<Round>)
    requires SilentPeer(codes, stamp, rounds) && codes.again != codes.wouldBlock
    ensures Progresses(need, avail, codes, stamp, rounds)
    decreases |rounds|
  {
    if need > 0 && rounds != [] {
      SilenceProgresses(need, avail, codes, rounds[0].now, rounds[1..]);
    }
  }

  lemma {:induction false} SilenceOnlyTimesOut(need: nat, avail: nat, end: int, stamp: int, codes: Codes, rounds: seq<Round>)
    requires need > 0 && SilentPeer(codes, stamp, rounds)
    ensures RxLoop(need, avail, end, stamp, codes, rounds).end in {RxUnfinished, RxEnded(ERR_TIMEOUT)}
    decreases |rounds|
  {
    hide RxLoop;
    RxStop(avail, end, stamp, codes, rounds, need);
    if rounds != [] {
      RxTurn(need, avail, end, stamp, codes, rounds);
      SilenceOnlyTimesOut(need, avail, end, rounds[0].now, codes, rounds[1..]);
      if codes.again == codes.wouldBlock {
        SilentFrom(codes, rounds[0].now, stamp, rounds[1..]);
        SilenceOnlyTimesOut(need, avail, end, stamp, codes, rounds[1..]);
      }
    }
  }

  lemma SilentFrom(codes: Codes, stamp: int, earlier: int, rounds: seq<Round>)
    requires SilentPeer(codes, stamp, rounds) && earlier <= stamp
    ensures SilentPeer(codes, earlier, rounds)
  {
  }

  /** With one number for both errors the clock is never consulted, whatever the peer does. */
  lemma {:induction false} EqualCodesNeverTimeOut(need: nat, avail: nat, end: int, stamp: int, codes: Codes, rounds: seq<Round>)
    requires codes.again == codes.wouldBlock
    ensures RxLoop(need, avail, end, stamp, codes, rounds).end != RxEnded(ERR_TIMEOUT)
    decreases |rounds|
  {
    hide RxLoop;
    RxStop(avail, end, stamp, codes, rounds, need);
    if need > 0 && rounds != [] {
      RxTurn(need, avail, end, stamp, codes, rounds);
      var answer := Legal(rounds[0].recv, need, avail, codes);
      if answer.Got? {
        EqualCodesNeverTimeOut(need - answer.n, avail - answer.n, end, stamp, codes, rounds[1..]);
      } else {
        EqualCodesNeverTimeOut(need, avail, end, stamp, codes, rounds[1..]);
      }
    }
  }

  /**
   Exactly when the deadline is enforced: against a silent peer watched for longer than the
   time left, the loop times out if and only if `EAGAIN` and `EWOULDBLOCK` differ. Where
   they are equal it is still spinning, however long the silence.
   */
  lemma DeadlineEnforcedIffCodesDiffer(need: nat, avail: nat, end: int, stamp: int, codes: Codes, rounds: seq<Round>)
    requires need > 0 && SilentPeer(codes, stamp, rounds) && |rounds| > need + TimeLeft(end, stamp)
    ensures RxLoop(need, avail, end, stamp, codes, rounds).end
         == if codes.again != codes.wouldBlock then RxEnded(ERR_TIMEOUT) else RxUnfinished
  {
    hide RxLoop;
    SilenceOnlyTimesOut(need, avail, end, stamp, codes, rounds);
    if codes.again != codes.wouldBlock {
      SilenceProgresses(need, avail, codes, stamp, rounds);
      LoopTerminates(need, avail, end, stamp, codes, rounds);
    } else {
      EqualCodesNeverTimeOut(need, avail, end, stamp, codes, rounds);
    }
  }

  /** The silence assumed above exists, at every length: with equal codes the loop runs without end. */
  lemma EqualCodesSpinForever(need: nat, end: int, stamp: int, codes: Codes, turns: nat)
    returns (rounds: seq<Round>)
    requires need > 0 && codes.again == codes.wouldBlock
    ensures |rounds| == turns && SilentPeer(codes, stamp, rounds)
    ensures RxLoop(need, 0, end, stamp, codes, rounds).end == RxUnfinished
  {
    rounds := SilentRounds(codes, stamp, turns);
    SilenceOnlyTimesOut(need, 0, end, stamp, codes, rounds);
    EqualCodesNeverTimeOut(need, 0, end, stamp, codes, rounds);
  }

  lemma {:induction false} SilentRounds(codes: Codes, stamp: int, turns: nat) returns (rounds: seq<Round>)
    ensures |rounds| == turns && SilentPeer(codes, stamp, rounds)
    decreases turns
  {
    if turns == 0 {
      rounds := [];
    } else {
      var rest := SilentRounds(codes, stamp + 1, turns - 1);
      rounds := [Round(Fails(codes.wouldBlock), stamp + 1, 0)] + rest;
      assert rounds[1..] == rest;
    }
  }

  // ---------------------------------------------------------------- why the loop ends

  /** The answer a would-block round amounts to: nothing has arrived. */
  predicate Blocked(answer: RecvAnswer, codes: Codes) {
    answer.Got? || (answer.Fails? && answer.errno == codes.wouldBlock)
  }

  /**
   When the loop ends short of a full buffer and of its script, the last answer says why: the
   end of the stream is CLOSED, an error number that is neither of the two is RX, and a
   blocked round is TIMEOUT if at most a millisecond is left and a failed `select` otherwise.
   */
  lemma {:induction false} EndNamesLastAnswer(need: nat, avail: nat, end: int, stamp: int, codes: Codes, rounds: seq<Round>)
    requires var o := RxLoop(need, avail, end, stamp, codes, rounds); o.end != RxFull && o.end != RxUnfinished
    ensures var o := RxLoop(need, avail, end, stamp, codes, rounds);
            && 0 < o.used <= |rounds|
            && var last := rounds[o.used - 1];
               && (o.end == RxEnded(ERR_CLOSED) <==> last.recv.Eof?)
               && (o.end == RxEnded(ERR_RX) <==> last.recv.Fails? && last.recv.errno !in {codes.again, codes.wouldBlock})
               && (o.end == RxEnded(ERR_TIMEOUT) <==> Blocked(last.recv, codes) && end < last.now + 1_001_000)
               && (o.end == RxEnded(ERR_TIMEOUT) ==> o.stamp == last.now)
               && (o.end == RxSelectFailed <==> Blocked(last.recv, codes) && end >= last.now + 1_001_000)
               && (o.end == RxSelectFailed ==> last.select < 0)
    decreases |rounds|
  {
    hide GetTimeval;
    var now, rest := rounds[0].now, rounds[1..];
    match Legal(rounds[0].recv, need, avail, codes)
    case Got(n) =>
      EndNamesLastAnswer(need - n, avail - n, end, stamp, codes, rest);
    case Eof =>
    case Fails(errno) =>
      if errno == codes.again {
        EndNamesLastAnswer(need, avail, end, stamp, codes, rest);
      } else if errno == codes.wouldBlock && GetTimeval(end, now).0 && rounds[0].select >= 0 {
        EndNamesLastAnswer(need, avail, end, now, codes, rest);
      }
  }

  /** A receive with an absolute deadline is given what is left of it, in whole milliseconds, rounded down. */
  lemma WholeMillisecondsLeft(expiration: int, cur: int, start: int)
    ensures var delay := EndTime(expiration, cur, start) - start;
            delay % 1_000_000 == 0 && 0 <= expiration - cur - delay < 1_000_000
  {
  }

  /** The clock never goes back. */
  ghost predicate Monotone(clock: nat -> int) {
    forall i, j :: 0 <= i <= j ==> clock(i) <= clock(j)
  }

  /** Between two readings that follow one another at most `gap` passes. */
  ghost predicate Steady(clock: nat -> int, gap: int) {
    forall i, j :: 0 <= i && j == i + 1 ==> clock(j) - clock(i) <= gap
  }

  /**
   Receives with one absolute deadline and what came of the last: no wait goes past the
   deadline by more than the gap between two clock readings, and a timeout is not reported
   2001 microseconds or more before the deadline. They may be on two connections.
   */
  ghost predicate InTime(timedOut: bool, stamp: int, waits: seq<Wait>, deadline: int,
                         clock1: nat -> int, clock2: nat -> int) {
    Monotone(clock1) && Monotone(clock2) ==>
      && (timedOut ==> stamp > deadline - 2_001_000)
      && forall gap :: Steady(clock1, gap) && Steady(clock2, gap) ==> WaitsEndBy(waits, deadline + gap)
  }

  /** Every such receive keeps its deadline on both sides. */
  lemma UntilInTime(o: RxOutcome, need: nat, avail: nat, expiration: int, clock: nat -> int, count: nat,
                    codes: Codes, rounds: seq<Round>)
    requires Until(o, need, avail, expiration, clock, count, codes, rounds)
    ensures InTime(o.end == RxEnded(ERR_TIMEOUT), o.stamp, o.waits, expiration, clock, clock)
  {
    hide RxLoop, EndTime;
    var cur, start := clock(count), clock(count + 1);
    if Monotone(clock) && cur < expiration && need > 0 {
      TwoSidedDeadline(need, avail, expiration, cur, start, codes, rounds);
      forall gap | Steady(clock, gap)
        ensures WaitsEndBy(o.waits, expiration + gap)
      {
        assert start - cur <= gap;
      }
    }
  }

  /** One after the other. */
  lemma ThenInTime(t1: bool, s1: int, w1: seq<Wait>, t2: bool, s2: int, w2: seq<Wait>, deadline: int,
                   clock1: nat -> int, clock2: nat -> int)
    requires InTime(t1, s1, w1, deadline, clock1, clock1) && InTime(t2, s2, w2, deadline, clock2, clock2)
    ensures InTime(t2, s2, w1 + w2, deadline, clock1, clock2)
  {
    hide Monotone, Steady;
  }

  lemma OneInTime(timedOut: bool, timedOut': bool, stamp: int, waits: seq<Wait>, deadline: int,
                  clock1: nat -> int, clock2: nat -> int)
    requires InTime(timedOut, stamp, waits, deadline, clock1, clock1) && (timedOut' ==> timedOut)
    ensures InTime(timedOut', stamp, waits, deadline, clock1, clock2)
  {
    hide Monotone, Steady;
  }

  lemma NoneInTime(stamp: int, deadline: int, clock: nat -> int)
    ensures InTime(false, stamp, [], deadline, clock, clock)
  {
    hide Monotone, Steady;
  }
}
