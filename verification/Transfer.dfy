/**
 Moving one frame through a stream socket: the send loop, the receive loop with its
 deadline, and the answers of the operating system they depend on.
 */
module Transfer {
  import opened Bytes
  import opened Buffers

  datatype ConnState =
    | CONN_OK | ERR_GENERAL | ERR_CLOSED | ERR_TIMEOUT | ERR_OPEN | ERR_BIND | ERR_LISTEN
    | ERR_SELECT | ERR_ACCEPT | ERR_CONNECT | ERR_RX | ERR_TX | ERR_EXEC | ERR_SYNC

  function StateCode(s: ConnState): u32 {
    match s
    case CONN_OK => 100
    case ERR_GENERAL => 400
    case ERR_CLOSED => 401
    case ERR_TIMEOUT => 402
    case ERR_OPEN => 403
    case ERR_BIND => 404
    case ERR_LISTEN => 405
    case ERR_SELECT => 406
    case ERR_ACCEPT => 407
    case ERR_CONNECT => 408
    case ERR_RX => 409
    case ERR_TX => 410
    case ERR_EXEC => 411
    case ERR_SYNC => 500
  }

  // ---------------------------------------------------------------- what a thread observes

  /** Payloads that the `int` sizes of `send` and `recv` can express. */
  type Payload = p: seq<byte> | |p| < 0x8000_0000

  datatype HandlerResult = NotCalled | Threw | Done(pay: Payload, code: u32)

  /** The steps of a session or of a client call, as its socket and its handler see them. */
  datatype Event =
    | Chunk(bytes: seq<byte>)      // recv delivered these bytes
    | Filled                       // the buffer being read is complete
    | Broke(fill: seq<byte>)       // select failed: the stage goes on with these stale bytes in its buffer
    | RxFail(why: ConnState)       // reading ended in this state
    | Sent(n: nat)                 // send accepted this many bytes
    | TxFail(why: ConnState)       // sending ended in this state
    | Ready | Quiet | WaitFail | Stopped   // frame_wait, and the stop flag
    | Ran(result: HandlerResult)   // a command was executed
    | Begin(frame: Payload, ms: int) | BeginSync(rand: u32, ms: int)   // a client call starts
    | Connected | ConnectFail(why: ConnState)                          // the client's reconnection

  // ---------------------------------------------------------------- time

  const NS_PER_US: int := 1_000
  const NS_PER_MS: int := 1_000_000

  datatype Timeval = Timeval(sec: int, usec: int)

  function Micros(tv: Timeval): int {
    tv.sec * 1_000_000 + tv.usec
  }

  /** `get_timeval`: the wait until `end`, in whole microseconds, if it is longer than a millisecond. */
  function GetTimeval(end: int, now: int): (res: (bool, Timeval))
    ensures res.0 ==> now + 1_000 * Micros(res.1) <= end < now + 1_000 * Micros(res.1) + 1_000
    ensures res.0 ==> Micros(res.1) > 1000 && 0 <= res.1.usec < 1_000_000
    ensures !res.0 <==> end < now + 1_001_000
  {
    if now < end then
      var us := (end - now) / NS_PER_US;
      if us > 1000 then (true, Timeval(us / 1_000_000, us % 1_000_000)) else (false, Timeval(0, 0))
    else (false, Timeval(0, 0))
  }

  // ---------------------------------------------------------------- the receive loop, as a function of the answers

  datatype RecvAnswer = Got(n: nat) | Eof | Fails(errno: int)

  /** The answers to one turn of the loop: `recv`, and if it would block the clock and `select`. */
  datatype Round = Round(recv: RecvAnswer, now: int, select: int)

  /** The two error numbers the loop compares with. */
  datatype Codes = Codes(again: int, wouldBlock: int)

  datatype RxEnd = RxFull | RxEnded(why: ConnState) | RxSelectFailed | RxUnfinished

  /** A wait the loop asked of `select`: the clock reading before it and its length. */
  datatype Wait = Wait(now: int, micros: int)

  /** `cuts` are the sizes `recv` returned, `used` the answers consumed, `stamp` the last clock reading. */
  datatype RxOutcome = RxOutcome(cuts: seq<nat>, used: nat, waits: seq<Wait>, stamp: int, end: RxEnd)

  function Sum(cuts: seq<nat>): nat {
    if cuts == [] then 0 else cuts[0] + Sum(cuts[1..])
  }

  function Least(a: nat, b: nat): nat {
    if a <= b then a else b
  }

  /** `recv` returns at least one byte, and no more than was asked for or has arrived. */
  function Legal(answer: RecvAnswer, part: nat, avail: nat, codes: Codes): RecvAnswer
    requires part > 0
  {
    if !answer.Got? then answer
    else if avail == 0 then Fails(codes.wouldBlock)
    else Got(if answer.n == 0 then 1 else Least(answer.n, Least(part, avail)))
  }

  function After(cut: seq<nat>, waits: seq<Wait>, o: RxOutcome): RxOutcome {
    o.(cuts := cut + o.cuts, used := o.used + 1, waits := waits + o.waits)
  }

  /** The loop of `frame_rx` until `end`, with `need` bytes to fill and `avail` bytes on their way. */
  function RxLoop(need: nat, avail: nat, end: int, stamp: int, codes: Codes, rounds: seq<Round>): (o: RxOutcome)
    decreases |rounds|
  {
    if need == 0 then RxOutcome([], 0, [], stamp, RxFull)
    else if rounds == [] then RxOutcome([], 0, [], stamp, RxUnfinished)
    else
      var now := rounds[0].now;
      match Legal(rounds[0].recv, need, avail, codes)
      case Got(n) =>
        After([n], [], RxLoop(need - n, avail - n, end, stamp, codes, rounds[1..]))
      case Eof =>
        RxOutcome([], 1, [], stamp, RxEnded(ERR_CLOSED))
      case Fails(errno) =>
        if errno == codes.again then After([], [], RxLoop(need, avail, end, stamp, codes, rounds[1..]))
        else if errno != codes.wouldBlock then RxOutcome([], 1, [], stamp, RxEnded(ERR_RX))
        else if !GetTimeval(end, now).0 then RxOutcome([], 1, [], now, RxEnded(ERR_TIMEOUT))
        else
          var wait := [Wait(now, Micros(GetTimeval(end, now).1))];
          if rounds[0].select < 0 then RxOutcome([], 1, wait, now, RxSelectFailed)
          else After([], wait, RxLoop(need, avail, end, now, codes, rounds[1..]))
  }

  /** One turn of the loop. */
  lemma RxTurn(need: nat, avail: nat, end: int, stamp: int, codes: Codes, rounds: seq<Round>)
    requires need > 0 && rounds != []
    ensures var o := RxLoop(need, avail, end, stamp, codes, rounds);
            var now, rest := rounds[0].now, rounds[1..];
            match Legal(rounds[0].recv, need, avail, codes)
            case Got(n) =>
              && 1 <= n <= need && n <= avail
              && var o' := RxLoop(need - n, avail - n, end, stamp, codes, rest);
                 && o.cuts == [n] + o'.cuts && o.used == o'.used + 1 && o.waits == o'.waits
                 && o.stamp == o'.stamp && o.end == o'.end
            case Eof => o == RxOutcome([], 1, [], stamp, RxEnded(ERR_CLOSED))
            case Fails(errno) =>
              if errno == codes.again then
                o == RxLoop(need, avail, end, stamp, codes, rest).(used := o.used) && o.used > 0
                && o.used - 1 == RxLoop(need, avail, end, stamp, codes, rest).used
              else if errno != codes.wouldBlock then o == RxOutcome([], 1, [], stamp, RxEnded(ERR_RX))
              else if !GetTimeval(end, now).0 then o == RxOutcome([], 1, [], now, RxEnded(ERR_TIMEOUT))
              else
                var wait := Wait(now, Micros(GetTimeval(end, now).1));
                if rounds[0].select < 0 then o == RxOutcome([], 1, [wait], now, RxSelectFailed)
                else
                  var o' := RxLoop(need, avail, end, now, codes, rest);
                  && o.cuts == o'.cuts && o.used == o'.used + 1 && o.waits == [wait] + o'.waits
                  && o.stamp == o'.stamp && o.end == o'.end
  {
  }

  /** What one turn means for the bytes read and for the way the loop ends. */
  lemma RxTurnEnds(need: nat, avail: nat, end: int, stamp: int, codes: Codes, rounds: seq<Round>)
    requires need > 0 && rounds != []
    ensures var o := RxLoop(need, avail, end, stamp, codes, rounds);
            var now, rest := rounds[0].now, rounds[1..];
            match Legal(rounds[0].recv, need, avail, codes)
            case Got(n) =>
              && 1 <= n <= need && n <= avail
              && o.cuts == [n] + RxLoop(need - n, avail - n, end, stamp, codes, rest).cuts
              && o.end == RxLoop(need - n, avail - n, end, stamp, codes, rest).end
            case Eof => o.cuts == [] && o.end == RxEnded(ERR_CLOSED)
            case Fails(errno) =>
              if errno == codes.again then
                && o.cuts == RxLoop(need, avail, end, stamp, codes, rest).cuts
                && o.end == RxLoop(need, avail, end, stamp, codes, rest).end
              else if errno != codes.wouldBlock then o.cuts == [] && o.end == RxEnded(ERR_RX)
              else if !GetTimeval(end, now).0 then o.cuts == [] && o.end == RxEnded(ERR_TIMEOUT)
              else if rounds[0].select < 0 then o.cuts == [] && o.end == RxSelectFailed
              else
                && o.cuts == RxLoop(need, avail, end, now, codes, rest).cuts
                && o.end == RxLoop(need, avail, end, now, codes, rest).end
  {
    hide RxLoop, GetTimeval, Legal;
    RxTurn(need, avail, end, stamp, codes, rounds);
  }

  lemma RxStop(avail: nat, end: int, stamp: int, codes: Codes, rounds: seq<Round>, need: nat)
    ensures RxLoop(0, avail, end, stamp, codes, rounds) == RxOutcome([], 0, [], stamp, RxFull)
    ensures need > 0 ==> RxLoop(need, avail, end, stamp, codes, []) == RxOutcome([], 0, [], stamp, RxUnfinished)
  {
  }

  /** The state `frame_rx` leaves; the answers past the end of the script are fatal errors. */
  function RxState(end: RxEnd): ConnState {
    match end
    case RxFull => CONN_OK
    case RxEnded(why) => why
    case RxSelectFailed => CONN_OK
    case RxUnfinished => ERR_RX
  }

  /** What the reader of the buffer observes at the end of the loop. */
  function RxEvent(end: RxEnd, rest: seq<byte>): Event {
    match end
    case RxFull => Filled
    case RxSelectFailed => Broke(rest)
    case _ => RxFail(RxState(end))
  }

  function ChunkEvents(bytes: seq<byte>, cuts: seq<nat>): (events: seq<Event>)
    requires Sum(cuts) == |bytes|
    ensures forall i :: 0 <= i < |events| ==> events[i].Chunk?
  {
    if cuts == [] then [] else [Chunk(bytes[..cuts[0]])] + ChunkEvents(bytes[cuts[0]..], cuts[1..])
  }

  function SentEvents(cuts: seq<nat>): (events: seq<Event>)
    ensures forall i :: 0 <= i < |events| ==> events[i].Sent?
  {
    if cuts == [] then [] else [Sent(cuts[0])] + SentEvents(cuts[1..])
  }

  /** The bytes a socket has delivered. */
  function ChunkBytes(events: seq<Event>): seq<byte> {
    if events == [] then [] else (if events[0].Chunk? then events[0].bytes else []) + ChunkBytes(events[1..])
  }

  lemma NoCuts(cuts: seq<nat>)
    requires Sum(cuts) == 0 && forall i :: 0 <= i < |cuts| ==> cuts[i] >= 1
    ensures cuts == []
  {
  }

  lemma {:induction false} SumAppend(cuts: seq<nat>, n: nat)
    ensures Sum(cuts + [n]) == Sum(cuts) + n
  {
    if cuts == [] {
    } else {
      assert (cuts + [n])[1..] == cuts[1..] + [n];
      SumAppend(cuts[1..], n);
    }
  }

  lemma {:induction false} ChunkEventsAppend(bytes: seq<byte>, cuts: seq<nat>, more: seq<byte>)
    requires Sum(cuts) == |bytes|
    ensures Sum(cuts + [|more|]) == |bytes + more|
    ensures ChunkEvents(bytes + more, cuts + [|more|]) == ChunkEvents(bytes, cuts) + [Chunk(more)]
  {
    SumAppend(cuts, |more|);
    if cuts == [] {
      assert bytes + more == more && more[|more|..] == [] && more[..|more|] == more;
    } else {
      assert (cuts + [|more|])[1..] == cuts[1..] + [|more|];
      assert (bytes + more)[cuts[0]..] == bytes[cuts[0]..] + more;
      assert (bytes + more)[..cuts[0]] == bytes[..cuts[0]];
      ChunkEventsAppend(bytes[cuts[0]..], cuts[1..], more);
    }
  }

  lemma {:induction false} SentEventsAppend(cuts: seq<nat>, n: nat)
    ensures SentEvents(cuts + [n]) == SentEvents(cuts) + [Sent(n)]
  {
    if cuts == [] {
    } else {
      assert (cuts + [n])[1..] == cuts[1..] + [n];
      SentEventsAppend(cuts[1..], n);
    }
  }

  lemma {:induction false} RxCutsBounded(need: nat, avail: nat, end: int, stamp: int, codes: Codes, rounds: seq<Round>)
    ensures var o := RxLoop(need, avail, end, stamp, codes, rounds);
            && Sum(o.cuts) <= need && Sum(o.cuts) <= avail && o.used <= |rounds|
            && (o.end == RxFull <==> Sum(o.cuts) == need)
            && (forall i :: 0 <= i < |o.cuts| ==> o.cuts[i] >= 1)
            && (o.end.RxEnded? ==> o.end.why in {ERR_CLOSED, ERR_RX, ERR_TIMEOUT})
    ensures EndsProperly(RxLoop(need, avail, end, stamp, codes, rounds), need)
    decreases |rounds|
  {
    hide RxLoop, GetTimeval, Legal;
    RxStop(avail, end, stamp, codes, rounds, need);
    if need > 0 && rounds != [] {
      RxTurn(need, avail, end, stamp, codes, rounds);
      var answer := Legal(rounds[0].recv, need, avail, codes);
      if answer.Got? {
        RxCutsBounded(need - answer.n, avail - answer.n, end, stamp, codes, rounds[1..]);
      } else {
        RxCutsBounded(need, avail, end, stamp, codes, rounds[1..]);
        RxCutsBounded(need, avail, end, rounds[0].now, codes, rounds[1..]);
      }
    }
  }

  // ---------------------------------------------------------------- one socket

  /** One stream socket as its owner sees it, with the operating system's answers still to come. */
  class Link {
    const codes: Codes
    /** Answers of `send` and of the clock, in call order. */
    const sendAnswers: nat -> int
    const clock: nat -> int
    /** A non-zero value makes `frame_tx` send byte by byte. */
    const txDelay: nat

    var open: bool
    /** Set once a send has failed: the connection accepts no later bytes. */
    var broken: bool
    var sendCount: nat
    var clockCount: nat
    var rounds: seq<Round>
    /** The peer's bytes not read yet, and the bytes accepted for the peer. */
    var inbox: seq<byte>
    var outbox: seq<byte>
    ghost var trace: seq<Event>

    constructor (codes: Codes, sendAnswers: nat -> int, clock: nat -> int, txDelay: nat,
                 open: bool, rounds: seq<Round>, inbox: seq<byte>)
      ensures this.codes == codes && this.open == open && this.rounds == rounds && this.inbox == inbox
      ensures !broken && outbox == [] && trace == [] && clockCount == 0 && this.clock == clock
    {
      this.codes, this.sendAnswers, this.clock, this.txDelay := codes, sendAnswers, clock, txDelay;
      this.open, this.rounds, this.inbox := open, rounds, inbox;
      broken, sendCount, clockCount, outbox, trace := false, 0, 0, [], [];
    }

    method Now() returns (t: int)
      modifies this`clockCount
      ensures t == clock(old(clockCount)) && clockCount == old(clockCount) + 1
    {
      t := clock(clockCount);
      clockCount := clockCount + 1;
    }

    /** `::send`: takes between one byte and everything, or fails for good. */
    method Send(part: seq<byte>) returns (res: int)
      requires part != []
      modifies this`sendCount, this`outbox, this`broken
      ensures sendCount == old(sendCount) + 1
      ensures res == if !open || old(broken) then -1
                     else if sendAnswers(old(sendCount)) <= |part| then sendAnswers(old(sendCount)) else |part|
      ensures res > 0 ==> outbox == old(outbox) + part[..res] && !broken
      ensures res <= 0 ==> outbox == old(outbox) && broken
    {
      var answer := sendAnswers(sendCount);
      sendCount := sendCount + 1;
      if !open || broken {
        res, broken := -1, true;
      } else if answer > 0 {
        res := if answer <= |part| then answer else |part|;
        outbox := outbox + part[..res];
      } else {
        res, broken := answer, true;
      }
    }

    /** `::recv` into the buffer from position `at`; a closed handle or a spent script answers nothing. */
    method Recv(buf: Storage, at: nat) returns (answered: bool, answer: RecvAnswer, now: int, select: int)
      requires at < |buf.data|
      modifies buf, this`rounds, this`inbox, this`trace
      ensures answered <==> open && old(rounds) != []
      ensures answered ==> && rounds == old(rounds)[1..]
                           && now == old(rounds)[0].now && select == old(rounds)[0].select
                           && answer == Legal(old(rounds)[0].recv, |old(buf.data)| - at, |old(inbox)|, codes)
      ensures answered && answer.Got? ==>
                && 1 <= answer.n <= |old(buf.data)| - at && answer.n <= |old(inbox)|
                && buf.data == Patched(old(buf.data), at, old(inbox)[..answer.n])
                && inbox == old(inbox)[answer.n..]
                && trace == old(trace) + [Chunk(old(inbox)[..answer.n])]
      ensures !(answered && answer.Got?) ==> buf.data == old(buf.data) && inbox == old(inbox) && trace == old(trace)
      ensures !answered ==> rounds == old(rounds)
      ensures |buf.data| == |old(buf.data)|
    {
      answered, answer, now, select := false, Eof, 0, 0;
      if open && rounds != [] {
        answered, now, select := true, rounds[0].now, rounds[0].select;
        answer := Legal(rounds[0].recv, |buf.data| - at, |inbox|, codes);
        rounds := rounds[1..];
        if answer.Got? {
          var chunk := inbox[..answer.n];
          buf.data := Patched(buf.data, at, chunk);
          inbox := inbox[answer.n..];
          Log([Chunk(chunk)]);
        }
      }
    }

    ghost method Log(events: seq<Event>)
      modifies this`trace
      ensures trace == old(trace) + events
    {
      trace := trace + events;
    }
  }

  lemma PartSent(out: seq<byte>, frame: seq<byte>, at: nat, part: nat, n: nat)
    requires n <= part && at + part <= |frame|
    ensures out + frame[..at] + frame[at..at + part][..n] == out + frame[..at + n]
  {
    assert frame[..at] + frame[at..at + part][..n] == frame[..at + n];
    assert out + frame[..at] + frame[at..at + part][..n] == out + (frame[..at] + frame[at..at + part][..n]);
  }

  lemma NothingSent()
    ensures Sum([]) == 0 && SentEvents([]) == []
  {
  }

  /**
   Sends the whole frame, or a strict prefix of it and then fails: for good after a negative
   answer, as closed after a zero. With a test delay it sends byte by byte.
   */
  method FrameTx(state: ConnState, link: Link, frame: seq<byte>) returns (state': ConnState, ghost cuts: seq<nat>)
    modifies link`sendCount, link`outbox, link`broken, link`trace
    ensures state != CONN_OK ==> state' == state && cuts == [] && link.broken == old(link.broken)
    ensures state == CONN_OK ==> state' in {CONN_OK, ERR_TX, ERR_CLOSED}
    ensures forall i :: 0 <= i < |cuts| ==> cuts[i] >= 1
    ensures Sum(cuts) <= |frame| && link.outbox == old(link.outbox) + frame[..Sum(cuts)]
    ensures state == CONN_OK ==> (state' == CONN_OK <==> Sum(cuts) == |frame|)
    ensures state == CONN_OK && state' != CONN_OK ==> link.broken
    ensures state' == CONN_OK && frame != [] ==> !old(link.broken) && !link.broken && link.open
    ensures frame == [] ==> link.broken == old(link.broken)
    ensures state == CONN_OK && (!link.open || old(link.broken)) && frame != [] ==> cuts == [] && state' == ERR_TX
    ensures state != CONN_OK || frame == [] ==> link.sendCount == old(link.sendCount)
    ensures state == CONN_OK && frame != [] && link.open && !old(link.broken) ==>
              && link.sendCount == old(link.sendCount) + |cuts| + (if state' == CONN_OK then 0 else 1)
              && link.sendCount > old(link.sendCount)
              && var last := link.sendAnswers(link.sendCount - 1);
                 (state' == ERR_TX <==> last < 0) && (state' == ERR_CLOSED <==> last == 0)
    ensures link.txDelay != 0 ==> forall i :: 0 <= i < |cuts| ==> cuts[i] == 1
    ensures link.trace == old(link.trace) + SentEvents(cuts)
                        + if state == CONN_OK && state' != CONN_OK then [TxFail(state')] else []
  {
    hide Sum, SentEvents;
    NothingSent();
    state', cuts := state, [];
    if state == CONN_OK {
      if |frame| > 0 {
        var txCnt := 0;
        while txCnt < |frame|
          invariant 0 <= txCnt <= |frame| && txCnt == Sum(cuts)
          invariant forall i :: 0 <= i < |cuts| ==> cuts[i] >= 1
          invariant link.outbox == old(link.outbox) + frame[..txCnt]
          invariant state' in {CONN_OK, ERR_TX, ERR_CLOSED}
          invariant state' == CONN_OK
          invariant txCnt == 0 ==> link.broken == old(link.broken) && cuts == []
          invariant txCnt > 0 ==> !link.broken && !old(link.broken) && link.open
          invariant link.sendCount == old(link.sendCount) + |cuts|
          invariant cuts != [] ==> link.sendAnswers(link.sendCount - 1) > 0
          invariant txCnt > 0 ==> cuts != []
          invariant link.txDelay != 0 ==> forall i :: 0 <= i < |cuts| ==> cuts[i] == 1
          invariant link.trace == old(link.trace) + SentEvents(cuts)
        {
          var txPart := if link.txDelay != 0 then 1 else |frame| - txCnt;
          var res := link.Send(frame[txCnt..txCnt + txPart]);
          if res < 0 {
            state' := ERR_TX;
            link.Log([TxFail(state')]);
            return;
          }
          if res == 0 {
            state' := ERR_CLOSED;
            link.Log([TxFail(state')]);
            return;
          }
          PartSent(old(link.outbox), frame, txCnt, txPart, res);
          SumAppend(cuts, res);
          SentEventsAppend(cuts, res);
          link.Log([Sent(res)]);
          cuts := cuts + [res];
          txCnt := txCnt + res;
        }
      }
    }
  }

  /** A buffer whose first `n` bytes have come from the stream. */
  function PartlyFilled(buf: seq<byte>, stream: seq<byte>, n: nat): seq<byte>
    requires n <= |buf| && n <= |stream|
  {
    stream[..n] + buf[n..]
  }

  /** What a run of the receive loop leaves in the buffer and in the socket. */
  ghost predicate Received(o: RxOutcome, buf0: seq<byte>, inbox0: seq<byte>, buf: seq<byte>, inbox: seq<byte>) {
    var got := Sum(o.cuts);
    got <= |buf0| && got <= |inbox0| && buf == PartlyFilled(buf0, inbox0, got) && inbox == inbox0[got..]
  }

  /**
   How a receive with `got` of `size` bytes can fail. A full buffer is noticed before anything
   else, except that an expired deadline fails a receive of nothing too.
   */
  predicate MayFail(why: ConnState, got: nat, size: nat) {
    why in {ERR_CLOSED, ERR_RX, ERR_TIMEOUT} && (got < size || (size == 0 && why == ERR_TIMEOUT))
  }

  /** How a receive can end: full, or short of full. */
  ghost predicate EndsProperly(o: RxOutcome, size: nat) {
    && Sum(o.cuts) <= size
    && (forall i :: 0 <= i < |o.cuts| ==> o.cuts[i] >= 1)
    && (o.end == RxFull ==> Sum(o.cuts) == size)
    && (o.end == RxSelectFailed || o.end == RxUnfinished ==> Sum(o.cuts) < size)
    && (o.end.RxEnded? ==> MayFail(o.end.why, Sum(o.cuts), size))
  }

  /** The receive loop with the deadline `delay` nanoseconds after its first clock reading. */
  method FrameRx(state: ConnState, link: Link, buf: Storage, delay: int) returns (state': ConnState, ghost o: RxOutcome)
    modifies buf, link`rounds, link`inbox, link`trace, link`clockCount
    ensures state != CONN_OK ==> state' == state && unchanged(buf) && unchanged(link)
    ensures state == CONN_OK && old(buf.data) != [] ==>
              && link.clockCount == old(link.clockCount) + 1
              && o == RxLoop(|old(buf.data)|, if link.open then |old(link.inbox)| else 0,
                             link.clock(old(link.clockCount)) + delay, link.clock(old(link.clockCount)),
                             link.codes, if link.open then old(link.rounds) else [])
    ensures state == CONN_OK && old(buf.data) == [] ==> o == RxOutcome([], 0, [], 0, RxFull)
    ensures state == CONN_OK ==>
              && Received(o, old(buf.data), old(link.inbox), buf.data, link.inbox)
              && EndsProperly(o, |old(buf.data)|)
              && state' == RxState(o.end)
              && link.trace == old(link.trace) + ChunkEvents(old(link.inbox)[..Sum(o.cuts)], o.cuts)
                             + [RxEvent(o.end, old(buf.data)[Sum(o.cuts)..])]
    ensures |buf.data| == |old(buf.data)|
  {
    hide RxLoop, GetTimeval, Legal, ChunkEvents, RxEvent, RxState, Patched, Sum, PartlyFilled, EndsProperly, MayFail;
    RxEnds();
    NothingFilled(buf.data, link.inbox);
    NoChunks(link.inbox);
    state' := state;
    o := RxOutcome([], 0, [], 0, RxFull);
    if state == CONN_OK {
      if |buf.data| > 0 {
        var start := link.Now();
        var end := start + delay;
        var rxCnt := 0;
        ghost var buf0, inbox0 := buf.data, link.inbox;
        ghost var avail := if link.open then |inbox0| else 0;
        // the answers, and the outcome, still ahead of the loop
        ghost var left := if link.open then link.rounds else [];
        o := RxLoop(|buf0|, avail, end, start, link.codes, left);
        RxCutsBounded(|buf0|, avail, end, start, link.codes, left);
        ghost var ahead, cuts, stamp := o, [], start;
        while true
          invariant |buf.data| == |buf0| && 0 <= rxCnt <= |buf0| && rxCnt <= avail <= |inbox0|
          invariant state' == CONN_OK && rxCnt == Sum(cuts)
          invariant link.clockCount == old(link.clockCount) + 1
          invariant link.open ==> left == link.rounds && avail == |inbox0|
          invariant !link.open ==> left == [] && avail == 0
          invariant ahead == RxLoop(|buf0| - rxCnt, avail - rxCnt, end, stamp, link.codes, left)
          invariant o.end == ahead.end && o.cuts == cuts + ahead.cuts
          invariant buf.data == PartlyFilled(buf0, inbox0, rxCnt)
          invariant link.inbox == inbox0[rxCnt..]
          invariant link.trace == old(link.trace) + ChunkEvents(inbox0[..rxCnt], cuts)
          decreases |left|, if rxCnt == |buf0| then 0 else 1
        {
          RxStop(avail - rxCnt, end, stamp, link.codes, left, |buf0| - rxCnt);
          if rxCnt == |buf.data| {
            break;
          }
          var answered, answer, now, select := link.Recv(buf, rxCnt);
          if !answered {
            state' := ERR_RX;
            break;
          }
          RxTurnEnds(|buf0| - rxCnt, avail - rxCnt, end, stamp, link.codes, left);
          left := left[1..];
          if answer.Got? {
            ghost var chunk := inbox0[rxCnt..][..answer.n];
            BufferAdvances(buf0, inbox0, rxCnt, answer.n);
            SumAppend(cuts, answer.n);
            ChunkEventsAppend(inbox0[..rxCnt], cuts, chunk);
            cuts := cuts + [answer.n];
            rxCnt := rxCnt + answer.n;
            ahead := RxLoop(|buf0| - rxCnt, avail - rxCnt, end, stamp, link.codes, left);
            continue;
          }
          if answer.Eof? {
            state' := ERR_CLOSED;
            break;
          }
          if answer.errno == link.codes.again {
            ahead := RxLoop(|buf0| - rxCnt, avail - rxCnt, end, stamp, link.codes, left);
            continue;
          }
          if answer.errno != link.codes.wouldBlock {
            state' := ERR_RX;
            break;
          }
          var tv := GetTimeval(end, now);
          if !tv.0 {
            state' := ERR_TIMEOUT;
            break;
          }
          if select < 0 {
            break;
          }
          stamp := now;
          ahead := RxLoop(|buf0| - rxCnt, avail - rxCnt, end, stamp, link.codes, left);
        }
        assert cuts + [] == cuts && o.cuts == cuts;
        link.Log([RxEvent(o.end, buf0[rxCnt..])]);
      } else {
        link.Log([Filled]);
      }
    }
  }

  lemma NoChunks(bytes: seq<byte>)
    ensures Sum([]) == 0 && ChunkEvents(bytes[..0], []) == []
    ensures EndsProperly(RxOutcome([], 0, [], 0, RxFull), 0)
  {
  }

  lemma RxEnds()
    ensures RxState(RxFull) == RxState(RxSelectFailed) == CONN_OK && RxState(RxUnfinished) == ERR_RX
    ensures forall why :: RxState(RxEnded(why)) == why
    ensures RxEvent(RxFull, []) == Filled
  {
  }

  /** Copying the next `n` bytes of the stream into the buffer. */
  lemma BufferAdvances(buf: seq<byte>, stream: seq<byte>, at: nat, n: nat)
    requires at + n <= |buf| && at + n <= |stream|
    ensures |PartlyFilled(buf, stream, at)| == |buf|
    ensures Patched(PartlyFilled(buf, stream, at), at, stream[at..][..n]) == PartlyFilled(buf, stream, at + n)
    ensures stream[..at + n] == stream[..at] + stream[at..][..n]
    ensures stream[at..][n..] == stream[at + n..]
  {
  }

  lemma NothingFilled(buf: seq<byte>, stream: seq<byte>)
    ensures PartlyFilled(buf, stream, 0) == buf
  {
  }

  /** The receive loop with an absolute deadline; an expired one fails before anything is read. */
  method FrameRxUntil(state: ConnState, link: Link, expiration: int, buf: Storage)
    returns (state': ConnState, ghost o: RxOutcome)
    modifies buf, link`rounds, link`inbox, link`trace, link`clockCount
    ensures state != CONN_OK ==> state' == state && unchanged(buf) && unchanged(link)
    ensures state == CONN_OK ==>
              && Received(o, old(buf.data), old(link.inbox), buf.data, link.inbox)
              && EndsProperly(o, |old(buf.data)|)
              && state' == RxState(o.end)
              && link.trace == old(link.trace) + ChunkEvents(old(link.inbox)[..Sum(o.cuts)], o.cuts)
                             + [RxEvent(o.end, old(buf.data)[Sum(o.cuts)..])]
    ensures state == CONN_OK ==>
              Until(o, |old(buf.data)|, if link.open then |old(link.inbox)| else 0, expiration,
                    link.clock, old(link.clockCount), link.codes, if link.open then old(link.rounds) else [])
    ensures |buf.data| == |old(buf.data)|
  {
    state' := state;
    o := RxOutcome([], 0, [], 0, RxFull);
    if state == CONN_OK {
      var cur := link.Now();
      if cur >= expiration {
        state' := ERR_TIMEOUT;
        o := RxOutcome([], 0, [], cur, RxEnded(ERR_TIMEOUT));
        link.Log([RxFail(state')]);
        assert ChunkEvents(link.inbox[..0], []) == [];
      } else {
        var ms := (expiration - cur) / NS_PER_MS;
        state', o := FrameRx(state, link, buf, ms * NS_PER_MS);
      }
    }
  }

  /**
   What a receive with an absolute deadline comes to, if `count` clock readings were taken
   before it: nothing once the first reading is not before the deadline, otherwise the loop's.
   */
  predicate Until(o: RxOutcome, need: nat, avail: nat, expiration: int, clock: nat -> int, count: nat,
                  codes: Codes, rounds: seq<Round>) {
    var cur, start := clock(count), clock(count + 1);
    if cur >= expiration then o == RxOutcome([], 0, [], cur, RxEnded(ERR_TIMEOUT))
    else if need == 0 then o == RxOutcome([], 0, [], 0, RxFull)
    else o == RxLoop(need, avail, EndTime(expiration, cur, start), start, codes, rounds)
  }

  /** The loop's own deadline: the time left at `cur`, in whole milliseconds, counted from `start`. */
  function EndTime(expiration: int, cur: int, start: int): int {
    start + (expiration - cur) / NS_PER_MS * NS_PER_MS
  }
}
