/**
 What a call makes of the bytes it receives, and when it is tried again: stated on the events
 of its socket and on the bytes alone.
 */
module ClientLaws {
  import opened Bytes
  import opened StreamPrefix
  import opened Transfer
  import opened Client

  // ---------------------------------------------------------------- the bytes received

  /** The first 24 bytes are a header: their six words sum to 2^32 - 1 modulo 2^32. */
  predicate SumsUp(b: seq<byte>) {
    && |b| >= 24
    && (Word(b, 0) + Word(b, 1) + Word(b, 2) + Word(b, 3) + Word(b, 4) + Word(b, 5)) % 0x1_0000_0000 == 0xFFFF_FFFF
  }

  /** Exactly the answer to a ping with this number. */
  predicate PongFor(b: seq<byte>, rand: u32) {
    |b| == 24 && SumsUp(b) && Word(b, 1) == 103 && Word(b, 2) == rand
  }

  /** Exactly one frame: a header and as many bytes as its fifth word says. */
  predicate WholeReply(b: seq<byte>) {
    SumsUp(b) && |b| == 24 + Word(b, 4)
  }

  /** Events of one attempt: what a socket answers, and no failed `select` among it. */
  predicate SocketEvent(e: Event) {
    e.Sent? || e.TxFail? || e.Chunk? || e.Filled? || e.RxFail? || e.Broke?
  }

  predicate OnSocket(events: seq<Event>) {
    forall i :: 0 <= i < |events| ==> SocketEvent(events[i])
  }

  predicate NoneBroke(events: seq<Event>) {
    forall i :: 0 <= i < |events| ==> !events[i].Broke?
  }

  predicate EndsInFailedReceive(events: seq<Event>) {
    events != [] && events[|events| - 1].RxFail?
  }

  function Seen(at: Place): seq<byte> {
    match at
    case AwaitingHeader(got) => got
    case AwaitingPayload(hdr, got) => hdr + got
    case AwaitingPong(got) => got
    case _ => []
  }

  predicate UnderWay(c: Client) {
    && (c.at.Asking? || c.at.Pinging? || Receiving(c.at))
    && (Receiving(c.at) ==> |c.at.got| <= Needed(c.at))
    && (c.at.AwaitingPayload? ==> Valid(c.at.hdr))
  }

  /** What has become of a call that has received `b` in all and whose last event was a failed receive or not. */
  predicate Concludes(t: Client, b: seq<byte>, receiveFailed: bool) {
    if UnderWay(t) then Seen(t.at) == b
    else if t.at.Idle? && t.outcome.Synced? then t.outcome.ok <==> PongFor(b, t.rand)
    else if t.at.Idle? && t.outcome.Reply? then
      WholeReply(b) && !receiveFailed && t.outcome.hdr == b[..24] && t.outcome.pay == b[24..]
    else (t.at.Reconnecting? || (t.at.Idle? && t.outcome.Failed?)) && (!WholeReply(b) || receiveFailed)
  }

  lemma ValidIsSum(h: seq<byte>)
    requires |h| == 24
    ensures Valid(h) <==> SumsUp(h)
  {
    hide Word;
    ValidIffSum(h);
    SumOfFive(h);
    assert SumOf(h, 6) == SumOf(h, 5) + Word(h, 5);
  }

  lemma SameFirstWords(h: seq<byte>, b: seq<byte>)
    requires |h| == 24 && |b| >= 24 && b[..24] == h
    ensures forall i: nat :: i < 6 ==> Word(b, i) == Word(h, i)
  {
    forall i: nat | i < 6
      ensures Word(b, i) == Word(h, i)
    {
      assert b[4 * i..4 * i + 4] == h[4 * i..4 * i + 4];
    }
  }

  /** A header alone, and a header with a payload. */
  lemma FrameParts(hdr: Hdr, pay: seq<byte>)
    ensures WholeReply(hdr + pay) <==> Valid(hdr) && |pay| == Word(hdr, LEN)
    ensures (hdr + pay)[..24] == hdr && (hdr + pay)[24..] == pay
  {
    hide Word;
    ValidIsSum(hdr);
    assert (hdr + pay)[..24] == hdr && (hdr + pay)[24..] == pay;
    SameFirstWords(hdr, hdr + pay);
  }

  lemma PongInNumbers(hdr: Hdr, rand: u32)
    ensures PongOk(hdr, rand) <==> PongFor(hdr, rand)
  {
    hide Word;
    ValidIsSum(hdr);
  }

  /** One event of an attempt. */
  lemma EventConcludes(c: Client, e: Event)
    requires UnderWay(c) && Enabled(c, e) && SocketEvent(e) && !e.Broke?
    ensures Concludes(Step(c, e), Seen(c.at) + (if e.Chunk? then e.bytes else []), e.RxFail?)
  {
    hide Word, Valid, SumsUp, WholeReply, PongFor, PongOk;
    var b := Seen(c.at) + (if e.Chunk? then e.bytes else []);
    match c.at
    case Asking(_) => NothingIsNoReply();
    case Pinging(_) => NothingIsNoPong(c.rand);
    case AwaitingHeader(got) =>
      if e.Chunk? {
      } else if e.RxFail? {
      } else {
        assert got + [] == got == b;
        FrameParts(got, []);
      }
    case AwaitingPong(got) =>
      if e.Filled? {
        assert got + [] == got == b;
        PongInNumbers(got, c.rand);
      } else if e.RxFail? {
        assert b == got && |got| < 24;
        ShortIsNoPong(got, c.rand);
      }
    case AwaitingPayload(hdr, got) =>
      if e.Chunk? {
        assert hdr + (got + e.bytes) == hdr + got + e.bytes;
      } else {
        assert got + [] == got && b == hdr + got;
        FrameParts(hdr, got);
      }
    case _ =>
  }

  lemma NothingIsNoReply()
    ensures !WholeReply([] + [])
  {
  }

  lemma NothingIsNoPong(rand: u32)
    ensures !PongFor([] + [], rand)
  {
  }

  lemma ShortIsNoPong(b: seq<byte>, rand: u32)
    requires |b| < 24
    ensures !PongFor(b, rand)
  {
  }

  lemma OverTakesNoSocketEvent(c: Client, events: seq<Event>)
    requires (c.at.Idle? || c.at.Reconnecting?) && Runs(c, events) && OnSocket(events)
    ensures events == []
  {
  }

  /** What an attempt comes to is decided by the bytes it received, and by whether a receive failed. */
  lemma {:induction false} AttemptConcludes(c: Client, events: seq<Event>)
    requires UnderWay(c) && Runs(c, events) && OnSocket(events) && NoneBroke(events)
    ensures Concludes(Run(c, events), Seen(c.at) + ChunkBytes(events), EndsInFailedReceive(events))
    decreases |events|
  {
    hide Enabled, Step, WholeReply, PongFor;
    if events == [] {
      assert Seen(c.at) + [] == Seen(c.at);
    } else {
      var e, rest := events[0], events[1..];
      var b := if e.Chunk? then e.bytes else [];
      EventConcludes(c, e);
      assert Seen(c.at) + ChunkBytes(events) == (Seen(c.at) + b) + ChunkBytes(rest);
      if UnderWay(Step(c, e)) {
        AttemptConcludes(Step(c, e), rest);
        if rest == [] {
          assert ChunkBytes(rest) == [];
        }
      } else {
        OverTakesNoSocketEvent(Step(c, e), rest);
        assert ChunkBytes(rest) == [] && (Seen(c.at) + b) + [] == Seen(c.at) + b;
      }
    }
  }

  // ---------------------------------------------------------------- the second attempt

  /** The event after which a call is tried again: a send or a receive that failed for good. */
  predicate FailedForGood(e: Event) {
    e == TxFail(ERR_TX) || e == RxFail(ERR_RX)
  }

  /** A first attempt is followed by a second if and only if its last event is such a failure. */
  lemma RetriesExactly(c: Client, events: seq<Event>)
    requires c.at.Asking? && c.attempt == 1 && Runs(c, events) && OnSocket(events)
    ensures Run(c, events).at.Reconnecting? <==> events != [] && FailedForGood(events[|events| - 1])
  {
    if events != [] {
      AskingGoesOn(c, events);
    }
  }

  predicate InTransaction(c: Client) {
    c.attempt == 1 && (c.at.Asking? || c.at.AwaitingHeader? || c.at.AwaitingPayload?)
  }

  lemma TransactionStep(c: Client, e: Event)
    requires InTransaction(c) && Enabled(c, e) && SocketEvent(e)
    ensures InTransaction(Step(c, e)) || Step(c, e).at.Idle? || Step(c, e).at.Reconnecting?
    ensures Step(c, e).at.Reconnecting? <==> FailedForGood(e)
  {
    hide Word, Valid;
  }

  lemma {:induction false} AskingGoesOn(c: Client, events: seq<Event>)
    requires InTransaction(c) && events != [] && Runs(c, events) && OnSocket(events)
    ensures Run(c, events).at.Reconnecting? <==> FailedForGood(events[|events| - 1])
    decreases |events|
  {
    hide Enabled, Step;
    var c1, rest := Step(c, events[0]), events[1..];
    TransactionStep(c, events[0]);
    if InTransaction(c1) && rest != [] {
      AskingGoesOn(c1, rest);
    } else if !InTransaction(c1) {
      OverTakesNoSocketEvent(c1, rest);
    }
  }
}
