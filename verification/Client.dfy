/**
 The client's calls as a state machine over what its socket answers: a `Transaction` with
 its one retry on a new connection, and a `Sync`.
 */
module Client {
  import opened Bytes
  import opened StreamPrefix
  import opened Transfer

  datatype Place =
    | Idle
    | Asking(rest: seq<byte>)              // the request, header and payload
    | AwaitingHeader(got: seq<byte>)
    | AwaitingPayload(hdr: Hdr, got: seq<byte>)
    | Reconnecting
    | Pinging(rest: seq<byte>)
    | AwaitingPong(got: seq<byte>)

  /** How the last call ended; a reply is kept with the header it came under. */
  datatype Outcome = Nothing | Reply(hdr: Hdr, pay: seq<byte>) | Failed(why: ConnState) | Synced(ok: bool)

  /** `open` is the validity of the client's handle; `frame`, `ms` and `rand` belong to the current call. */
  datatype Client = Client(at: Place, frame: Payload, ms: int, rand: u32, attempt: nat, open: bool, outcome: Outcome)

  function RequestFrame(frame: Payload, ms: int): seq<byte> {
    Header(CMD_REQUEST, 0, Wrap32(ms), |frame|) + frame
  }

  function PingFrame(rand: u32, ms: int): seq<byte> {
    Header(CMD_PING_REQUEST, rand, Wrap32(ms), 0)
  }

  predicate PongOk(hdr: Hdr, rand: u32) {
    Valid(hdr) && Word(hdr, CMD) == CMD_PING_RESPONSE && Word(hdr, CODE) == rand
  }

  /** Only a failed send or receive of the first attempt is retried, on a new connection. */
  predicate Retries(c: Client, why: ConnState) {
    c.attempt == 1 && (why == ERR_TX || why == ERR_RX)
  }

  function Lose(c: Client, why: ConnState): Client {
    if Retries(c, why) then c.(at := Reconnecting, open := false)
    else c.(at := Idle, open := false, outcome := Failed(why))
  }

  function GotHeader(c: Client, hdr: Hdr): Client {
    if Valid(hdr) then c.(at := AwaitingPayload(hdr, [])) else Lose(c, ERR_SYNC)
  }

  function GotPong(c: Client, hdr: Hdr): Client {
    c.(at := Idle, outcome := Synced(PongOk(hdr, c.rand)))
  }

  predicate Enabled(c: Client, e: Event) {
    match c.at
    case Idle => e.Begin? || e.BeginSync?
    case Asking(rest) =>
      (e.Sent? && c.open && 1 <= e.n <= |rest|)
      || (e.TxFail? && (e.why == ERR_TX || (e.why == ERR_CLOSED && c.open)))
    case Pinging(rest) =>
      (e.Sent? && c.open && 1 <= e.n <= |rest|)
      || (e.TxFail? && (e.why == ERR_TX || (e.why == ERR_CLOSED && c.open)))
    case AwaitingHeader(got) => Receives(e, got, PREFIX_SIZE)
    case AwaitingPong(got) => Receives(e, got, PREFIX_SIZE)
    case AwaitingPayload(hdr, got) => Receives(e, got, Word(hdr, LEN))
    case Reconnecting => e.Connected? || (e.ConnectFail? && e.why in {ERR_OPEN, ERR_CONNECT})
  }

  predicate Receives(e: Event, got: seq<byte>, size: nat) {
    match e
    case Chunk(b) => 1 <= |b| && |got| + |b| <= size
    case Filled => |got| == size
    case Broke(fill) => fill != [] && |got| + |fill| == size
    case RxFail(why) => MayFail(why, |got|, size)
    case _ => false
  }

  function Fill(e: Event): seq<byte> {
    if e.Broke? then e.fill else []
  }

  function Step(c: Client, e: Event): Client
    requires Enabled(c, e)
  {
    match c.at
    case Idle =>
      if e.Begin? then
        c.(at := Asking(RequestFrame(e.frame, e.ms)), frame := e.frame, ms := e.ms, attempt := 1, outcome := Nothing)
      else
        c.(at := Pinging(PingFrame(e.rand, e.ms)), rand := e.rand, ms := e.ms, attempt := 2, outcome := Nothing)
    case Asking(rest) =>
      if e.TxFail? then Lose(c, e.why)
      else if e.n == |rest| then c.(at := AwaitingHeader([]))
      else c.(at := Asking(rest[e.n..]))
    case Pinging(rest) =>
      if e.TxFail? then c.(at := Idle, outcome := Synced(false))
      else if e.n == |rest| then c.(at := AwaitingPong([]))
      else c.(at := Pinging(rest[e.n..]))
    case AwaitingHeader(got) =>
      if e.Chunk? then c.(at := AwaitingHeader(got + e.bytes))
      else if e.RxFail? then Lose(c, e.why)
      else GotHeader(c, got + Fill(e))
    case AwaitingPong(got) =>
      if e.Chunk? then c.(at := AwaitingPong(got + e.bytes))
      else if e.RxFail? then c.(at := Idle, outcome := Synced(false))
      else GotPong(c, got + Fill(e))
    case AwaitingPayload(hdr, got) =>
      if e.Chunk? then c.(at := AwaitingPayload(hdr, got + e.bytes))
      else if e.RxFail? then Lose(c, e.why)
      else c.(at := Idle, outcome := Reply(hdr, got + Fill(e)))
    case Reconnecting =>
      if e.Connected? then c.(at := Asking(RequestFrame(c.frame, c.ms)), attempt := 2, open := true)
      else c.(at := Idle, open := false, outcome := Failed(e.why))
  }

  // ---------------------------------------------------------------- runs

  predicate Runs(c: Client, events: seq<Event>)
    decreases |events|
  {
    events != [] ==> Enabled(c, events[0]) && Runs(Step(c, events[0]), events[1..])
  }

  function Run(c: Client, events: seq<Event>): Client
    requires Runs(c, events)
    decreases |events|
  {
    if events == [] then c else Run(Step(c, events[0]), events[1..])
  }

  lemma {:induction false} RunAppend(c: Client, a: seq<Event>, b: seq<Event>)
    requires Runs(c, a) && Runs(Run(c, a), b)
    ensures Runs(c, a + b) && Run(c, a + b) == Run(Run(c, a), b)
    decreases |a|
  {
    hide Step, Enabled;
    if a == [] {
      assert a + b == b;
    } else {
      assert (a + b)[0] == a[0] && (a + b)[1..] == a[1..] + b;
      RunAppend(Step(c, a[0]), a[1..], b);
    }
  }

  lemma RunOne(c: Client, a: seq<Event>, e: Event)
    requires Runs(c, a) && Enabled(Run(c, a), e)
    ensures Runs(c, a + [e]) && Run(c, a + [e]) == Step(Run(c, a), e)
  {
    hide Step, Enabled;
    RunAppend(c, a, [e]);
  }

  predicate Receiving(p: Place) {
    p.AwaitingHeader? || p.AwaitingPayload? || p.AwaitingPong?
  }

  function Needed(p: Place): nat
    requires Receiving(p)
  {
    if p.AwaitingPayload? then Word(p.hdr, LEN) else PREFIX_SIZE
  }

  /** Receiving in any cuts. */
  lemma {:induction false} ReceiveCuts(c: Client, bytes: seq<byte>, cuts: seq<nat>)
    requires Receiving(c.at) && |c.at.got| + |bytes| <= Needed(c.at) && Sum(cuts) == |bytes|
    requires forall i :: 0 <= i < |cuts| ==> cuts[i] >= 1
    ensures Runs(c, ChunkEvents(bytes, cuts))
    ensures Run(c, ChunkEvents(bytes, cuts)) == c.(at := c.at.(got := c.at.got + bytes))
    decreases |cuts|
  {
    hide Word;
    if cuts == [] {
      assert c.at.got + bytes == c.at.got;
    } else {
      var b, rest := bytes[..cuts[0]], bytes[cuts[0]..];
      assert bytes == b + rest;
      assert (c.at.got + b) + rest == c.at.got + bytes;
      ReceiveCuts(c.(at := c.at.(got := c.at.got + b)), rest, cuts[1..]);
      assert ChunkEvents(bytes, cuts)[1..] == ChunkEvents(rest, cuts[1..]);
    }
  }

  function AfterSending(c: Client, n: nat): Client
    requires (c.at.Asking? || c.at.Pinging?) && n <= |c.at.rest|
  {
    if n == |c.at.rest| then c.(at := if c.at.Asking? then AwaitingHeader([]) else AwaitingPong([]))
    else c.(at := c.at.(rest := c.at.rest[n..]))
  }

  lemma SendTwice(c: Client, n: nat, m: nat)
    requires (c.at.Asking? || c.at.Pinging?) && c.open && 1 <= n && n + m <= |c.at.rest|
    ensures Enabled(c, Sent(n)) && Step(c, Sent(n)) == AfterSending(c, n)
    ensures n < |c.at.rest| ==>
              && (AfterSending(c, n).at.Asking? || AfterSending(c, n).at.Pinging?) && AfterSending(c, n).open
              && |AfterSending(c, n).at.rest| == |c.at.rest| - n
              && AfterSending(AfterSending(c, n), m) == AfterSending(c, n + m)
  {
    if n < |c.at.rest| {
      assert c.at.rest[n..][m..] == c.at.rest[n + m..];
    }
  }

  /** Sending in any cuts. */
  lemma {:induction false} SendCuts(c: Client, cuts: seq<nat>)
    requires (c.at.Asking? || c.at.Pinging?) && c.at.rest != [] && Sum(cuts) <= |c.at.rest|
    requires cuts != [] ==> c.open
    requires forall i :: 0 <= i < |cuts| ==> cuts[i] >= 1
    ensures Runs(c, SentEvents(cuts))
    ensures Run(c, SentEvents(cuts)) == AfterSending(c, Sum(cuts))
    decreases |cuts|
  {
    hide Step, Enabled;
    if cuts == [] {
      assert c.at.rest[0..] == c.at.rest;
    } else {
      hide AfterSending;
      SendTwice(c, cuts[0], Sum(cuts[1..]));
      assert SentEvents(cuts)[1..] == SentEvents(cuts[1..]);
      if cuts[0] == |c.at.rest| {
        NoCuts(cuts[1..]);
      } else {
        SendCuts(AfterSending(c, cuts[0]), cuts[1..]);
      }
    }
  }

  /**
   What a failed `select` does to a call: a transaction returns true with a payload of which
   only the first part was received and the rest is the zeros of the resized buffer.
   */
  lemma UnreceivedBytesPassAsReply(c: Client, frame: Payload, ms: int, hdr: Hdr, part: seq<byte>)
    returns (events: seq<Event>)
    requires c.at.Idle? && c.open && Valid(hdr) && |part| < Word(hdr, LEN)
    ensures var rest := Zeros(Word(hdr, LEN) - |part|);
            && Runs(c, events) && Run(c, events).at.Idle? && Run(c, events).outcome == Reply(hdr, part + rest)
            && events == [Begin(frame, ms), Sent(PREFIX_SIZE)] + (if frame == [] then [] else [Sent(|frame|)])
                         + [Chunk(hdr), Filled] + (if part == [] then [] else [Chunk(part)]) + [Broke(rest)]
  {
    hide Word, Valid, Header;
    var asked := Step(c, Begin(frame, ms));
    var whole := asked.at.rest;
    assert |whole| == PREFIX_SIZE + |frame| && whole[PREFIX_SIZE..] == frame;
    assert [] + hdr == hdr && hdr + [] == hdr && [] + part == part;
    events := [Begin(frame, ms)];
    RunOne(c, [], Begin(frame, ms));
    assert [] + events == events;
    RunOne(c, events, Sent(PREFIX_SIZE));
    events := events + [Sent(PREFIX_SIZE)];
    if frame != [] {
      RunOne(c, events, Sent(|frame|));
      events := events + [Sent(|frame|)];
    }
    assert Run(c, events) == asked.(at := AwaitingHeader([]));
    RunOne(c, events, Chunk(hdr));
    events := events + [Chunk(hdr)];
    RunOne(c, events, Filled);
    events := events + [Filled];
    if part != [] {
      RunOne(c, events, Chunk(part));
      events := events + [Chunk(part)];
    }
    assert Run(c, events) == asked.(at := AwaitingPayload(hdr, part));
    var rest := Zeros(Word(hdr, LEN) - |part|);
    RunOne(c, events, Broke(rest));
    events := events + [Broke(rest)];
  }
}
