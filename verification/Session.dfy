/**
 One server session as a state machine over what its socket and its handler answer.
 Its steps are the system calls of `SocketServer::Shell`; the clock is not part of it, so
 reading may end in a timeout at any point.
 */
module Session {
  import opened Bytes
  import opened StreamPrefix
  import opened Transfer

  datatype Pc =
    | Waiting                        // in frame_wait
    | ReadingHeader(got: seq<byte>)
    | ReadingPayload(hdr: Hdr, got: seq<byte>)
    | Executing(hdr: Hdr, pay: seq<byte>)
    | Sending(rest: seq<byte>)       // the reply, header and payload
    | Closing(rest: seq<byte>)       // the final ERROR frame
    | Gone

  /** A call of the handler: the request, the code left by the previous exchange, the result. */
  datatype Call = Call(request: seq<byte>, stale: u32, result: HandlerResult)

  /**
   `outCmd` and `outCode` survive from one exchange to the next. `input`, `output`, `calls`,
   `replies` and `final` record the bytes read and accepted, the handler calls, the replies
   begun and the ERROR frame begun at the end.
   */
  datatype Session = Session(pc: Pc, outCmd: u32, outCode: u32, deaf: bool,
                             input: seq<byte>, output: seq<byte>, calls: seq<Call>,
                             replies: seq<seq<byte>>, final: seq<byte>)

  const SESSION_START := Session(Waiting, 0, 0, false, [], [], [], [], [])

  predicate Alive(s: Session) {
    !s.pc.Closing? && !s.pc.Gone?
  }

  /** `ShellClose`'s frame. */
  function ErrorFrame(why: ConnState): seq<byte> {
    Header(CMD_ERROR, StateCode(why), 0, 0)
  }

  function Fail(s: Session, why: ConnState): Session {
    if why == ERR_CLOSED then s.(pc := Gone)
    else s.(pc := Closing(ErrorFrame(why)), final := ErrorFrame(why))
  }

  function HeaderRead(s: Session, hdr: Hdr): Session {
    if Valid(hdr) then s.(pc := ReadingPayload(hdr, [])) else Fail(s, ERR_SYNC)
  }

  /** What `ShellCmdExec` puts into `out_cmd`, `out_code` and `out_pay`. */
  datatype Answer = Answer(cmd: u32, code: u32, pay: Payload)

  function AnswerTo(hdr: Hdr, outCmd: u32, outCode: u32, result: HandlerResult): Answer {
    var cmd := Word(hdr, CMD);
    if cmd == CMD_PING_REQUEST then Answer(CMD_PING_RESPONSE, Word(hdr, CODE), [])
    else if cmd == CMD_REQUEST && result.Done? then Answer(CMD_RESPONSE, result.code, result.pay)
    else Answer(outCmd, outCode, [])
  }

  function ReplyFrame(a: Answer): seq<byte> {
    Header(a.cmd, a.code, 0, |a.pay|) + a.pay
  }

  function Execute(s: Session, hdr: Hdr, pay: seq<byte>, result: HandlerResult): Session {
    var called := if Word(hdr, CMD) == CMD_REQUEST then [Call(pay, s.outCode, result)] else [];
    if Word(hdr, CMD) == CMD_REQUEST && !result.Done? then
      Fail(s.(calls := s.calls + called), ERR_EXEC)
    else
      var a := AnswerTo(hdr, s.outCmd, s.outCode, result);
      s.(pc := Sending(ReplyFrame(a)), outCmd := a.cmd, outCode := a.code,
         calls := s.calls + called, replies := s.replies + [ReplyFrame(a)])
  }

  /** The observations a session can make where it stands. */
  predicate Enabled(s: Session, e: Event) {
    match s.pc
    case Waiting => e.Ready? || e.Quiet? || e.WaitFail? || e.Stopped?
    case ReadingHeader(got) =>
      (match e
       case Chunk(b) => 1 <= |b| && |got| + |b| <= PREFIX_SIZE
       case Filled => |got| == PREFIX_SIZE
       case Broke(fill) => fill != [] && |got| + |fill| == PREFIX_SIZE
       case RxFail(why) => MayFail(why, |got|, PREFIX_SIZE)
       case _ => false)
    case ReadingPayload(hdr, got) =>
      (match e
       case Chunk(b) => 1 <= |b| && |got| + |b| <= Word(hdr, LEN)
       case Filled => |got| == Word(hdr, LEN)
       case Broke(fill) => fill != [] && |got| + |fill| == Word(hdr, LEN)
       case RxFail(why) => MayFail(why, |got|, Word(hdr, LEN))
       case _ => false)
    case Executing(_, _) => e.Ran?
    case Sending(rest) => (e.Sent? && 1 <= e.n <= |rest|) || (e.TxFail? && e.why in {ERR_TX, ERR_CLOSED})
    case Closing(rest) => (e.Sent? && !s.deaf && 1 <= e.n <= |rest|) || (e.TxFail? && e.why in {ERR_TX, ERR_CLOSED})
    case Gone => false
  }

  function Step(s: Session, e: Event): Session
    requires Enabled(s, e)
  {
    match s.pc
    case Waiting =>
      if e.Ready? then s.(pc := ReadingHeader([])) else if e.Quiet? then s else s.(pc := Gone)
    case ReadingHeader(got) =>
      (match e
       case Chunk(b) => s.(pc := ReadingHeader(got + b), input := s.input + b)
       case Filled => HeaderRead(s, got)
       case Broke(fill) => HeaderRead(s, got + fill)
       case RxFail(why) => Fail(s, why))
    case ReadingPayload(hdr, got) =>
      (match e
       case Chunk(b) => s.(pc := ReadingPayload(hdr, got + b), input := s.input + b)
       case Filled => s.(pc := Executing(hdr, got))
       case Broke(fill) => s.(pc := Executing(hdr, got + fill))
       case RxFail(why) => Fail(s, why))
    case Executing(hdr, pay) => Execute(s, hdr, pay, e.result)
    case Sending(rest) =>
      if e.TxFail? then Fail(s.(deaf := true), e.why)
      else if e.n == |rest| then s.(pc := Waiting, output := s.output + rest)
      else s.(pc := Sending(rest[e.n..]), output := s.output + rest[..e.n])
    case Closing(rest) =>
      if e.TxFail? then s.(pc := Gone, deaf := true)
      else if e.n == |rest| then s.(pc := Gone, output := s.output + rest)
      else s.(pc := Closing(rest[e.n..]), output := s.output + rest[..e.n])
  }

  // ---------------------------------------------------------------- runs

  predicate Runs(s: Session, events: seq<Event>)
    decreases |events|
  {
    events != [] ==> Enabled(s, events[0]) && Runs(Step(s, events[0]), events[1..])
  }

  function Run(s: Session, events: seq<Event>): Session
    requires Runs(s, events)
    decreases |events|
  {
    if events == [] then s else Run(Step(s, events[0]), events[1..])
  }

  lemma {:induction false} RunAppend(s: Session, a: seq<Event>, b: seq<Event>)
    requires Runs(s, a)
    ensures Runs(s, a + b) <==> Runs(Run(s, a), b)
    ensures Runs(s, a + b) ==> Run(s, a + b) == Run(Run(s, a), b)
    decreases |a|
  {
    hide Step, Enabled;
    if a == [] {
      assert a + b == b;
    } else {
      assert (a + b)[0] == a[0] && (a + b)[1..] == a[1..] + b;
      RunAppend(Step(s, a[0]), a[1..], b);
    }
  }

  lemma RunOne(s: Session, e: Event)
    ensures Runs(s, [e]) <==> Enabled(s, e)
    ensures Enabled(s, e) ==> Run(s, [e]) == Step(s, e)
  {
    hide Step, Enabled;
  }

  lemma {:induction false} HeaderChunks(s: Session, bytes: seq<byte>, cuts: seq<nat>)
    requires s.pc.ReadingHeader? && |s.pc.got| + |bytes| <= PREFIX_SIZE && Sum(cuts) == |bytes|
    requires forall i :: 0 <= i < |cuts| ==> cuts[i] >= 1
    ensures Runs(s, ChunkEvents(bytes, cuts))
    ensures Run(s, ChunkEvents(bytes, cuts)) == s.(pc := ReadingHeader(s.pc.got + bytes), input := s.input + bytes)
    decreases |cuts|
  {
    if cuts == [] {
      assert s.pc.got + bytes == s.pc.got && s.input + bytes == s.input;
    } else {
      var b, rest := bytes[..cuts[0]], bytes[cuts[0]..];
      assert bytes == b + rest;
      HeaderChunks(Step(s, Chunk(b)), rest, cuts[1..]);
      assert ChunkEvents(bytes, cuts)[1..] == ChunkEvents(rest, cuts[1..]);
      assert (s.pc.got + b) + rest == s.pc.got + bytes && (s.input + b) + rest == s.input + bytes;
    }
  }

  lemma {:induction false} PayloadChunks(s: Session, bytes: seq<byte>, cuts: seq<nat>)
    requires s.pc.ReadingPayload? && |s.pc.got| + |bytes| <= Word(s.pc.hdr, LEN) && Sum(cuts) == |bytes|
    requires forall i :: 0 <= i < |cuts| ==> cuts[i] >= 1
    ensures Runs(s, ChunkEvents(bytes, cuts))
    ensures Run(s, ChunkEvents(bytes, cuts))
         == s.(pc := ReadingPayload(s.pc.hdr, s.pc.got + bytes), input := s.input + bytes)
    decreases |cuts|
  {
    hide Word;
    if cuts == [] {
      assert s.pc.got + bytes == s.pc.got && s.input + bytes == s.input;
    } else {
      var b, rest := bytes[..cuts[0]], bytes[cuts[0]..];
      assert bytes == b + rest;
      PayloadChunks(Step(s, Chunk(b)), rest, cuts[1..]);
      assert ChunkEvents(bytes, cuts)[1..] == ChunkEvents(rest, cuts[1..]);
      assert (s.pc.got + b) + rest == s.pc.got + bytes && (s.input + b) + rest == s.input + bytes;
    }
  }

  function AfterSending(s: Session, n: nat): Session
    requires (s.pc.Sending? || s.pc.Closing?) && n <= |s.pc.rest|
  {
    if n == |s.pc.rest| then s.(pc := if s.pc.Sending? then Waiting else Gone, output := s.output + s.pc.rest)
    else s.(pc := s.pc.(rest := s.pc.rest[n..]), output := s.output + s.pc.rest[..n])
  }

  predicate CanSend(s: Session) {
    s.pc.Sending? || (s.pc.Closing? && !s.deaf)
  }

  lemma SendTwice(s: Session, n: nat, m: nat)
    requires CanSend(s) && 1 <= n && n + m <= |s.pc.rest|
    ensures Enabled(s, Sent(n)) && Step(s, Sent(n)) == AfterSending(s, n)
    ensures n < |s.pc.rest| ==>
              && CanSend(AfterSending(s, n)) && |AfterSending(s, n).pc.rest| == |s.pc.rest| - n
              && AfterSending(AfterSending(s, n), m) == AfterSending(s, n + m)
  {
    if n < |s.pc.rest| {
      var rest := s.pc.rest;
      assert rest[n..][m..] == rest[n + m..];
      assert (s.output + rest[..n]) + rest[n..][..m] == s.output + rest[..n + m];
      assert (s.output + rest[..n]) + rest[n..] == s.output + rest;
    }
  }

  /** Sending in any cuts, all of it or short of that. */
  lemma {:induction false} SendCuts(s: Session, cuts: seq<nat>)
    requires CanSend(s) && s.pc.rest != [] && Sum(cuts) <= |s.pc.rest|
    requires forall i :: 0 <= i < |cuts| ==> cuts[i] >= 1
    ensures Runs(s, SentEvents(cuts))
    ensures Run(s, SentEvents(cuts)) == AfterSending(s, Sum(cuts))
    decreases |cuts|
  {
    hide Step, Enabled;
    if cuts == [] {
      assert s.pc.rest[0..] == s.pc.rest && s.output + s.pc.rest[..0] == s.output;
    } else {
      hide AfterSending;
      SendTwice(s, cuts[0], Sum(cuts[1..]));
      assert SentEvents(cuts)[1..] == SentEvents(cuts[1..]);
      if cuts[0] == |s.pc.rest| {
        NoCuts(cuts[1..]);
      } else {
        SendCuts(AfterSending(s, cuts[0]), cuts[1..]);
      }
    }
  }
}
