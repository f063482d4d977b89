/** The server's side of one connection: the stages of `Shell`, and the session they carry out. */
module SocketServer {
  import opened Bytes
  import opened Buffers
  import opened StreamPrefix
  import opened Transfer
  import opened Transaction
  import opened Session
  import opened SessionLaws
  import opened SessionRequests
  import opened SessionWaits

  /** The session the socket's history amounts to. */
  ghost function Now(link: Link): Session
    reads link
    requires Runs(SESSION_START, link.trace)
  {
    Run(SESSION_START, link.trace)
  }

  /** The socket's history is a run of the session machine, byte for byte. */
  ghost predicate Tracks(link: Link, in0: seq<byte>, out0: seq<byte>)
    reads link
  {
    && Runs(SESSION_START, link.trace)
    && in0 == Now(link).input + link.inbox
    && link.outbox == out0 + Now(link).output
    && (Now(link).deaf ==> link.broken)
  }

  /** Where a session stands once a stage has left this state. */
  ghost predicate Lost(s: Session, state: ConnState) {
    s.pc == (if state == ERR_CLOSED then Gone else Closing(ErrorFrame(state)))
  }

  lemma Extends(s: Session, before: seq<Event>, events: seq<Event>)
    requires Runs(SESSION_START, before) && s == Run(SESSION_START, before) && Runs(s, events)
    ensures Runs(SESSION_START, before + events) && Run(SESSION_START, before + events) == Run(s, events)
  {
    hide Runs, Run;
    RunAppend(SESSION_START, before, events);
  }

  lemma ExtendsOne(s: Session, before: seq<Event>, e: Event)
    requires Runs(SESSION_START, before) && s == Run(SESSION_START, before) && Enabled(s, e)
    ensures Runs(SESSION_START, before + [e]) && Run(SESSION_START, before + [e]) == Step(s, e)
  {
    hide Runs, Run, Step, Enabled;
    RunOne(s, e);
    Extends(s, before, [e]);
  }

  /** What a socket answers is nothing a waiting session is told. */
  lemma NotWaiting(before: seq<Event>, events: seq<Event>, last: Event)
    requires !IsWait(last) && forall i :: 0 <= i < |events| ==> !IsWait(events[i])
    ensures Waits(before + events) == Waits(before) && Waits(before + events + [last]) == Waits(before)
  {
    hide IsWait;
    NoWaits(events);
    WaitsAppend(before, events);
    WaitsOne(before + events, last);
  }

  /** Only the place and the input of a session have moved on. */
  ghost predicate OnlyRead(s: Session, s': Session, bytes: seq<byte>) {
    s' == s.(pc := s'.pc, final := s'.final, input := s.input + bytes)
  }

  /** Reading a header: the machine follows whatever the loop did. */
  lemma HeaderStage(s: Session, before: seq<Event>, o: RxOutcome, bytes: seq<byte>, rest: seq<byte>)
    requires Runs(SESSION_START, before) && s == Run(SESSION_START, before) && s.pc == ReadingHeader([])
    requires Sum(o.cuts) == |bytes| && |bytes| + |rest| == PREFIX_SIZE
    requires EndsProperly(o, PREFIX_SIZE)
    ensures var after := before + ChunkEvents(bytes, o.cuts) + [RxEvent(o.end, rest)];
            && Runs(SESSION_START, after) && Waits(after) == Waits(before)
            && var s' := Run(SESSION_START, after);
               && OnlyRead(s, s', bytes)
               && (RxState(o.end) == CONN_OK && Valid(bytes + rest) ==> s'.pc == ReadingPayload(bytes + rest, []))
               && (RxState(o.end) == CONN_OK && !Valid(bytes + rest) ==> Lost(s', ERR_SYNC))
               && (RxState(o.end) != CONN_OK ==> Lost(s', RxState(o.end)))
  {
    hide Runs, Run, Valid, ErrorFrame, ChunkEvents, Waits;
    HeaderChunks(s, bytes, o.cuts);
    var chunks, last := ChunkEvents(bytes, o.cuts), RxEvent(o.end, rest);
    NotWaiting(before, chunks, last);
    var s1 := Run(s, chunks);
    assert [] + bytes == bytes;
    Extends(s, before, chunks);
    if o.end == RxFull {
      assert bytes + rest == bytes;
    }
    ExtendsOne(s1, before + chunks, last);
  }

  /** Reading a payload likewise. */
  lemma PayloadStage(s: Session, before: seq<Event>, o: RxOutcome, hdr: Hdr, bytes: seq<byte>, rest: seq<byte>)
    requires Runs(SESSION_START, before) && s == Run(SESSION_START, before) && s.pc == ReadingPayload(hdr, [])
    requires Sum(o.cuts) == |bytes| && |bytes| + |rest| == Word(hdr, LEN)
    requires EndsProperly(o, Word(hdr, LEN))
    ensures var after := before + ChunkEvents(bytes, o.cuts) + [RxEvent(o.end, rest)];
            && Runs(SESSION_START, after) && Waits(after) == Waits(before)
            && var s' := Run(SESSION_START, after);
               && OnlyRead(s, s', bytes)
               && (RxState(o.end) == CONN_OK ==> s'.pc == Executing(hdr, bytes + rest))
               && (RxState(o.end) != CONN_OK ==> Lost(s', RxState(o.end)))
  {
    hide Runs, Run, Word, ErrorFrame, ChunkEvents, Waits;
    PayloadChunks(s, bytes, o.cuts);
    var chunks, last := ChunkEvents(bytes, o.cuts), RxEvent(o.end, rest);
    NotWaiting(before, chunks, last);
    var s1 := Run(s, chunks);
    assert [] + bytes == bytes;
    Extends(s, before, chunks);
    if o.end == RxFull {
      assert bytes + rest == bytes;
    }
    ExtendsOne(s1, before + chunks, last);
  }

  /** Only the place and the output of a session have moved on. */
  ghost predicate OnlyWrote(s: Session, s': Session, bytes: seq<byte>) {
    s' == s.(pc := s'.pc, final := s'.final, deaf := s'.deaf, output := s.output + bytes)
  }

  /** Sending a first part of the reply, or of the ERROR frame, likewise. */
  lemma SendStage(s: Session, before: seq<Event>, cuts: seq<nat>, part: nat, state: ConnState)
    requires Runs(SESSION_START, before) && s == Run(SESSION_START, before)
    requires (s.pc.Sending? || s.pc.Closing?) && 0 < part <= |s.pc.rest| && Sum(cuts) <= part
    requires s.deaf ==> cuts == []
    requires forall i :: 0 <= i < |cuts| ==> cuts[i] >= 1
    requires state in {CONN_OK, ERR_TX, ERR_CLOSED} && (state == CONN_OK <==> Sum(cuts) == part)
    ensures var after := before + SentEvents(cuts) + if state != CONN_OK then [TxFail(state)] else [];
            && Runs(SESSION_START, after) && Waits(after) == Waits(before)
            && var s' := Run(SESSION_START, after);
               && OnlyWrote(s, s', s.pc.rest[..Sum(cuts)])
               && (state == CONN_OK ==> s'.deaf == s.deaf && s'.final == s.final)
               && (state == CONN_OK && part < |s.pc.rest| ==> s'.pc == s.pc.(rest := s.pc.rest[part..]))
               && (state == CONN_OK && part == |s.pc.rest| ==> s'.pc == if s.pc.Sending? then Waiting else Gone)
               && (state != CONN_OK && s.pc.Sending? ==> Lost(s', state))
               && (state != CONN_OK && s.pc.Closing? ==> s'.pc == Gone)
  {
    hide Runs, Run, ErrorFrame, Waits;
    var rest, sent := s.pc.rest, SentEvents(cuts);
    NotWaiting(before, sent, TxFail(state));
    assert rest[..|rest|] == rest && rest[0..] == rest && s.output + rest[..0] == s.output;
    if s.deaf {
      assert sent == [] && before + sent == before;
    } else {
      SendCuts(s, cuts);
      Extends(s, before, sent);
    }
    var s1 := AfterSending(s, Sum(cuts));
    assert Run(SESSION_START, before + sent) == s1;
    if state == CONN_OK {
      assert before + sent + [] == before + sent;
    } else {
      ExtendsOne(s1, before + sent, TxFail(state));
    }
  }

  class SocketServer {
    const handler: Handler
    /** Handler calls made in this session. */
    var served: nat

    constructor (handler: Handler)
      ensures this.handler == handler && served == 0
    {
      this.handler := handler;
      served := 0;
    }

    ghost predicate Obedient(s: Session)
      reads this
    {
      served == |s.calls| && Obeys(handler, s.calls)
    }

    method ShellCmdStart(link: Link, tr: Transaction)
      requires tr.Valid()
      modifies tr`tvStart, tr`tvExpiration, tr.inpHdr, tr.inpPay, tr.outHdr, tr.outPay, link`clockCount
      ensures tr.inpHdr.data == Zeros(PREFIX_SIZE) && tr.inpPay.data == tr.outPay.data == []
      ensures tr.tvExpiration == tr.tvStart + 5_000_000_000
    {
      tr.Start(COMM_TIMEOUT, link);
      tr.inpHdr.Resize(PREFIX_SIZE);
      assert tr.inpHdr.data == Zeros(PREFIX_SIZE);
    }

    /** Reads the header, and from it the deadline, the size of the payload and the command. */
    method ShellReadPrefix(link: Link, state: ConnState, tr: Transaction, ghost in0: seq<byte>, ghost out0: seq<byte>)
      returns (state': ConnState, ghost o: RxOutcome)
      requires tr.Valid() && Tracks(link, in0, out0)
      requires if state == CONN_OK then Now(link).pc == ReadingHeader([]) else Lost(Now(link), state)
      requires |tr.inpHdr.data| == PREFIX_SIZE && tr.inpPay.data == []
      modifies tr`inpCmd, tr`inpCode, tr`tvExpiration, tr.inpHdr, tr.inpPay
      modifies link`rounds, link`inbox, link`trace, link`clockCount
      ensures Tracks(link, in0, out0) && SameCarry(old(Now(link)), Now(link))
      ensures Waits(link.trace) == old(Waits(link.trace))
      ensures state' == CONN_OK ==>
                && |tr.inpHdr.data| == PREFIX_SIZE
                && Now(link).pc == ReadingPayload(tr.inpHdr.data, [])
                && tr.inpCmd == Word(tr.inpHdr.data, CMD) && tr.inpCode == Word(tr.inpHdr.data, CODE)
                && tr.inpPay.data == Zeros(Word(tr.inpHdr.data, LEN))
                && tr.tvExpiration == if HasExpiration(tr.inpHdr.data)
                                      then tr.tvStart + 1_000_000 * Word(tr.inpHdr.data, EXP)
                                      else old(tr.tvExpiration)
      ensures state' != CONN_OK ==> Lost(Now(link), state')
      ensures state == CONN_OK ==>
                && Until(o, PREFIX_SIZE, if link.open then |old(link.inbox)| else 0, old(tr.tvExpiration),
                         link.clock, old(link.clockCount), link.codes, if link.open then old(link.rounds) else [])
                && (state' == RxState(o.end) || (RxState(o.end) == CONN_OK && state' == ERR_SYNC))
    {
      hide Runs, Run, Waits, ChunkEvents, Word, StreamPrefix.Valid, ErrorFrame, RxEvent, RxState, Header, Until;
      state', o := state, RxOutcome([], 0, [], 0, RxFull);
      if state == CONN_OK {
        ghost var s, before, hdr0, inbox0 := Now(link), link.trace, tr.inpHdr.data, link.inbox;
        state', o := FrameRxUntil(state, link, tr.tvExpiration, tr.inpHdr);
        ghost var got := Sum(o.cuts);
        HeaderStage(s, before, o, inbox0[..got], hdr0[got..]);
        assert s.input + inbox0 == (s.input + inbox0[..got]) + inbox0[got..];
        assert Tracks(link, in0, out0);
        if state' == CONN_OK {
          if StreamPrefix.Valid(tr.inpHdr.data) {
            var sized, expirationSet := ExpirationTimeValid(tr.inpHdr);
            if expirationSet {
              var defined, durationMs := ExpirationTimeGet(tr.inpHdr);
              tr.ExpirationSet(durationMs * NS_PER_MS);
            }
            var ok, params := GetParams(tr.inpHdr);
            ValidIffSum(tr.inpHdr.data);
            tr.inpPay.Resize(params.len);
            tr.inpCmd := params.command;
            tr.inpCode := params.code;
          } else {
            state' := ERR_SYNC;
          }
        }
      }
    }

    /** Reads as many payload bytes as the header announced; if none, the deadline decides alone. */
    method ShellReadPayload(link: Link, state: ConnState, tr: Transaction, ghost hdr: Hdr,
                            ghost in0: seq<byte>, ghost out0: seq<byte>)
      returns (state': ConnState, ghost o: RxOutcome)
      requires tr.Valid() && Tracks(link, in0, out0)
      requires if state == CONN_OK then Now(link).pc == ReadingPayload(hdr, []) && |tr.inpPay.data| == Word(hdr, LEN)
               else Lost(Now(link), state)
      modifies tr.inpPay, link`rounds, link`inbox, link`trace, link`clockCount
      ensures Tracks(link, in0, out0) && SameCarry(old(Now(link)), Now(link))
      ensures Waits(link.trace) == old(Waits(link.trace))
      ensures if state' == CONN_OK then Now(link).pc == Executing(hdr, tr.inpPay.data) else Lost(Now(link), state')
      ensures state != CONN_OK ==> state' == state
      ensures state == CONN_OK && Word(hdr, LEN) == 0 ==>
                state' == if link.clock(old(link.clockCount)) < tr.tvExpiration then CONN_OK else ERR_TIMEOUT
      ensures state == CONN_OK ==>
                && Until(o, Word(hdr, LEN), if link.open then |old(link.inbox)| else 0, tr.tvExpiration,
                         link.clock, old(link.clockCount), link.codes, if link.open then old(link.rounds) else [])
                && state' == RxState(o.end)
    {
      hide Runs, Run, Waits, ChunkEvents, Word, ErrorFrame, RxEvent, RxState;
      state', o := state, RxOutcome([], 0, [], 0, RxFull);
      if state == CONN_OK {
        ghost var s, before, pay0, inbox0 := Now(link), link.trace, tr.inpPay.data, link.inbox;
        state', o := FrameRxUntil(state, link, tr.tvExpiration, tr.inpPay);
        ghost var got := Sum(o.cuts);
        PayloadStage(s, before, o, hdr, inbox0[..got], pay0[got..]);
        assert s.input + inbox0 == (s.input + inbox0[..got]) + inbox0[got..];
        assert Tracks(link, in0, out0);
        RxEnds();
      }
    }

    /** Answers a ping, calls the handler for a request, repeats the last codes for anything else. */
    method ShellCmdExec(link: Link, state: ConnState, tr: Transaction, ghost hdr: Hdr,
                        ghost in0: seq<byte>, ghost out0: seq<byte>)
      returns (state': ConnState)
      requires tr.Valid() && Tracks(link, in0, out0) && Obedient(Now(link))
      requires if state == CONN_OK
               then && Now(link).pc == Executing(hdr, tr.inpPay.data)
                    && tr.inpCmd == Word(hdr, CMD) && tr.inpCode == Word(hdr, CODE) && tr.outPay.data == []
                    && tr.outCmd == Now(link).outCmd && tr.outCode == Now(link).outCode
               else Lost(Now(link), state)
      modifies this`served, tr`outCmd, tr`outCode, tr.outHdr, tr.outPay, link`trace
      ensures Tracks(link, in0, out0) && Obedient(Now(link))
      ensures Waits(link.trace) == old(Waits(link.trace))
      ensures if state' == CONN_OK
              then && |tr.outHdr.data| == PREFIX_SIZE && Now(link).pc == Sending(tr.outHdr.data + tr.outPay.data)
                   && tr.outCmd == Now(link).outCmd && tr.outCode == Now(link).outCode
              else Lost(Now(link), state')
      ensures state != CONN_OK ==> state' == state
    {
      hide Runs, Run, Waits, Word, ErrorFrame;
      state' := state;
      if state == CONN_OK {
        ghost var s := Now(link);
        ghost var result := NotCalled;
        if tr.inpCmd == CMD_PING_REQUEST {
          tr.outCmd := CMD_PING_RESPONSE;
          tr.outCode := tr.inpCode;
          tr.outPay.Clear();
        } else if tr.inpCmd == CMD_REQUEST {
          tr.outCmd := CMD_RESPONSE;
          var answer := handler(served, tr.inpPay.data, tr.outCode);
          served := served + 1;
          result := answer;
          if answer.Done? {
            tr.outPay.data := answer.pay;
            tr.outCode := answer.code;
          } else {
            state' := ERR_EXEC;
          }
        }
        ExtendsOne(s, link.trace, Ran(result));
        WaitsOne(link.trace, Ran(result));
        link.Log([Ran(result)]);
        if state' == CONN_OK {
          var ok := SetParams(Params(tr.outCmd, tr.outCode, |tr.outPay.data|), tr.outHdr);
        }
      }
    }

    method ShellSendPrefix(link: Link, state: ConnState, tr: Transaction, ghost in0: seq<byte>, ghost out0: seq<byte>)
      returns (state': ConnState)
      requires Tracks(link, in0, out0)
      requires if state == CONN_OK
               then |tr.outHdr.data| == PREFIX_SIZE && Now(link).pc == Sending(tr.outHdr.data + tr.outPay.data)
               else Lost(Now(link), state)
      modifies link`sendCount, link`outbox, link`broken, link`trace
      ensures Tracks(link, in0, out0) && SameCarry(old(Now(link)), Now(link))
      ensures Waits(link.trace) == old(Waits(link.trace))
      ensures if state' == CONN_OK then Now(link).pc == if tr.outPay.data == [] then Waiting else Sending(tr.outPay.data)
              else Lost(Now(link), state')
      ensures state != CONN_OK ==> state' == state
    {
      hide Runs, Run, Waits, SentEvents, ErrorFrame;
      state' := state;
      if state == CONN_OK {
        ghost var s, before := Now(link), link.trace;
        ghost var cuts;
        state', cuts := FrameTx(state, link, tr.outHdr.data);
        SendStage(s, before, cuts, PREFIX_SIZE, state');
        assert s.pc.rest[..Sum(cuts)] == tr.outHdr.data[..Sum(cuts)];
        assert s.pc.rest[PREFIX_SIZE..] == tr.outPay.data;
      }
    }

    method ShellSendPayload(link: Link, state: ConnState, tr: Transaction, ghost in0: seq<byte>, ghost out0: seq<byte>)
      returns (state': ConnState)
      requires Tracks(link, in0, out0)
      requires if state == CONN_OK then Now(link).pc == if tr.outPay.data == [] then Waiting else Sending(tr.outPay.data)
               else Lost(Now(link), state)
      modifies link`sendCount, link`outbox, link`broken, link`trace
      ensures Tracks(link, in0, out0) && SameCarry(old(Now(link)), Now(link))
      ensures Waits(link.trace) == old(Waits(link.trace))
      ensures if state' == CONN_OK then Now(link).pc == Waiting else Lost(Now(link), state')
      ensures state != CONN_OK ==> state' == state
    {
      hide Runs, Run, Waits, ErrorFrame;
      state' := state;
      if state == CONN_OK {
        ghost var s, before := Now(link), link.trace;
        ghost var cuts;
        state', cuts := FrameTx(state, link, tr.outPay.data);
        if tr.outPay.data == [] {
          assert cuts == [] by { NoCuts(cuts); }
          assert link.trace == before && link.outbox == old(link.outbox);
        } else {
          SendStage(s, before, cuts, |tr.outPay.data|, state');
        }
      }
    }

    /** Tells the client why the session ends, unless the client is the one who left. */
    method ShellClose(link: Link, state: ConnState, ghost in0: seq<byte>, ghost out0: seq<byte>)
      requires Tracks(link, in0, out0) && Lost(Now(link), state)
      modifies link`sendCount, link`outbox, link`broken, link`trace
      ensures Tracks(link, in0, out0) && SameCarry(old(Now(link)), Now(link))
      ensures Waits(link.trace) == old(Waits(link.trace))
      ensures if link.open || state == ERR_CLOSED then Now(link).pc == Gone else link.trace == old(link.trace)
    {
      hide Runs, Run, Waits, SentEvents, Header, StreamPrefix.Valid, Word;
      if link.open {
        if state != ERR_CLOSED {
          ghost var s, before := Now(link), link.trace;
          var frame := new Storage();
          var ok := SetParams(Params(CMD_ERROR, StateCode(state), 0), frame);
          var resp;
          ghost var cuts;
          resp, cuts := FrameTx(CONN_OK, link, frame.data);
          SendStage(s, before, cuts, PREFIX_SIZE, resp);
          ghost var sent := frame.data[..Sum(cuts)];
          assert out0 + (s.output + sent) == (out0 + s.output) + sent;
        }
      }
    }

    /** One turn of `frame_wait`. */
    method FrameWait(select: int) returns (state: ConnState)
      ensures state == if select < 0 then ERR_SELECT else if select == 0 then ERR_TIMEOUT else CONN_OK
    {
      state := CONN_OK;
      if select < 0 {
        state := ERR_SELECT;
      } else if select == 0 {
        state := ERR_TIMEOUT;
      }
    }

    /** Records what a waiting session has been told. */
    ghost method Observe(link: Link, e: Event, in0: seq<byte>, out0: seq<byte>)
      requires Tracks(link, in0, out0) && Now(link).pc == Waiting && (e.Ready? || e.Quiet? || e.WaitFail? || e.Stopped?)
      modifies link`trace
      ensures Tracks(link, in0, out0)
      ensures Now(link) == old(Now(link)).(pc := if e.Ready? then ReadingHeader([]) else if e.Quiet? then Waiting else Gone)
      ensures Waits(link.trace) == old(Waits(link.trace)) + [e]
    {
      hide Runs, Run, Waits;
      ExtendsOne(Now(link), link.trace, e);
      WaitsOne(link.trace, e);
      link.Log([e]);
    }

    /** One exchange, from the first byte of a request to the last byte of its reply. */
    method Exchange(link: Link, tr: Transaction, ghost in0: seq<byte>, ghost out0: seq<byte>) returns (state: ConnState)
      requires tr.Valid() && Tracks(link, in0, out0) && Obedient(Now(link)) && Now(link).pc == ReadingHeader([])
      requires tr.outCmd == Now(link).outCmd && tr.outCode == Now(link).outCode
      requires this !in tr.Repr && link !in tr.Repr
      modifies this`served, tr.Repr
      modifies link`rounds, link`inbox, link`clockCount, link`sendCount, link`outbox, link`broken, link`trace
      ensures Tracks(link, in0, out0) && Obedient(Now(link))
      ensures if state == CONN_OK
              then Now(link).pc == Waiting && tr.outCmd == Now(link).outCmd && tr.outCode == Now(link).outCode
              else Lost(Now(link), state)
      ensures Waits(link.trace) == old(Waits(link.trace))
    {
      hide Runs, Run, Waits, Lost, Word;
      state := CONN_OK;
      ShellCmdStart(link, tr);
      ghost var o;
      state, o := ShellReadPrefix(link, state, tr, in0, out0);
      ghost var hdr: Hdr := if state == CONN_OK then tr.inpHdr.data else Zeros(PREFIX_SIZE);
      state, o := ShellReadPayload(link, state, tr, hdr, in0, out0);
      state := ShellCmdExec(link, state, tr, hdr, in0, out0);
      state := ShellSendPrefix(link, state, tr, in0, out0);
      state := ShellSendPayload(link, state, tr, in0, out0);
      tr.Reset();
    }

    /**
     A whole session. Turn by turn it is told what the stop flag and `select` say, and it ends
     only when stopped, when a wait fails or after a failed exchange. Its history is a run of
     the session machine, so that with no timeout and no failure its calls and the bytes it
     sent are the reference responder's for the bytes it read, whoever left first, and for
     all the bytes it was offered if and only if enough turns are ready; and with no failed
     send the bytes split into frames, one for each request read whole if and only if the
     session did not end late and the handler failed in no call.
     */
    method Shell(link: Link, turns: seq<Turn>)
      requires link.open && link.trace == [] && served == 0
      modifies this`served, link
      ensures !link.open
      ensures Tracks(link, old(link.inbox), old(link.outbox)) && Obedient(Now(link)) && Now(link).pc == Gone
      ensures ByTurns(Waits(link.trace), turns) && LeftBy(Now(link), Waits(link.trace), link.trace)
      ensures AllClean(link.trace) ==> AllAnswered(Now(link), link.outbox[|old(link.outbox)|..])
      ensures AllClean(link.trace) && Uninterrupted(turns) && (PeerLeft(link.trace) ==> link.inbox == []) ==>
                OfferAnswered(Now(link), link.outbox[|old(link.outbox)|..], old(link.inbox), turns)
      ensures NoneUnsent(link.trace) ==> FramedReplies(Now(link), link.outbox[|old(link.outbox)|..])
      ensures NoneBroken(link.trace) ==> InOrder(Now(link), link.trace)
      ensures NoneUnsent(link.trace) && NoneBroken(link.trace) ==>
                OnePerRequest(Now(link), link.trace, link.outbox[|old(link.outbox)|..])
    {
      hide AllAnswered, OfferAnswered, FramedReplies, InOrder, OnePerRequest, AllClean, NoneUnsent, NoneBroken,
           Lost, Step, Enabled, LeftBy, PeerLeft, Uninterrupted, ByTurns;
      ghost var in0, out0 := link.inbox, link.outbox;
      assert [] + in0 == in0 && out0 + [] == out0;
      var tr := new Transaction();
      var i := 0;
      assert Tracks(link, in0, out0) && Obedient(Now(link)) && Now(link).pc == Waiting;
      assert tr.outCmd == Now(link).outCmd && tr.outCode == Now(link).outCode;
      assert Waits(link.trace) == [];
      NothingTold(turns);
      hide Runs, Run, Waits;
      while true
        invariant 0 <= i <= |turns| && link.open && tr.Valid() && fresh(tr.Repr)
        invariant Tracks(link, in0, out0) && Obedient(Now(link)) && Now(link).pc == Waiting
        invariant tr.outCmd == Now(link).outCmd && tr.outCode == Now(link).outCode
        invariant |Waits(link.trace)| == i && ByTurns(Waits(link.trace), turns)
        decreases |turns| - i
      {
        Told(Waits(link.trace), turns);
        if i == |turns| || turns[i].stop {
          Observe(link, Stopped, in0, out0);
          break;
        }
        var state := FrameWait(turns[i].select);
        i := i + 1;
        if state == ERR_TIMEOUT {
          Observe(link, Quiet, in0, out0);
          continue;
        }
        if state != CONN_OK {
          Observe(link, WaitFail, in0, out0);
          break;
        }
        Observe(link, Ready, in0, out0);
        state := Exchange(link, tr, in0, out0);
        if state != CONN_OK {
          ShellClose(link, state, in0, out0);
          break;
        }
      }
      link.open := false;
      Promises(link, in0, out0, turns);
    }

    /** The session has made the calls and sent the bytes of the reference responder. */
    ghost predicate AllAnswered(s: Session, sent: seq<byte>) {
      var r := Respond(handler, 0, 0, 0, s.input);
      sent == Wire(r) && s.calls == r.calls
    }

    /**
     The same for what it was offered, if and only if it had a ready turn for each frame of
     the answer; and whole requests for which the handler does not fail are then all read.
     */
    ghost predicate OfferAnswered(s: Session, sent: seq<byte>, offered: seq<byte>, turns: seq<Turn>) {
      var r := Respond(handler, 0, 0, 0, offered);
      && (sent == Wire(r) && s.calls == r.calls <==> ReadyTurns(turns) >= Frames(r))
      && (SplitFrames(offered).1 == [] && AllDone(r.calls) && ReadyTurns(turns) >= |Requests(offered)| ==>
            s.input == offered)
    }

    ghost predicate FramedReplies(s: Session, sent: seq<byte>) {
      IsFinal(s.final) && SplitFrames(sent) == (s.replies + Finals(s.final), [])
    }

    /** The replies are the responder's and fit the requests; none is missing but for the two reasons there are. */
    ghost predicate InOrder(s: Session, events: seq<Event>)
      requires Runs(SESSION_START, events)
    {
      var r, requests := Respond(handler, 0, 0, 0, s.input), Requests(s.input);
      && s.replies <= r.replies && s.calls <= r.calls
      && (s.replies == r.replies && s.calls == r.calls <==> !EndsLate(SESSION_START, events))
      && AllFrames(requests) && AllFit(requests, s.replies)
      && (|s.replies| == |requests| <==> !EndsLate(SESSION_START, events) && AllDone(r.calls))
    }

    /** The same of the frames the client gets. */
    ghost predicate OnePerRequest(s: Session, events: seq<Event>, sent: seq<byte>)
      requires Runs(SESSION_START, events)
    {
      var r, requests, frames := Respond(handler, 0, 0, 0, s.input), Requests(s.input), SplitFrames(sent).0;
      && (|frames| == |requests| + |Finals(s.final)| <==> !EndsLate(SESSION_START, events) && AllDone(r.calls))
      && (frames == r.replies + Finals(s.final) && s.calls == r.calls <==> !EndsLate(SESSION_START, events))
    }

    /** What the history of an ended session says about its output. */
    lemma Promises(link: Link, in0: seq<byte>, out0: seq<byte>, turns: seq<Turn>)
      requires Tracks(link, in0, out0) && Obedient(Now(link)) && Now(link).pc == Gone
      requires ByTurns(Waits(link.trace), turns)
      ensures var s, sent := Now(link), link.outbox[|out0|..];
              && LeftBy(s, Waits(link.trace), link.trace)
              && (AllClean(link.trace) ==> AllAnswered(s, sent))
              && (AllClean(link.trace) && Uninterrupted(turns) && (PeerLeft(link.trace) ==> link.inbox == []) ==>
                    OfferAnswered(s, sent, in0, turns))
              && (NoneUnsent(link.trace) ==> FramedReplies(s, sent))
              && (NoneBroken(link.trace) ==> InOrder(s, link.trace))
              && (NoneUnsent(link.trace) && NoneBroken(link.trace) ==> OnePerRequest(s, link.trace, sent))
    {
      hide Respond, SplitFrames, Runs, Run, IsFinal, AllClean, NoneUnsent, NoneBroken, Wire, Finals, EndsLate,
           Requests, AllFit, AllFrames, AllDone, Waits, ByTurns, Uninterrupted, LeftBy, PeerLeft, ReadyTurns;
      assert link.outbox[|out0|..] == Now(link).output;
      LoopIsLeft(link.trace);
      if AllClean(link.trace) {
        ChunkingIndependence(handler, link.trace);
        if Uninterrupted(turns) && (PeerLeft(link.trace) ==> link.inbox == []) {
          assert Now(link).input + [] == Now(link).input;
          OfferedInput(handler, link.trace, turns, in0);
          if SplitFrames(in0).1 == [] && AllDone(Respond(handler, 0, 0, 0, in0).calls)
             && ReadyTurns(turns) >= |Requests(in0)| {
            OfferedIsRead(handler, link.trace, turns, in0);
          }
        }
      }
      if NoneUnsent(link.trace) {
        WellFramedOutput(link.trace);
        if NoneBroken(link.trace) {
          OneReplyPerRequest(handler, link.trace);
        }
      }
      if NoneBroken(link.trace) {
        RepliesInRequestOrder(handler, link.trace);
        RequestsAnswered(handler, link.trace);
      }
    }
  }

  /** What one exchange hands to the next. */
  ghost predicate SameCarry(s: Session, s': Session) {
    s'.calls == s.calls && s'.outCmd == s.outCmd && s'.outCode == s.outCode
  }
}
