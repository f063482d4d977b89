/** The client object: `connect`, the four stages of a transaction, the retry, and the sync. */
module SocketClient {
  import opened Bytes
  import opened Buffers
  import opened StreamPrefix
  import opened Transfer
  import opened Transaction
  import opened Client
  import opened ClientLaws
  import opened TransferLaws

  /** What `socket` and `connect` answer. */
  datatype ConnectAnswer = NoSocket | Refused | Accepted

  /** The events a call has made on a socket since `past` are a run of the machine from `c0`. */
  ghost predicate Follows(link: Link, past: seq<Event>, c0: Client)
    reads link
  {
    past <= link.trace && Runs(c0, link.trace[|past|..]) && OnSocket(link.trace[|past|..])
  }

  ghost function Now(link: Link, past: seq<Event>, c0: Client): Client
    reads link
    requires Follows(link, past, c0)
  {
    Run(c0, link.trace[|past|..])
  }

  lemma Extend(t: seq<Event>, past: seq<Event>, c0: Client, events: seq<Event>)
    requires past <= t && Runs(c0, t[|past|..]) && Runs(Run(c0, t[|past|..]), events)
    ensures Runs(c0, (t + events)[|past|..]) && Run(c0, (t + events)[|past|..]) == Run(Run(c0, t[|past|..]), events)
  {
    hide Runs, Run;
    assert (t + events)[|past|..] == t[|past|..] + events;
    RunAppend(c0, t[|past|..], events);
  }

  lemma ExtendOne(t: seq<Event>, past: seq<Event>, c0: Client, e: Event)
    requires past <= t && Runs(c0, t[|past|..]) && Enabled(Run(c0, t[|past|..]), e)
    ensures Runs(c0, (t + [e])[|past|..]) && Run(c0, (t + [e])[|past|..]) == Step(Run(c0, t[|past|..]), e)
  {
    hide Runs, Run, Step, Enabled;
    assert (t + [e])[|past|..] == t[|past|..] + [e];
    RunOne(c0, t[|past|..], e);
  }

  /** Sending a first part of the request, or the ping. */
  lemma SendStage(t: seq<Event>, past: seq<Event>, c0: Client, cuts: seq<nat>, part: nat, state: ConnState)
    requires past <= t && Runs(c0, t[|past|..]) && OnSocket(t[|past|..])
    requires var c := Run(c0, t[|past|..]);
             && (c.at.Asking? || c.at.Pinging?) && 0 < part <= |c.at.rest|
             && (cuts != [] ==> c.open) && (state == ERR_CLOSED ==> c.open)
    requires Sum(cuts) <= part && forall i :: 0 <= i < |cuts| ==> cuts[i] >= 1
    requires state in {CONN_OK, ERR_TX, ERR_CLOSED} && (state == CONN_OK <==> Sum(cuts) == part)
    ensures var c := Run(c0, t[|past|..]);
            var t' := t + SentEvents(cuts) + if state != CONN_OK then [TxFail(state)] else [];
            && Runs(c0, t'[|past|..]) && OnSocket(t'[|past|..])
            && var c' := Run(c0, t'[|past|..]);
               && (state == CONN_OK ==> c' == AfterSending(c, part))
               && (state != CONN_OK && c.at.Asking? ==> c' == Lose(c, state))
               && (state != CONN_OK && c.at.Pinging? ==> c' == c.(at := Idle, outcome := Synced(false)))
  {
    hide Runs, Run;
    var c := Run(c0, t[|past|..]);
    SendCuts(c, cuts);
    Extend(t, past, c0, SentEvents(cuts));
    if state == CONN_OK {
      assert t + SentEvents(cuts) + [] == t + SentEvents(cuts);
    } else {
      ExtendOne(t + SentEvents(cuts), past, c0, TxFail(state));
    }
  }

  /** Receiving whatever the loop delivered. */
  lemma ReceiveStage(t: seq<Event>, past: seq<Event>, c0: Client, o: RxOutcome, bytes: seq<byte>, rest: seq<byte>)
    requires past <= t && Runs(c0, t[|past|..]) && OnSocket(t[|past|..])
    requires var c := Run(c0, t[|past|..]); Receiving(c.at) && c.at.got == [] && |bytes| + |rest| == Needed(c.at)
    requires Sum(o.cuts) == |bytes| && EndsProperly(o, |bytes| + |rest|)
    ensures var c := Run(c0, t[|past|..]);
            var t' := t + ChunkEvents(bytes, o.cuts) + [RxEvent(o.end, rest)];
            && Runs(c0, t'[|past|..]) && OnSocket(t'[|past|..])
            && Run(c0, t'[|past|..])
               == (var whole := bytes + rest;
                   match c.at
                   case AwaitingHeader(_) =>
                     if RxState(o.end) == CONN_OK then GotHeader(c, whole) else Lose(c, RxState(o.end))
                   case AwaitingPong(_) =>
                     if RxState(o.end) == CONN_OK then GotPong(c, whole) else c.(at := Idle, outcome := Synced(false))
                   case AwaitingPayload(hdr, _) =>
                     if RxState(o.end) == CONN_OK then c.(at := Idle, outcome := Reply(hdr, whole))
                     else Lose(c, RxState(o.end)))
  {
    hide Runs, Run, Word, Valid, ChunkEvents;
    var c := Run(c0, t[|past|..]);
    var chunks, last := ChunkEvents(bytes, o.cuts), RxEvent(o.end, rest);
    ReceiveCuts(c, bytes, o.cuts);
    assert [] + bytes == bytes;
    Extend(t, past, c0, chunks);
    if o.end == RxFull {
      assert bytes + [] == bytes + rest;
    }
    ExtendOne(t + chunks, past, c0, last);
  }

  lemma SyncTimely(o: RxOutcome, need: nat, avail: nat, count: nat, ms: int, clock: nat -> int,
                   codes: Codes, rounds: seq<Round>)
    requires o == RxLoop(need, avail, clock(count) + ms * NS_PER_MS, clock(count), codes, rounds)
    ensures o.end == RxEnded(ERR_TIMEOUT) ==> o.stamp > clock(count) + 1_000_000 * ms - 1_001_000
    ensures WaitsEndBy(o.waits, clock(count) + 1_000_000 * ms)
  {
    hide RxLoop;
    LoopKeepsDeadline(need, avail, clock(count) + ms * NS_PER_MS, clock(count), codes, rounds);
  }

  lemma LastIsTimeout(end: RxEnd, rest: seq<byte>)
    ensures RxEvent(end, rest) == RxFail(ERR_TIMEOUT) ==> end == RxEnded(ERR_TIMEOUT)
  {
  }

  /**
   What a transaction returns, by the events of the attempt that counts: without a failed
   `select`, true exactly if it received one whole valid frame and its last receive did not
   fail, and then what that frame holds.
   */
  ghost predicate Returns(ok: bool, inFrame: seq<byte>, inCode: u32, last: seq<Event>) {
    NoneBroke(last) ==>
      && (ok <==> WholeReply(ChunkBytes(last)) && !EndsInFailedReceive(last))
      && (ok ==> inFrame == ChunkBytes(last)[24..] && inCode == Word(ChunkBytes(last), 2))
  }

  /** What a finished attempt comes to. */
  lemma Concluded(c: Client, events: seq<Event>)
    requires Runs(c, events) && OnSocket(events) && (c.at.Asking? || (events == [] && c.at.Idle? && c.outcome.Failed?))
    ensures var t := Run(c, events);
            && (t.at.Idle? && t.outcome.Reply? ==> Returns(true, t.outcome.pay, Word(t.outcome.hdr, CODE), events))
            && (t.at.Idle? && t.outcome.Failed? ==> Returns(false, [], 0, events))
  {
    hide Enabled, Step, Word;
    assert !WholeReply([]);
    if NoneBroke(events) && c.at.Asking? {
      AttemptConcludes(c, events);
      assert [] + ChunkBytes(events) == ChunkBytes(events);
      if Run(c, events).at.Idle? && Run(c, events).outcome.Reply? {
        SameFirstWords(Run(c, events).outcome.hdr, ChunkBytes(events));
      }
    }
  }

  lemma SyncConcluded(c: Client, events: seq<Event>)
    requires c.at.Pinging? && Runs(c, events) && OnSocket(events)
    requires Run(c, events).at.Idle? && Run(c, events).outcome.Synced?
    ensures NoneBroke(events) ==> (Run(c, events).outcome.ok <==> PongFor(ChunkBytes(events), Run(c, events).rand))
  {
    hide Enabled, Step, Word, PongFor;
    if NoneBroke(events) {
      AttemptConcludes(c, events);
      assert [] + ChunkBytes(events) == ChunkBytes(events);
    }
  }

  class SocketClient {
    var sock: Link

    constructor (sock: Link)
      ensures this.sock == sock
    {
      this.sock := sock;
    }

    /** Closes what is open, whatever happens next. */
    method SocketClose()
      modifies sock`open
      ensures !sock.open
    {
      sock.open := false;
    }

    /** Closes the old socket and tries a new one; `next` is the socket the system would give. */
    method Reconnect(next: Link, answer: ConnectAnswer) returns (state: ConnState)
      requires next != sock
      modifies this`sock, sock`open
      ensures !old(sock).open && old(sock).trace == old(sock.trace)
      ensures state == match answer case NoSocket => ERR_OPEN case Refused => ERR_CONNECT case Accepted => CONN_OK
      ensures sock == if answer == NoSocket then old(sock) else next
    {
      SocketClose();
      if answer == NoSocket {
        state := ERR_OPEN;
      } else {
        sock := next;
        state := if answer == Accepted then CONN_OK else ERR_CONNECT;
      }
    }

    method SendPrefix(state: ConnState, ms: int, tr: Transaction, frame: Payload, ghost past: seq<Event>, ghost c0: Client)
      returns (state': ConnState)
      requires tr.Valid() && sock !in tr.Repr && Follows(sock, past, c0)
      requires state == CONN_OK ==>
                 Now(sock, past, c0) == c0 && c0.at == Asking(RequestFrame(frame, ms)) && c0.open == sock.open
      modifies tr.outHdr, sock`sendCount, sock`outbox, sock`broken, sock`trace
      ensures Follows(sock, past, c0)
      ensures state' == CONN_OK ==>
                && state == CONN_OK
                && Now(sock, past, c0) == c0.(at := if frame == [] then AwaitingHeader([]) else Asking(frame))
      ensures state != CONN_OK ==> state' == state && Now(sock, past, c0) == old(Now(sock, past, c0))
      ensures state == CONN_OK && state' != CONN_OK ==>
                Now(sock, past, c0) == Lose(c0, state') && state' in {ERR_TX, ERR_CLOSED}
    {
      hide Runs, Run, SentEvents, Header;
      state' := state;
      if state == CONN_OK {
        var ok := SetParams(Params(CMD_REQUEST, 0, |frame|), tr.outHdr);
        ok := SetTimeout(ms, tr.outHdr);
        TimeoutOfHeader(CMD_REQUEST, 0, 0, |frame|, ms);
        ghost var t := sock.trace;
        ghost var cuts;
        state', cuts := FrameTx(state, sock, tr.outHdr.data);
        SendStage(t, past, c0, cuts, PREFIX_SIZE, state');
        assert RequestFrame(frame, ms)[PREFIX_SIZE..] == frame;
      }
    }

    method SendPayload(state: ConnState, frame: Payload, ghost past: seq<Event>, ghost c0: Client)
      returns (state': ConnState)
      requires Follows(sock, past, c0)
      requires state == CONN_OK ==>
                 && Now(sock, past, c0) == c0.(at := if frame == [] then AwaitingHeader([]) else Asking(frame))
                 && c0.open == sock.open
      modifies sock`sendCount, sock`outbox, sock`broken, sock`trace
      ensures Follows(sock, past, c0)
      ensures state' == CONN_OK ==> state == CONN_OK && Now(sock, past, c0) == c0.(at := AwaitingHeader([]))
      ensures state != CONN_OK ==> state' == state && Now(sock, past, c0) == old(Now(sock, past, c0))
      ensures state == CONN_OK && state' != CONN_OK ==>
                && state' in {ERR_TX, ERR_CLOSED}
                && Now(sock, past, c0) == Lose(c0.(at := Asking(frame)), state')
    {
      hide Runs, Run;
      state' := state;
      if state == CONN_OK {
        ghost var t := sock.trace;
        ghost var cuts;
        state', cuts := FrameTx(state, sock, frame);
        if frame == [] {
          NoCuts(cuts);
          assert sock.trace == t;
        } else {
          SendStage(t, past, c0, cuts, |frame|, state');
        }
      }
    }

    method RecvHeader(state: ConnState, tr: Transaction, ghost past: seq<Event>, ghost c0: Client)
      returns (state': ConnState, ghost o: RxOutcome)
      requires tr.Valid() && sock !in tr.Repr && Follows(sock, past, c0)
      requires state == CONN_OK ==> Now(sock, past, c0) == c0.(at := AwaitingHeader([]))
      modifies tr`outCmd, tr`outCode, tr`inpCmd, tr.inpHdr, tr.inpPay
      modifies sock`rounds, sock`inbox, sock`trace, sock`clockCount
      ensures Follows(sock, past, c0)
      ensures state' == CONN_OK ==>
                && state == CONN_OK && |tr.inpHdr.data| == PREFIX_SIZE && Valid(tr.inpHdr.data)
                && Now(sock, past, c0) == c0.(at := AwaitingPayload(tr.inpHdr.data, []))
                && tr.outCode == Word(tr.inpHdr.data, CODE) && |tr.inpPay.data| == Word(tr.inpHdr.data, LEN)
      ensures state != CONN_OK ==> state' == state && Now(sock, past, c0) == old(Now(sock, past, c0))
      ensures state == CONN_OK && state' != CONN_OK ==>
                Now(sock, past, c0) == Lose(c0.(at := AwaitingHeader([])), state')
      ensures state == CONN_OK ==>
                && Until(o, PREFIX_SIZE, if sock.open then |old(sock.inbox)| else 0, tr.tvExpiration,
                         sock.clock, old(sock.clockCount), sock.codes, if sock.open then old(sock.rounds) else [])
                && (state' == RxState(o.end) || (RxState(o.end) == CONN_OK && state' == ERR_SYNC))
    {
      hide Runs, Run, Word, StreamPrefix.Valid, ChunkEvents, RxEvent, Until;
      state', o := state, RxOutcome([], 0, [], 0, RxFull);
      if state == CONN_OK {
        tr.inpHdr.Resize(PREFIX_SIZE);
        ghost var t, hdr0, inbox0 := sock.trace, tr.inpHdr.data, sock.inbox;
        state', o := FrameRxUntil(state, sock, tr.tvExpiration, tr.inpHdr);
        ghost var got := Sum(o.cuts);
        ReceiveStage(t, past, c0, o, inbox0[..got], hdr0[got..]);
        if state' == CONN_OK {
          if StreamPrefix.Valid(tr.inpHdr.data) {
            ValidIffSum(tr.inpHdr.data);
            var ok, params := GetParams(tr.inpHdr);
            tr.outCmd := params.command;
            tr.outCode := params.code;
            tr.inpPay.Resize(params.len);
            tr.inpCmd := params.command;
          } else {
            state' := ERR_SYNC;
          }
        }
      }
    }

    method RecvPayload(state: ConnState, tr: Transaction, ghost hdr: Hdr, ghost past: seq<Event>, ghost c0: Client)
      returns (state': ConnState, ghost o: RxOutcome)
      requires tr.Valid() && sock !in tr.Repr && Follows(sock, past, c0)
      requires state == CONN_OK ==>
                 Now(sock, past, c0) == c0.(at := AwaitingPayload(hdr, [])) && |tr.inpPay.data| == Word(hdr, LEN)
      modifies tr.inpPay, sock`rounds, sock`inbox, sock`trace, sock`clockCount
      ensures Follows(sock, past, c0)
      ensures state' == CONN_OK ==>
                state == CONN_OK && Now(sock, past, c0) == c0.(at := Idle, outcome := Reply(hdr, tr.inpPay.data))
      ensures state != CONN_OK ==> state' == state && Now(sock, past, c0) == old(Now(sock, past, c0))
      ensures state == CONN_OK && state' != CONN_OK ==>
                Now(sock, past, c0) == Lose(c0.(at := AwaitingPayload(hdr, [])), state')
      ensures state == CONN_OK ==>
                && Until(o, Word(hdr, LEN), if sock.open then |old(sock.inbox)| else 0, tr.tvExpiration,
                         sock.clock, old(sock.clockCount), sock.codes, if sock.open then old(sock.rounds) else [])
                && state' == RxState(o.end)
    {
      hide Runs, Run, Word, ChunkEvents, RxEvent, Until;
      state', o := state, RxOutcome([], 0, [], 0, RxFull);
      if state == CONN_OK {
        ghost var t, pay0, inbox0 := sock.trace, tr.inpPay.data, sock.inbox;
        state', o := FrameRxUntil(state, sock, tr.tvExpiration, tr.inpPay);
        ghost var got := Sum(o.cuts);
        ReceiveStage(t, past, c0, o, inbox0[..got], pay0[got..]);
      }
    }

    /** The header of the reply, and then its payload. */
    method RecvReply(state: ConnState, tr: Transaction, ghost past: seq<Event>, ghost c0: Client)
      returns (state': ConnState, ghost stamp: int, ghost waits: seq<Wait>)
      requires tr.Valid() && sock !in tr.Repr && Follows(sock, past, c0)
      requires state == CONN_OK ==> Now(sock, past, c0) == c0.(at := AwaitingHeader([]))
      modifies tr`outCmd, tr`outCode, tr`inpCmd, tr.inpHdr, tr.inpPay
      modifies sock`rounds, sock`inbox, sock`trace, sock`clockCount
      ensures Follows(sock, past, c0)
      ensures state' == CONN_OK ==>
                && state == CONN_OK && |tr.inpHdr.data| == PREFIX_SIZE && tr.outCode == Word(tr.inpHdr.data, CODE)
                && Now(sock, past, c0) == c0.(at := Idle, outcome := Reply(tr.inpHdr.data, tr.inpPay.data))
      ensures state != CONN_OK ==> state' == state && Now(sock, past, c0) == old(Now(sock, past, c0))
      ensures state == CONN_OK && state' != CONN_OK ==> Now(sock, past, c0) == Lose(c0, state')
      ensures InTime(state == CONN_OK && state' == ERR_TIMEOUT, stamp, waits, tr.tvExpiration, sock.clock, sock.clock)
    {
      hide Runs, Run, Word, StreamPrefix.Valid, Until, InTime;
      stamp, waits := 0, [];
      NoneInTime(stamp, tr.tvExpiration, sock.clock);
      ghost var count, rounds := sock.clockCount, if sock.open then sock.rounds else [];
      ghost var avail := if sock.open then |sock.inbox| else 0;
      ghost var o1, o2;
      state', o1 := RecvHeader(state, tr, past, c0);
      if state == CONN_OK {
        UntilInTime(o1, PREFIX_SIZE, avail, tr.tvExpiration, sock.clock, count, sock.codes, rounds);
        stamp, waits := o1.stamp, o1.waits;
        OneInTime(o1.end == RxEnded(ERR_TIMEOUT), state' == ERR_TIMEOUT, stamp, waits,
                  tr.tvExpiration, sock.clock, sock.clock);
      }
      ghost var hdr: Hdr := if state' == CONN_OK then tr.inpHdr.data else Zeros(PREFIX_SIZE);
      ghost var before := state';
      count, rounds := sock.clockCount, if sock.open then sock.rounds else [];
      avail := if sock.open then |sock.inbox| else 0;
      state', o2 := RecvPayload(state', tr, hdr, past, c0);
      if before == CONN_OK {
        UntilInTime(o2, Word(hdr, LEN), avail, tr.tvExpiration, sock.clock, count, sock.codes, rounds);
        ThenInTime(o1.end == RxEnded(ERR_TIMEOUT), o1.stamp, o1.waits, o2.end == RxEnded(ERR_TIMEOUT),
                   o2.stamp, o2.waits, tr.tvExpiration, sock.clock, sock.clock);
        stamp, waits := o2.stamp, o1.waits + o2.waits;
        OneInTime(o2.end == RxEnded(ERR_TIMEOUT), state' == ERR_TIMEOUT, stamp, waits,
                  tr.tvExpiration, sock.clock, sock.clock);
      }
    }

    /** One attempt: send the request, receive the reply; with its waits and the clock reading at the end. */
    method TransactionInt(state: ConnState, ms: int, tr: Transaction, frame: Payload, ghost c0: Client)
      returns (state': ConnState, ghost past: seq<Event>, ghost stamp: int, ghost waits: seq<Wait>)
      requires tr.Valid() && sock !in tr.Repr && this !in tr.Repr
      requires state == CONN_OK ==> c0.at == Asking(RequestFrame(frame, ms)) && c0.open == sock.open
      modifies tr`outCmd, tr`outCode, tr`inpCmd, tr.inpHdr, tr.inpPay, tr.outHdr
      modifies sock`sendCount, sock`outbox, sock`broken, sock`trace, sock`rounds, sock`inbox, sock`clockCount
      ensures past == old(sock.trace) && Follows(sock, past, c0)
      ensures state != CONN_OK ==> state' == state && sock.trace == old(sock.trace) && waits == []
      ensures state == CONN_OK && state' == CONN_OK ==>
                && |tr.inpHdr.data| == PREFIX_SIZE && tr.outCode == Word(tr.inpHdr.data, CODE)
                && Now(sock, past, c0) == c0.(at := Idle, outcome := Reply(tr.inpHdr.data, tr.inpPay.data))
      ensures state == CONN_OK && state' != CONN_OK ==> Now(sock, past, c0) == Lose(c0, state')
      ensures InTime(state == CONN_OK && state' == ERR_TIMEOUT, stamp, waits, tr.tvExpiration, sock.clock, sock.clock)
    {
      hide Word, StreamPrefix.Valid, Header, Until, InTime;
      state', stamp, waits := state, 0, [];
      NoneInTime(stamp, tr.tvExpiration, sock.clock);
      past := sock.trace;
      assert sock.trace[|past|..] == [];
      if state == CONN_OK {
        hide Runs, Run;
        assert Runs(c0, []) && Run(c0, []) == c0 by { Still(c0); }
        state' := SendPrefix(state', ms, tr, frame, past, c0);
        state' := SendPayload(state', frame, past, c0);
        state', stamp, waits := RecvReply(state', tr, past, c0);
      }
    }

    lemma Still(c: Client)
      ensures Runs(c, []) && Run(c, []) == c
    {
    }

    /** The second attempt, on a new connection. */
    method Retry(ms: int, tr: Transaction, frame: Payload, next: Link, answer: ConnectAnswer, ghost c: Client)
      returns (state: ConnState, ghost second: seq<Event>, ghost stamp: int, ghost waits: seq<Wait>)
      requires tr.Valid() && {sock, next, this} !! tr.Repr
      requires next != sock && next.open && next.trace == []
      requires c.frame == frame && c.ms == ms
      modifies this`sock, sock, next, tr`outCmd, tr`outCode, tr`inpCmd, tr.inpHdr, tr.inpPay, tr.outHdr
      ensures old(sock).trace == old(sock.trace)
      ensures sock == if answer == NoSocket then old(sock) else next
      ensures second == if answer == NoSocket then [] else next.trace
      ensures if state == CONN_OK then Returns(true, tr.inpPay.data, tr.outCode, second) else Returns(false, [], 0, second)
      ensures Runs(AfterReconnect(c, answer), second) && OnSocket(second)
      ensures InTime(state == ERR_TIMEOUT, stamp, waits, tr.tvExpiration, next.clock, next.clock)
      ensures var c' := Run(AfterReconnect(c, answer), second);
              && c'.at == Idle
              && (if state == CONN_OK then
                    && |tr.inpHdr.data| == PREFIX_SIZE && tr.outCode == Word(tr.inpHdr.data, CODE)
                    && c'.open == sock.open && c'.outcome == Reply(tr.inpHdr.data, tr.inpPay.data)
                  else c'.outcome == Failed(state) && !c'.open)
    {
      hide Word, RequestFrame, Header, StreamPrefix.Valid, InTime, OnSocket, Returns;
      state := Reconnect(next, answer);
      ghost var c2 := AfterReconnect(c, answer);
      ghost var past;
      state, past, stamp, waits := TransactionInt(state, ms, tr, frame, c2);
      if answer == NoSocket {
        NoneInTime(stamp, tr.tvExpiration, next.clock);
      }
      second := sock.trace[|past|..];
      if answer != Accepted {
        assert second == [];
      }
      if answer != NoSocket {
        assert second == next.trace;
      }
      Concluded(c2, second);
    }

    /**
     A transaction. Its events on the old socket (`first`) and, after a retry, on the new
     one (`second`) are a run of the client machine, and what it returns is that run's outcome.
     It is tried again exactly after a send or a receive that failed for good. Without a failed
     `select` it returns true exactly if the attempt that counts received one whole valid frame
     and its last receive did not fail, and returns what that frame holds. A timeout is not
     reported early.
     */
    method Transaction(ms: int, frame: Payload, next: Link, answer: ConnectAnswer, ghost c0: Client)
      returns (ok: bool, inFrame: seq<byte>, inCode: u32, ghost retried: bool,
               ghost first: seq<Event>, ghost second: seq<Event>, ghost stamp: int, ghost waits: seq<Wait>)
      requires c0.at == Idle && c0.open == sock.open
      requires next != sock && next.open && next.trace == []
      modifies this, sock, next
      ensures old(sock).trace == old(sock.trace) + first
      ensures sock == if retried && answer != NoSocket then next else old(sock)
      ensures retried && answer != NoSocket ==> next.trace == second
      ensures retried <==> first != [] && FailedForGood(first[|first| - 1])
      ensures !retried ==> second == []
      ensures Returns(ok, inFrame, inCode, if retried then second else first)
      ensures var events := CallEvents(Begin(frame, ms), retried, answer, first, second);
              && Runs(c0, events)
              && var c := Run(c0, events);
                 && c.at == Idle && c.open == sock.open
                 && (if ok then c.outcome.Reply? && inFrame == c.outcome.pay && inCode == Word(c.outcome.hdr, CODE)
                     else c.outcome.Failed? && !sock.open && inFrame == [] && inCode == 0)
                 && InTime(c.outcome == Failed(ERR_TIMEOUT), stamp, waits,
                           old(sock).clock(old(sock.clockCount)) + 1_000_000 * ms, old(sock).clock, next.clock)
    {
      hide Word, RequestFrame, Header, StreamPrefix.Valid, ConnectEvent, InTime, Returns, FailedForGood, OnSocket;
      hide Runs, Run, Step, CallEvents, Enabled, Receives, GotHeader, GotPong, AfterReconnect;
      ok, inFrame, inCode, retried, second := false, [], 0, false, [];
      var tr := new Transaction();
      tr.Start(ms * NS_PER_MS, sock);
      Begins(c0, frame, ms);
      ghost var c1 := Step(c0, Begin(frame, ms));
      var state;
      ghost var past;
      state, past, stamp, waits := TransactionInt(CONN_OK, ms, tr, frame, c1);
      ghost var clock, late := sock.clock, state == ERR_TIMEOUT;
      OneInTime(late, late, stamp, waits, tr.tvExpiration, clock, next.clock);
      first := sock.trace[|past|..];
      ghost var c := Run(c1, first);
      CallRuns(c0, Begin(frame, ms), answer, first);
      RetriesExactly(c1, first);
      Concluded(c1, first);
      if state == ERR_TX || state == ERR_RX {
        retried := true;
        assert c == Lose(c1, state) && c.at == Reconnecting;
        ghost var before, waits1 := stamp, waits;
        state, second, stamp, waits := Retry(ms, tr, frame, next, answer, c);
        ThenInTime(late, before, waits1, state == ERR_TIMEOUT, stamp, waits, tr.tvExpiration, clock, next.clock);
        waits := waits1 + waits;
        RetriedCallRuns(c0, Begin(frame, ms), first, answer, second);
      }
      if state == CONN_OK {
        inFrame := tr.inpPay.data;
        inCode := tr.outCode;
        ok := true;
      } else {
        SocketClose();
      }
    }

    /** The send of `Sync`: the ping request, stamped. */
    method SendPing(ms: int, rand: u32, ghost past: seq<Event>, ghost c0: Client) returns (state: ConnState)
      requires Follows(sock, past, c0) && Now(sock, past, c0) == c0
      requires c0.at == Pinging(PingFrame(rand, ms)) && c0.open == sock.open
      modifies sock`sendCount, sock`outbox, sock`broken, sock`trace
      ensures old(sock.trace) <= sock.trace && Follows(sock, past, c0)
      ensures Now(sock, past, c0) == c0.(at := if state == CONN_OK then AwaitingPong([]) else Idle,
                                         outcome := if state == CONN_OK then c0.outcome else Synced(false))
      ensures state != CONN_OK ==> past < sock.trace && sock.trace[|sock.trace| - 1] == TxFail(state)
    {
      hide Runs, Run, SentEvents, Header, Word, StreamPrefix.Valid;
      var request := new Storage();
      var done := SetParams(Params(CMD_PING_REQUEST, rand, 0), request);
      done := SetTimeout(ms, request);
      TimeoutOfHeader(CMD_PING_REQUEST, rand, 0, 0, ms);
      ghost var t := sock.trace;
      ghost var cuts;
      state, cuts := FrameTx(CONN_OK, sock, request.data);
      SendStage(t, past, c0, cuts, PREFIX_SIZE, state);
    }

    /** The receive of `Sync`, with a delay instead of a deadline. */
    method RecvPong(state: ConnState, response: Storage, ms: int, ghost past: seq<Event>, ghost c0: Client)
      returns (state': ConnState, ghost stamp: int, ghost waits: seq<Wait>)
      requires Follows(sock, past, c0) && |response.data| == PREFIX_SIZE
      requires state == CONN_OK ==> Now(sock, past, c0) == c0.(at := AwaitingPong([]))
      modifies response, sock`rounds, sock`inbox, sock`trace, sock`clockCount
      ensures Follows(sock, past, c0) && |response.data| == PREFIX_SIZE
      ensures state != CONN_OK ==> state' == state && sock.trace == old(sock.trace) && waits == []
      ensures state == CONN_OK ==>
                && Now(sock, past, c0) == (if state' == CONN_OK then GotPong(c0, response.data)
                                           else c0.(at := Idle, outcome := Synced(false)))
                && SyncInTime(sock.trace, stamp, waits, sock.clock(old(sock.clockCount)), ms)
      ensures old(sock.trace) <= sock.trace && (state == CONN_OK ==> sock.trace != old(sock.trace))
    {
      hide Runs, Run, Word, StreamPrefix.Valid, ChunkEvents, RxEvent, RxLoop;
      state', stamp, waits := state, 0, [];
      if state == CONN_OK {
        ghost var t, buf0, inbox0 := sock.trace, response.data, sock.inbox;
        ghost var count, rounds := sock.clockCount, if sock.open then sock.rounds else [];
        ghost var avail := if sock.open then |sock.inbox| else 0;
        ghost var o;
        state', o := FrameRx(state, sock, response, ms * NS_PER_MS);
        ghost var got := Sum(o.cuts);
        ReceiveStage(t, past, c0, o, inbox0[..got], buf0[got..]);
        stamp, waits := o.stamp, o.waits;
        SyncTimely(o, PREFIX_SIZE, avail, count, ms, sock.clock, sock.codes, rounds);
        LastIsTimeout(o.end, buf0[got..]);
      }
    }

    /** The check of what came back. */
    method IsPong(response: Storage, rand: u32) returns (ok: bool)
      requires |response.data| == PREFIX_SIZE
      ensures ok <==> PongOk(response.data, rand)
    {
      hide Word, StreamPrefix.Valid;
      ValidIffSum(response.data);
      var valid, params := GetParams(response);
      ok := valid && params.command == CMD_PING_RESPONSE && params.code == rand;
    }

    /**
     A round trip without payload. Its events are a run of the client machine too. Without a
     failed `select` it returns true exactly if it received a valid pong with this number and
     nothing else, and it does not report a timeout early.
     */
    method Sync(ms: int, rand: u32, ghost c0: Client)
      returns (ok: bool, ghost first: seq<Event>, ghost stamp: int, ghost waits: seq<Wait>)
      requires c0.at == Idle && c0.open == sock.open
      modifies sock`sendCount, sock`outbox, sock`broken, sock`trace, sock`rounds, sock`inbox, sock`clockCount
      ensures sock.trace == old(sock.trace) + first
      ensures var events := [BeginSync(rand, ms)] + first;
              Runs(c0, events) && Run(c0, events) == Step(c0, BeginSync(rand, ms)).(at := Idle, outcome := Synced(ok))
      ensures NoneBroke(first) ==> (ok <==> PongFor(ChunkBytes(first), rand))
      ensures SyncInTime(first, stamp, waits, sock.clock(old(sock.clockCount)), ms)
    {
      hide Word, StreamPrefix.Valid, Header, PongFor, PongOk, PingFrame, SyncInTime;
      var response := new Storage();
      response.Resize(PREFIX_SIZE);
      ghost var c1 := Step(c0, BeginSync(rand, ms));
      ghost var past := sock.trace;
      assert sock.trace[|past|..] == [];
      Still(c1);
      hide Runs, Run;
      var state := SendPing(ms, rand, past, c1);
      ghost var sent := sock.trace;
      ghost var failed := state;
      ok := false;
      state, stamp, waits := RecvPong(state, response, ms, past, c1);
      first := sock.trace[|past|..];
      EndOf(sock.trace, |past|, stamp, waits, sock.clock(old(sock.clockCount)), ms, failed);
      SyncConcluded(c1, first);
      RunFirst(c0, BeginSync(rand, ms), first);
      if state == CONN_OK {
        ok := IsPong(response, rand);
      }
    }
  }

  /**
   A `Sync` whose receive began at `start`: it does not wait past its delay, and a timeout at
   its end comes less than 1001 microseconds before the delay is over.
   */
  ghost predicate SyncInTime(events: seq<Event>, stamp: int, waits: seq<Wait>, start: int, ms: int) {
    && WaitsEndBy(waits, start + 1_000_000 * ms)
    && (events != [] && events[|events| - 1] == RxFail(ERR_TIMEOUT) ==> stamp > start + 1_000_000 * ms - 1_001_000)
  }

  lemma EndOf(t: seq<Event>, past: nat, stamp: int, waits: seq<Wait>, start: int, ms: int, sent: ConnState)
    requires past < |t|
    requires SyncInTime(t, stamp, waits, start, ms) || (sent != CONN_OK && t[|t| - 1] == TxFail(sent) && waits == [])
    ensures SyncInTime(t[past..], stamp, waits, start, ms)
  {
  }

  function ConnectEvent(answer: ConnectAnswer): Event {
    match answer
    case NoSocket => ConnectFail(ERR_OPEN)
    case Refused => ConnectFail(ERR_CONNECT)
    case Accepted => Connected
  }

  /** The events of one call, in order. */
  function CallEvents(begin: Event, retried: bool, answer: ConnectAnswer, first: seq<Event>, second: seq<Event>)
    : seq<Event>
  {
    [begin] + first + if retried then [ConnectEvent(answer)] + second else []
  }

  /** The machine after a reconnection. */
  function AfterReconnect(c: Client, answer: ConnectAnswer): Client {
    match answer
    case NoSocket => c.(at := Idle, open := false, outcome := Failed(ERR_OPEN))
    case Refused => c.(at := Idle, open := false, outcome := Failed(ERR_CONNECT))
    case Accepted => c.(at := Asking(RequestFrame(c.frame, c.ms)), attempt := 2, open := true)
  }

  lemma Begins(c: Client, frame: Payload, ms: int)
    requires c.at == Idle
    ensures Enabled(c, Begin(frame, ms))
    ensures Step(c, Begin(frame, ms))
            == c.(at := Asking(RequestFrame(frame, ms)), frame := frame, ms := ms, attempt := 1, outcome := Nothing)
  {
  }

  lemma CallRuns(c: Client, begin: Event, answer: ConnectAnswer, first: seq<Event>)
    requires Enabled(c, begin) && Runs(Step(c, begin), first)
    ensures var events := CallEvents(begin, false, answer, first, []);
            Runs(c, events) && Run(c, events) == Run(Step(c, begin), first)
  {
    hide Step, Enabled;
    RunFirst(c, begin, first);
    assert [begin] + first + [] == [begin] + first;
  }

  lemma RetriedCallRuns(c: Client, begin: Event, first: seq<Event>, answer: ConnectAnswer, second: seq<Event>)
    requires Enabled(c, begin) && Runs(Step(c, begin), first)
    requires Run(Step(c, begin), first).at == Reconnecting
    requires Runs(AfterReconnect(Run(Step(c, begin), first), answer), second)
    ensures var events := CallEvents(begin, true, answer, first, second);
            Runs(c, events) && Run(c, events) == Run(AfterReconnect(Run(Step(c, begin), first), answer), second)
  {
    hide Runs, Run;
    RunFirst(c, begin, first);
    var c1 := Run(Step(c, begin), first);
    assert Enabled(c1, ConnectEvent(answer)) && Step(c1, ConnectEvent(answer)) == AfterReconnect(c1, answer);
    RunFirst(c1, ConnectEvent(answer), second);
    RunAppend(c, [begin] + first, [ConnectEvent(answer)] + second);
  }

  lemma RunFirst(c: Client, e: Event, rest: seq<Event>)
    requires Enabled(c, e) && Runs(Step(c, e), rest)
    ensures Runs(c, [e] + rest) && Run(c, [e] + rest) == Run(Step(c, e), rest)
  {
    hide Step, Enabled;
    assert ([e] + rest)[1..] == rest;
  }
}
