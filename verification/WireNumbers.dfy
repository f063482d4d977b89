/**
 The frames of the protocol in numbers: what another program on the same wire has to send
 and to expect, spelled out without the constants the rest of the model uses.
 */
module WireNumbers {
  import opened Bytes
  import opened Octets
  import opened StreamPrefix
  import opened Transfer
  import C = Client
  import L = SessionLaws
  import S = Session

  // ---------------------------------------------------------------- headers

  /** Six little-endian words: the magic number, four fields, and what is missing to 2^32 - 1. */
  function HeaderBytes(cmd: u32, code: u32, expiration: u32, len: u32): seq<byte> {
    [0x64, 0x45, 0x46, 0x37] + Four(cmd) + Four(code) + Four(expiration) + Four(len)
    + Four((0xFFFF_FFFF - (0x3746_4564 + cmd + code + expiration + len)) % 0x1_0000_0000)
  }

  lemma JoinedSix(a: u32, b: u32, c: u32, d: u32, e: u32, f: u32)
    ensures Joined([a, b, c, d, e, f]) == Four(a) + Four(b) + Four(c) + Four(d) + Four(e) + Four(f)
  {
    hide Four, Le;
    LeInOctets(a);
    LeInOctets(b);
    LeInOctets(c);
    LeInOctets(d);
    LeInOctets(e);
    LeInOctets(f);
    assert [a, b, c, d, e, f][1..] == [b, c, d, e, f] && [b, c, d, e, f][1..] == [c, d, e, f];
    assert [c, d, e, f][1..] == [d, e, f] && [d, e, f][1..] == [e, f] && [e, f][1..] == [f] && [f][1..] == [];
    assert Joined([e, f]) == Four(e) + Four(f);
    assert Joined([d, e, f]) == Four(d) + (Four(e) + Four(f));
    assert Joined([c, d, e, f]) == Four(c) + (Four(d) + (Four(e) + Four(f)));
    assert Joined([b, c, d, e, f]) == Four(b) + (Four(c) + (Four(d) + (Four(e) + Four(f))));
  }

  /** Every header the library builds, byte by byte. */
  lemma HeaderInNumbers(cmd: u32, code: u32, expiration: u32, len: u32)
    ensures Header(cmd, code, expiration, len) == HeaderBytes(cmd, code, expiration, len)
  {
    hide Four, Joined;
    MagicInNumbers();
    var crc := (0xFFFF_FFFF - (0x3746_4564 + cmd + code + expiration + len)) % 0x1_0000_0000;
    JoinedSix(0x3746_4564, cmd, code, expiration, len, crc);
  }

  lemma MagicInNumbers()
    ensures Four(0x3746_4564) == [0x64, 0x45, 0x46, 0x37]
  {
  }

  /** How a word is read from a vector. */
  lemma WordInNumbers(b: seq<byte>, i: nat)
    requires 4 * i + 4 <= |b|
    ensures var k := 4 * i;
            var (b0, b1, b2, b3) := (b[k] as int, b[k + 1] as int, b[k + 2] as int, b[k + 3] as int);
            Word(b, i) == b0 + 0x100 * b1 + 0x1_0000 * b2 + 0x100_0000 * b3
  {
    var w := b[4 * i..4 * i + 4];
    assert FromLe(w[1..]) == w[1] + 256 * FromLe(w[1..][1..]);
    assert FromLe(w[1..][1..]) == w[2] + 256 * FromLe(w[1..][1..][1..]);
    assert FromLe(w[1..][1..][1..]) == w[3] + 256 * FromLe([]);
  }

  /** A header counts as valid when its six words, read so, sum to 2^32 - 1 modulo 2^32. */
  lemma ValidInNumbers(b: seq<byte>)
    ensures Valid(b) <==>
              && |b| == 24
              && (Word(b, 0) + Word(b, 1) + Word(b, 2) + Word(b, 3) + Word(b, 4) + Word(b, 5)) % 0x1_0000_0000 == 0xFFFF_FFFF
  {
    hide Word;
    ValidIffSum(b);
    if |b| == 24 {
      SumOfFive(b);
      assert SumOf(b, 6) == SumOf(b, 5) + Word(b, 5);
    }
  }

  // ---------------------------------------------------------------- what the client sends

  /** A request: command 100, code 0, the timeout in milliseconds and the size of the payload. */
  lemma RequestInNumbers(frame: Payload, ms: int)
    ensures C.RequestFrame(frame, ms) == HeaderBytes(100, 0, ms % 0x1_0000_0000, |frame|) + frame
  {
    hide HeaderBytes, Header;
    HeaderInNumbers(100, 0, ms % 0x1_0000_0000, |frame|);
  }

  /** A ping: command 102 and the caller's number. */
  lemma PingInNumbers(rand: u32, ms: int)
    ensures C.PingFrame(rand, ms) == HeaderBytes(102, rand, ms % 0x1_0000_0000, 0)
  {
    hide HeaderBytes, Header;
    HeaderInNumbers(102, rand, ms % 0x1_0000_0000, 0);
  }

  // ---------------------------------------------------------------- what the server sends

  /** A request is answered with command 101 and what the handler returned, a ping with 103 and its own number. */
  lemma ReplyInNumbers(hdr: Hdr, outCmd: u32, outCode: u32, result: HandlerResult)
    ensures Word(hdr, 1) == 100 && result.Done? ==>
              S.ReplyFrame(S.AnswerTo(hdr, outCmd, outCode, result))
              == HeaderBytes(101, result.code, 0, |result.pay|) + result.pay
    ensures Word(hdr, 1) == 102 ==>
              S.ReplyFrame(S.AnswerTo(hdr, outCmd, outCode, result)) == HeaderBytes(103, Word(hdr, 2), 0, 0)
    ensures Word(hdr, 1) != 100 && Word(hdr, 1) != 102 ==>
              S.ReplyFrame(S.AnswerTo(hdr, outCmd, outCode, result)) == HeaderBytes(outCmd, outCode, 0, 0)
  {
    hide HeaderBytes, Header, Word;
    if result.Done? {
      HeaderInNumbers(101, result.code, 0, |result.pay|);
    }
    HeaderInNumbers(103, Word(hdr, 2), 0, 0);
    HeaderInNumbers(outCmd, outCode, 0, 0);
    assert HeaderBytes(103, Word(hdr, 2), 0, 0) + [] == HeaderBytes(103, Word(hdr, 2), 0, 0);
    assert HeaderBytes(outCmd, outCode, 0, 0) + [] == HeaderBytes(outCmd, outCode, 0, 0);
  }

  /** The code an ERROR frame gives for each way a session can fail. */
  function ErrorNumber(why: ConnState): u32 {
    match why
    case CONN_OK => 100
    case ERR_GENERAL => 400
    case ERR_CLOSED => 401
    case ERR_TIMEOUT => 402
    case ERR_OPEN => 403
    case ERR_BIND => 404
    case ERR_LISTEN => 405
    case ERR_SELECT => 406
    case ERR_ACCEPT => 407
    case ERR_CONNECT => 408
    case ERR_RX => 409
    case ERR_TX => 410
    case ERR_EXEC => 411
    case ERR_SYNC => 500
  }

  lemma ErrorInNumbers(why: ConnState)
    ensures S.ErrorFrame(why) == HeaderBytes(104, ErrorNumber(why), 0, 0)
  {
    hide HeaderBytes, Header;
    HeaderInNumbers(104, ErrorNumber(why), 0, 0);
  }

  /**
   How a session ends and what it says last. It ends silently when it is stopped, when
   `frame_wait` fails, and when the peer has closed; after a timeout (402), a failed
   receive (409), a failed send (410), a failed handler (411) or an invalid header (500) it
   begins an ERROR frame with that code. No other step ends it.
   */
  lemma FinalNamesTheCause(s: S.Session, e: Event)
    requires S.Alive(s) && S.Enabled(s, e)
    ensures var s' := S.Step(s, e);
            if e.Stopped? || e.WaitFail? || ((e.RxFail? || e.TxFail?) && e.why == ERR_CLOSED) then s'.pc.Gone?
            else if e.RxFail? || e.TxFail? then
              && s'.pc == S.Closing(
                   HeaderBytes(104, if e.why == ERR_TIMEOUT then 402 else if e.RxFail? then 409 else 410, 0, 0))
              && s'.final == s'.pc.rest
            else if e.Ran? && Word(s.pc.hdr, 1) == 100 && !e.result.Done? then
              s'.pc == S.Closing(HeaderBytes(104, 411, 0, 0)) && s'.final == s'.pc.rest
            else if (e.Filled? && s.pc.ReadingHeader? && !Valid(s.pc.got))
                    || (e.Broke? && s.pc.ReadingHeader? && !Valid(s.pc.got + e.fill)) then
              s'.pc == S.Closing(HeaderBytes(104, 500, 0, 0)) && s'.final == s'.pc.rest
            else S.Alive(s') && (e.Quiet? ==> s' == s)
  {
    hide HeaderBytes, Header, Word, Valid, S.AnswerTo, S.ReplyFrame;
    ErrorInNumbers(ERR_TIMEOUT);
    ErrorInNumbers(ERR_RX);
    ErrorInNumbers(ERR_TX);
    ErrorInNumbers(ERR_EXEC);
    ErrorInNumbers(ERR_SYNC);
    hide S.ErrorFrame;
    if s.pc.ReadingHeader? && |s.pc.got| == PREFIX_SIZE {
      assert s.pc.got + [] == s.pc.got;
    }
  }

  // ---------------------------------------------------------------- what one exchange hands to the next

  /** A header field of the last reply, 0 before the first. */
  function Carried(replies: seq<seq<byte>>, field: nat): u32
    requires field < 6
  {
    if replies == [] || |replies[|replies| - 1]| < 24 then 0 else Word(replies[|replies| - 1][..24], field)
  }

  lemma StepCarries(s: S.Session, e: Event)
    requires S.Enabled(s, e) && s.outCmd == Carried(s.replies, 1) && s.outCode == Carried(s.replies, 2)
    ensures var s' := S.Step(s, e); s'.outCmd == Carried(s'.replies, 1) && s'.outCode == Carried(s'.replies, 2)
  {
    hide Word, Valid, Header, S.ReplyFrame, S.AnswerTo, S.ErrorFrame;
    if s.pc.Executing? {
      L.ReplyIsFrame(S.AnswerTo(s.pc.hdr, s.outCmd, s.outCode, e.result));
    }
  }

  lemma {:induction false} RunCarries(s: S.Session, events: seq<Event>)
    requires S.Runs(s, events) && s.outCmd == Carried(s.replies, 1) && s.outCode == Carried(s.replies, 2)
    ensures var t := S.Run(s, events); t.outCmd == Carried(t.replies, 1) && t.outCode == Carried(t.replies, 2)
    decreases |events|
  {
    hide S.Step, S.Enabled, Carried;
    if events != [] {
      StepCarries(s, events[0]);
      RunCarries(S.Step(s, events[0]), events[1..]);
    }
  }

  /**
   What an execution is given, over every run: the handler is called exactly for command 100,
   with the payload and with the code of the reply before (0 before the first), and a command
   that is neither a request nor a ping is answered with the command and code of that reply.
   */
  lemma ExecutionInNumbers(events: seq<Event>, result: HandlerResult)
    requires S.Runs(S.SESSION_START, events) && S.Run(S.SESSION_START, events).pc.Executing?
    ensures var t := S.Run(S.SESSION_START, events);
            var t' := S.Step(t, Ran(result));
            && t'.calls == t.calls + (if Word(t.pc.hdr, 1) != 100 then []
                                      else [S.Call(t.pc.pay, Carried(t.replies, 2), result)])
            && (Word(t.pc.hdr, 1) != 100 && Word(t.pc.hdr, 1) != 102 ==>
                  t'.replies == t.replies + [HeaderBytes(Carried(t.replies, 1), Carried(t.replies, 2), 0, 0)])
  {
    hide Word, Header, HeaderBytes, S.Runs, S.Run, S.ReplyFrame;
    RunCarries(S.SESSION_START, events);
    var t := S.Run(S.SESSION_START, events);
    ReplyInNumbers(t.pc.hdr, t.outCmd, t.outCode, result);
    assert t.calls + [] == t.calls;
  }
}
