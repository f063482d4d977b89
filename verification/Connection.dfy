/**
 One connection: two FIFO byte channels, the session at the server's end, and a record of
 which frames the client has put on it.
 */
module Connection {
  import opened Bytes
  import opened StreamPrefix
  import opened Transfer
  import opened Session
  import opened SessionLaws

  /** A frame a client call wants on the wire; `id` is the call. */
  datatype Msg = Msg(id: nat, isRequest: bool, hdr: Hdr, pay: Payload)

  function BytesOf(m: Msg): seq<byte> {
    m.hdr + m.pay
  }

  predicate MsgOk(m: Msg) {
    && Valid(m.hdr) && Word(m.hdr, LEN) == |m.pay|
    && Word(m.hdr, CMD) == (if m.isRequest then CMD_REQUEST else CMD_PING_REQUEST)
    && (!m.isRequest ==> m.pay == [])
  }

  predicate AllMsgsOk(ms: seq<Msg>) {
    forall i :: 0 <= i < |ms| ==> MsgOk(ms[i])
  }

  function FlatMsgs(ms: seq<Msg>): seq<byte> {
    if ms == [] then [] else BytesOf(ms[0]) + FlatMsgs(ms[1..])
  }

  datatype Maybe = NoReply | Replied(frame: seq<byte>)

  /**
   `c2s` and `s2c` hold the bytes under way. `deaf` is set once a client's send has failed.
   `queue` are the frames begun and not executed, `unsent` the part of the last one still
   with the client. `reply` is the reply to the current call, `handled` names the call
   behind each handler call of the session.
   */
  datatype Conn = Conn(c2s: seq<byte>, s2c: seq<byte>, sess: Session, deaf: bool,
                       queue: seq<Msg>, unsent: seq<byte>, reply: Maybe, handled: seq<nat>)

  const FRESH := Conn([], [], SESSION_START, false, [], [], NoReply, [])

  // ---------------------------------------------------------------- moves

  /** A session event that moves no bytes. */
  predicate Silent(e: Event) {
    !e.Chunk? && !e.Sent? && !e.Broke?
  }

  function ServerDoes(c: Conn, e: Event): Conn
    requires Enabled(c.sess, e) && Silent(e)
  {
    var sess := Step(c.sess, e);
    if !e.Ran? || c.queue == [] then c.(sess := sess)
    else c.(sess := sess, queue := c.queue[1..],
            reply := if sess.pc.Sending? then Replied(sess.pc.rest) else c.reply,
            handled := c.handled + if Word(c.sess.pc.hdr, CMD) == CMD_REQUEST then [c.queue[0].id] else [])
  }

  predicate ServerMayRead(c: Conn, n: nat) {
    n <= |c.c2s| && Enabled(c.sess, Chunk(c.c2s[..n]))
  }

  function ServerReads(c: Conn, n: nat): Conn
    requires ServerMayRead(c, n)
  {
    c.(sess := Step(c.sess, Chunk(c.c2s[..n])), c2s := c.c2s[n..])
  }

  function ServerSends(c: Conn, n: nat): Conn
    requires Enabled(c.sess, Sent(n))
  {
    c.(sess := Step(c.sess, Sent(n)), s2c := c.s2c + c.sess.pc.rest[..n])
  }

  /** The client's send accepts `n` bytes of `rest`, the unsent part of message `m`. */
  function ClientSends(c: Conn, m: Msg, rest: seq<byte>, n: nat): Conn
    requires n <= |rest|
  {
    c.(c2s := c.c2s + rest[..n], unsent := rest[n..], queue := if c.unsent == [] then c.queue + [m] else c.queue)
  }

  function ClientReads(c: Conn, n: nat): Conn
    requires n <= |c.s2c|
  {
    c.(s2c := c.s2c[n..])
  }

  // ---------------------------------------------------------------- the request side

  /**
   While the session is alive, what it has absorbed, what is under way and what is unsent
   are exactly the frames not executed yet.
   */
  predicate InStep(c: Conn) {
    && AllMsgsOk(c.queue) && WellFormed(c.sess) && IsFinal(c.sess.final)
    && (Alive(c.sess) ==>
          && Absorbed(c.sess) + c.c2s + c.unsent == FlatMsgs(c.queue)
          && c.sess.final == [] && !c.sess.deaf)
  }

  lemma HeadOfFlat(ms: seq<Msg>, hdr: Hdr, x: seq<byte>)
    requires AllMsgsOk(ms) && hdr + x == FlatMsgs(ms)
    ensures ms != [] && hdr == ms[0].hdr && x == ms[0].pay + FlatMsgs(ms[1..])
  {
    hide MsgOk;
    assert |hdr + x| >= PREFIX_SIZE;
    assert ms != [];
    var f := FlatMsgs(ms);
    assert f == ms[0].hdr + (ms[0].pay + FlatMsgs(ms[1..]));
    assert f[..PREFIX_SIZE] == ms[0].hdr && (hdr + x)[..PREFIX_SIZE] == hdr;
    assert f[PREFIX_SIZE..] == ms[0].pay + FlatMsgs(ms[1..]) && (hdr + x)[PREFIX_SIZE..] == x;
  }

  lemma {:induction false} FlatMsgsAppend(ms: seq<Msg>, m: Msg)
    ensures FlatMsgs(ms + [m]) == FlatMsgs(ms) + BytesOf(m)
  {
    hide BytesOf;
    if ms == [] {
      assert FlatMsgs([m]) == BytesOf(m) + FlatMsgs([]);
    } else {
      assert (ms + [m])[1..] == ms[1..] + [m];
      FlatMsgsAppend(ms[1..], m);
      assert BytesOf(ms[0]) + (FlatMsgs(ms[1..]) + BytesOf(m)) == (BytesOf(ms[0]) + FlatMsgs(ms[1..])) + BytesOf(m);
    }
  }

  /** An alive session that holds a whole header holds that of the first frame not executed. */
  lemma HeaderInStep(c: Conn, hdr: Hdr, got: seq<byte>)
    requires InStep(c) && Alive(c.sess) && Absorbed(c.sess) == hdr + got
    ensures c.queue != [] && hdr == c.queue[0].hdr && MsgOk(c.queue[0])
    ensures got + c.c2s + c.unsent == c.queue[0].pay + FlatMsgs(c.queue[1..])
  {
    hide MsgOk, WellFormed, FlatMsgs, Alive, Absorbed;
    assert hdr + (got + c.c2s + c.unsent) == hdr + got + c.c2s + c.unsent;
    HeadOfFlat(c.queue, hdr, got + c.c2s + c.unsent);
  }

  /** A session about to execute holds exactly the first frame not executed. */
  lemma ExecutesHead(c: Conn)
    requires InStep(c) && c.sess.pc.Executing?
    ensures c.queue != [] && MsgOk(c.queue[0])
    ensures c.sess.pc.hdr == c.queue[0].hdr && c.sess.pc.pay == c.queue[0].pay
    ensures c.c2s + c.unsent == FlatMsgs(c.queue[1..])
  {
    hide FlatMsgs;
    var hdr, pay := c.sess.pc.hdr, c.sess.pc.pay;
    HeaderInStep(c, hdr, pay);
    var f := c.queue[0].pay + FlatMsgs(c.queue[1..]);
    assert pay + (c.c2s + c.unsent) == f;
    assert f[..|pay|] == pay && f[|pay|..] == c.c2s + c.unsent;
  }

  lemma FailInStep(c: Conn, s: Session, why: ConnState)
    requires InStep(c) && Alive(c.sess) && s.final == []
    ensures InStep(c.(sess := Fail(s, why)))
  {
    hide FlatMsgs, ErrorFrame, IsFinal, MsgOk;
    ErrorIsFrame(why);
    assert IsFinal([]) by { NoFinal(); }
  }

  lemma NoFinal()
    ensures IsFinal([])
  {
  }

  /** The client's frames reach the session whole and in order: no server move loses the step. */
  lemma ServerStaysInStep(c: Conn, e: Event)
    requires InStep(c) && Enabled(c.sess, e) && Silent(e)
    ensures InStep(ServerDoes(c, e))
  {
    hide FlatMsgs, MsgOk, IsFinal, Execute, ErrorFrame, Word, Valid;
    match c.sess.pc
    case ReadingHeader(got) =>
      if e.RxFail? {
        FailInStep(c, c.sess, e.why);
      } else {
        assert got + [] == got;
        HeaderInStep(c, got, []);
        HeadIsValid(c.queue[0]);
      }
    case ReadingPayload(hdr, got) =>
      if e.RxFail? {
        FailInStep(c, c.sess, e.why);
      }
    case Executing(hdr, pay) =>
      ExecutesHead(c);
      ExecutionInStep(c, e.result);
    case Sending(rest) =>
      FailInStep(c, c.sess.(deaf := true), e.why);
    case _ =>
  }

  lemma HeadIsValid(m: Msg)
    requires MsgOk(m)
    ensures Valid(m.hdr)
  {
  }

  lemma ExecutionInStep(c: Conn, result: HandlerResult)
    requires InStep(c) && c.sess.pc.Executing?
    ensures InStep(ServerDoes(c, Ran(result)))
  {
    hide FlatMsgs, MsgOk, IsFinal, ErrorFrame, Word, Valid, Header;
    ExecutesHead(c);
    ErrorIsFrame(ERR_EXEC);
    assert [] + c.c2s + c.unsent == c.c2s + c.unsent;
  }

  lemma ReadStaysInStep(c: Conn, n: nat)
    requires InStep(c) && ServerMayRead(c, n)
    ensures InStep(ServerReads(c, n))
  {
    hide FlatMsgs, MsgOk, IsFinal, Word, Valid;
    var b := c.c2s[..n];
    assert c.c2s == b + c.c2s[n..];
    if c.sess.pc.ReadingHeader? {
      assert (c.sess.pc.got + b) + c.c2s[n..] == c.sess.pc.got + c.c2s;
    } else {
      assert c.sess.pc.hdr + (c.sess.pc.got + b) + c.c2s[n..] == c.sess.pc.hdr + c.sess.pc.got + c.c2s;
    }
  }

  lemma SendStaysInStep(c: Conn, n: nat)
    requires InStep(c) && Enabled(c.sess, Sent(n))
    ensures InStep(ServerSends(c, n))
  {
    hide FlatMsgs, MsgOk, IsFinal;
  }

  lemma ClientSendStaysInStep(c: Conn, m: Msg, rest: seq<byte>, n: nat)
    requires InStep(c) && MsgOk(m) && n <= |rest|
    requires if c.unsent == [] then rest == BytesOf(m) else rest == c.unsent
    ensures InStep(ClientSends(c, m, rest, n))
  {
    hide FlatMsgs, MsgOk, IsFinal, WellFormed, Alive, Absorbed, BytesOf;
    FlatMsgsAppend(c.queue, m);
    var a := Absorbed(c.sess);
    assert a + (c.c2s + rest[..n]) + rest[n..] == (a + c.c2s) + rest;
    assert (a + c.c2s) + [] == a + c.c2s;
  }

  // ---------------------------------------------------------------- the reply side

  /** `reply` answers message `m`, and if that is a request, with what the handler returned for it. */
  predicate Answers(c: Conn, m: Msg, reply: seq<byte>) {
    if m.isRequest then
      && c.handled != [] && c.handled[|c.handled| - 1] == m.id
      && c.sess.calls != []
      && var call := c.sess.calls[|c.sess.calls| - 1];
         && call.request == m.pay && call.result.Done?
         && reply == ReplyFrame(Answer(CMD_RESPONSE, call.result.code, call.result.pay))
    else reply == ReplyFrame(Answer(CMD_PING_RESPONSE, Word(m.hdr, CODE), []))
  }

  /** The bytes the session will still get through to the client. */
  function Outgoing(s: Session): seq<byte> {
    if s.deaf then [] else Pending(s)
  }

  function ReplyBytes(r: Maybe): seq<byte> {
    match r case NoReply => [] case Replied(f) => f
  }

  /**
   With `got` read by the client for its current call: what it has, what is under way and
   what the session is sending is the call's reply, if there is one, and then at most the
   beginning of the session's ERROR frame, once the session has ended.
   */
  predicate OnlyReply(c: Conn, got: seq<byte>) {
    && got + c.s2c + Outgoing(c.sess) <= ReplyBytes(c.reply) + c.sess.final
    && (Alive(c.sess) ==> got + c.s2c + Outgoing(c.sess) == ReplyBytes(c.reply))
  }

  /** The phases of a call, as the connection shows them. */
  datatype Phase = Resting | Speaking | Listening

  /** A connection on which every earlier call has been answered; `m` is the current call's message. */
  predicate Tidy(c: Conn, phase: Phase, m: Msg, got: seq<byte>) {
    && OnlyReply(c, got)
    && (phase != Listening ==> c.reply == NoReply && got == [])
    && (c.reply.Replied? ==> Answers(c, m, c.reply.frame) && (Alive(c.sess) ==> c.queue == []))
    && (Alive(c.sess) && c.reply == NoReply ==>
          match phase
          case Resting => c.queue == []
          case Speaking => c.queue == if c.unsent == [] then [] else [m]
          case Listening => c.queue == [m] && c.unsent == [])
  }

  lemma SameAnswers(c: Conn, c': Conn, m: Msg)
    requires c'.handled == c.handled && c'.sess.calls == c.sess.calls && c'.reply == c.reply
    ensures c.reply.Replied? ==> (Answers(c', m, c.reply.frame) <==> Answers(c, m, c.reply.frame))
  {
  }

  /** A reply is begun only for the call the client is listening for. */
  lemma ExecutionIsForCurrentCall(c: Conn, phase: Phase, m: Msg, got: seq<byte>)
    requires InStep(c) && Tidy(c, phase, m, got) && c.sess.pc.Executing?
    ensures phase == Listening && c.reply == NoReply && c.queue == [m]
  {
    hide FlatMsgs, MsgOk, IsFinal, OnlyReply, Answers, Word, Valid;
    ExecutesHead(c);
    if phase == Speaking {
      assert c.queue[1..] == [];
      NoMsgs();
    }
  }

  lemma NoMsgs()
    ensures FlatMsgs([]) == []
  {
  }

  lemma ExecutionStaysTidy(c: Conn, phase: Phase, m: Msg, got: seq<byte>, result: HandlerResult)
    requires InStep(c) && Tidy(c, phase, m, got) && c.sess.pc.Executing?
    ensures Tidy(ServerDoes(c, Ran(result)), phase, m, got)
  {
    hide FlatMsgs, IsFinal, ErrorFrame, Word, Valid, Header, WellFormed;
    ExecutionIsForCurrentCall(c, phase, m, got);
    ExecutesHead(c);
    var c' := ServerDoes(c, Ran(result));
    assert c'.queue == [];
    assert got + c.s2c + [] == [];
    assert got == [] && c.s2c == [];
    if c'.sess.pc.Sending? {
      assert [] + [] + c'.sess.pc.rest == c'.sess.pc.rest;
    }
  }

  /** A silent event that executes nothing leaves what is on its way alone, or ends the session. */
  lemma SilentMove(s: Session, e: Event)
    requires WellFormed(s) && Enabled(s, e) && Silent(e) && !e.Ran?
    requires Alive(s) ==> s.final == [] && !s.deaf
    ensures var s' := Step(s, e);
            && s'.calls == s.calls
            && (Alive(s') ==> Alive(s) && Outgoing(s') == Outgoing(s) && s'.final == s.final)
            && (!Alive(s') ==>
                  || (Outgoing(s') == [] && (Alive(s) || s'.final == s.final))
                  || (Alive(s) && Outgoing(s) == [] && Outgoing(s') == s'.final))
  {
    hide ErrorFrame, Word, Valid;
  }

  lemma MoveKeepsReplyOnly(t: seq<byte>, out: seq<byte>, out': seq<byte>, r: seq<byte>, final: seq<byte>, final': seq<byte>)
    requires t + out <= r + final
    requires (out' == [] && (final' == final || t + out == r)) || (out == [] && t == r && out' == final')
    ensures t + out' <= r + final'
  {
    assert t + [] == t;
  }

  lemma ServerStaysTidy(c: Conn, e: Event, phase: Phase, m: Msg, got: seq<byte>)
    requires InStep(c) && Enabled(c.sess, e) && Silent(e) && Tidy(c, phase, m, got)
    ensures Tidy(ServerDoes(c, e), phase, m, got)
  {
    hide FlatMsgs, MsgOk, IsFinal, Answers, Step, Enabled, WellFormed, Absorbed, Outgoing, Alive;
    if e.Ran? {
      OnlyExecutingRuns(c.sess, e);
      ExecutionStaysTidy(c, phase, m, got, e.result);
    } else {
      var c' := ServerDoes(c, e);
      SilentMove(c.sess, e);
      SameAnswers(c, c', m);
      if !Alive(c'.sess) {
        var t := got + c.s2c;
        assert t + [] == t;
        MoveKeepsReplyOnly(t, Outgoing(c.sess), Outgoing(c'.sess), ReplyBytes(c.reply), c.sess.final, c'.sess.final);
      }
    }
  }

  lemma OnlyExecutingRuns(s: Session, e: Event)
    requires Enabled(s, e) && e.Ran?
    ensures s.pc.Executing?
  {
  }

  lemma ReadStaysTidy(c: Conn, n: nat, phase: Phase, m: Msg, got: seq<byte>)
    requires InStep(c) && ServerMayRead(c, n) && Tidy(c, phase, m, got)
    ensures Tidy(ServerReads(c, n), phase, m, got)
  {
    hide FlatMsgs, MsgOk, IsFinal, Word, Valid, Answers;
    SameAnswers(c, ServerReads(c, n), m);
  }

  lemma SendStaysTidy(c: Conn, n: nat, phase: Phase, m: Msg, got: seq<byte>)
    requires InStep(c) && Enabled(c.sess, Sent(n)) && Tidy(c, phase, m, got)
    ensures Tidy(ServerSends(c, n), phase, m, got)
  {
    hide FlatMsgs, MsgOk, IsFinal, Answers;
    SameAnswers(c, ServerSends(c, n), m);
    var rest := c.sess.pc.rest;
    if n == |rest| {
      assert rest[..n] == rest;
      assert got + (c.s2c + rest) + [] == got + c.s2c + rest;
    } else {
      assert got + (c.s2c + rest[..n]) + rest[n..] == got + c.s2c + rest;
    }
    assert c.sess.pc.Sending? ==> !c.sess.deaf;
  }

  predicate BetweenRequests(s: Session) {
    s.pc.Waiting? || s.pc == ReadingHeader([])
  }

  /** Nothing is under way, and the session expects a new request. */
  predicate AllQuiet(c: Conn) {
    c.c2s == [] && c.s2c == [] && c.unsent == [] && c.queue == [] && BetweenRequests(c.sess)
  }

  /** Between calls a live, answered connection is quiet. */
  lemma QuietConn(c: Conn, m: Msg)
    requires InStep(c) && Tidy(c, Resting, m, []) && Alive(c.sess)
    ensures AllQuiet(c)
  {
    hide MsgOk, IsFinal, Answers, Word, Valid;
    NoMsgs();
    assert [] + c.s2c + Outgoing(c.sess) == [];
  }

  // ---------------------------------------------------------------- what the client makes of the bytes

  lemma AnswerIsFrame(c: Conn, m: Msg, r: seq<byte>)
    requires Answers(c, m, r)
    ensures IsFrame(r)
    ensures Word(r[..PREFIX_SIZE], CMD) == if m.isRequest then CMD_RESPONSE else CMD_PING_RESPONSE
    ensures !m.isRequest ==> |r| == PREFIX_SIZE && Word(r[..PREFIX_SIZE], CODE) == Word(m.hdr, CODE)
    ensures m.isRequest ==>
              var result := c.sess.calls[|c.sess.calls| - 1].result;
              Word(r[..PREFIX_SIZE], CODE) == result.code && r[PREFIX_SIZE..] == result.pay
  {
    hide Header, ReplyFrame;
    if m.isRequest {
      var result := c.sess.calls[|c.sess.calls| - 1].result;
      ReplyIsFrame(Answer(CMD_RESPONSE, result.code, result.pay));
    } else {
      ReplyIsFrame(Answer(CMD_PING_RESPONSE, Word(m.hdr, CODE), []));
    }
  }

  /** A whole header read by the client is the reply's, or the ERROR frame of a session that ended first. */
  lemma HeaderFromTidy(c: Conn, m: Msg, hdr: Hdr, got: seq<byte>)
    requires InStep(c) && Tidy(c, Listening, m, hdr + got)
    ensures Valid(hdr)
    ensures c.reply.Replied? ==>
              && |c.reply.frame| >= PREFIX_SIZE && hdr == c.reply.frame[..PREFIX_SIZE]
              && |c.reply.frame| == PREFIX_SIZE + Word(hdr, LEN)
    ensures c.reply == NoReply ==>
              !Alive(c.sess) && hdr == c.sess.final && Word(hdr, LEN) == 0 && Word(hdr, CMD) == CMD_ERROR
  {
    hide FlatMsgs, MsgOk, Word, Header, WellFormed, Answers;
    var t := hdr + got + c.s2c + Outgoing(c.sess);
    var whole := ReplyBytes(c.reply) + c.sess.final;
    assert t[..PREFIX_SIZE] == hdr;
    assert whole[..PREFIX_SIZE] == hdr;
    if c.reply.Replied? {
      AnswerIsFrame(c, m, c.reply.frame);
      assert whole[..PREFIX_SIZE] == c.reply.frame[..PREFIX_SIZE];
    } else {
      assert [] + c.sess.final == c.sess.final;
      assert c.sess.final[..PREFIX_SIZE] == c.sess.final;
    }
  }

  lemma ReadFirst(read: seq<byte>, rest: seq<byte>, frame: seq<byte>, more: seq<byte>)
    requires read + rest <= frame + more && |read| == |frame|
    ensures read == frame && rest <= more
    ensures read + rest == frame ==> rest == []
  {
    var whole := frame + more;
    assert whole[..|read|] == frame && (read + rest)[..|read|] == read;
    assert whole[|read|..] == more && (read + rest)[|read|..] == rest;
  }

  /** Once the reply's frame is read, what is left is at most the beginning of the ERROR frame. */
  lemma FrameRead(c: Conn, got: seq<byte>)
    requires OnlyReply(c, got) && |got| == |ReplyBytes(c.reply)| + (if c.reply == NoReply then |c.sess.final| else 0)
    requires Alive(c.sess) ==> c.reply.Replied?
    ensures got == if c.reply.Replied? then c.reply.frame else c.sess.final
    ensures OnlyReply(c.(reply := NoReply), [])
  {
    hide Alive, Outgoing;
    var rest := c.s2c + Outgoing(c.sess);
    assert got + c.s2c + Outgoing(c.sess) == got + rest;
    assert [] + c.s2c + Outgoing(c.sess) == rest;
    assert [] + c.sess.final == c.sess.final && c.sess.final + [] == c.sess.final;
    if c.reply.Replied? {
      ReadFirst(got, rest, c.reply.frame, c.sess.final);
    } else {
      ReadFirst(got, rest, c.sess.final, []);
    }
  }

  /** A whole frame read by the client is the reply itself, or the ERROR frame; what is left is tidy. */
  lemma FrameFromTidy(c: Conn, m: Msg, hdr: Hdr, got: seq<byte>)
    requires InStep(c) && Tidy(c, Listening, m, hdr + got) && |got| == Word(hdr, LEN)
    ensures c.reply.Replied? ==> hdr + got == c.reply.frame
    ensures c.reply == NoReply ==> !Alive(c.sess) && hdr == c.sess.final && got == [] && Word(hdr, CMD) == CMD_ERROR
    ensures Tidy(c.(reply := NoReply), Resting, m, [])
  {
    hide Alive, Outgoing, InStep, Answers, Header, Valid, Word, FlatMsgs, OnlyReply;
    HeaderFromTidy(c, m, hdr, got);
    if c.reply == NoReply {
      assert hdr + got == hdr;
    }
    FrameRead(c, hdr + got);
  }

  lemma ClientReadStaysTidy(c: Conn, m: Msg, got: seq<byte>, n: nat)
    requires Tidy(c, Listening, m, got) && n <= |c.s2c|
    ensures Tidy(ClientReads(c, n), Listening, m, got + c.s2c[..n])
  {
    hide Answers, Alive;
    SameAnswers(c, ClientReads(c, n), m);
    assert got + c.s2c[..n] + c.s2c[n..] == got + c.s2c;
  }

  lemma ClientSendStaysTidy(c: Conn, m: Msg, rest: seq<byte>, n: nat)
    requires Tidy(c, Speaking, m, []) && 1 <= n <= |rest|
    requires c.unsent == [] || rest == c.unsent
    ensures Tidy(ClientSends(c, m, rest, n), if n == |rest| then Listening else Speaking, m, [])
  {
    hide Answers, Alive;
    assert [] + [m] == [m];
  }
}
