/**
 Why the result of a transaction alone does not tell whether the handler has been called: the
 client does not look at the reply's command, so an ERROR frame counts as a reply.
 */
module ErrorReply {
  import opened Bytes
  import opened StreamPrefix
  import opened Transfer
  import opened Connection
  import opened System
  import opened Scenarios
  import S = Session

  /** An empty request is read whole, its deadline expires, and the session says so. */
  lemma TimesOut(c: Conn, m: Msg)
    requires Asked(c, m) && m.pay == [] && !c.sess.deaf
    ensures |c.c2s| == PREFIX_SIZE
    ensures var c1 := Reading(c, S.ReadingPayload(m.hdr, []), PREFIX_SIZE);
            && S.Enabled(c1.sess, RxFail(ERR_TIMEOUT))
            && var c2 := ServerDoes(c1, RxFail(ERR_TIMEOUT));
               && S.Enabled(c2.sess, Sent(PREFIX_SIZE))
               && var c3 := Connection.ServerSends(c2, PREFIX_SIZE);
                  && c3.s2c == S.ErrorFrame(ERR_TIMEOUT)
                  && c3.handled == c.handled && c3.sess.calls == c.sess.calls
  {
    hide Valid, Header, Word;
    assert Word(m.hdr, LEN) == 0;
    var frame := S.ErrorFrame(ERR_TIMEOUT);
    assert frame[..PREFIX_SIZE] == frame && [] + frame == frame;
  }

  lemma ServerGivesUp(from: System, s: System, m: Msg) returns (t: System)
    requires Reaches(from, s) && s.cur < |s.conns| && Asked(s.conns[s.cur], m) && m.pay == [] && !s.conns[s.cur].sess.deaf
    ensures Reaches(from, t) && |t.conns| == |s.conns| && t == With(s, t.conns[s.cur])
    ensures var c, c' := s.conns[s.cur], t.conns[s.cur];
            c'.s2c == S.ErrorFrame(ERR_TIMEOUT) && c'.handled == c.handled && c'.sess.calls == c.sess.calls
  {
    var c := s.conns[s.cur];
    TakesHeader(c, m);
    TimesOut(c, m);
    WithSame(s);
    hide Word, Reaches, Step, Enabled, StreamPrefix.Valid, S.Step, S.Enabled, ServerDoes, Connection.ServerReads,
         Connection.ServerSends, ServerMayRead, Reading, Asked, S.ErrorFrame;
    if c.sess.pc.Waiting? {
      ServerEvent(from, s, c, Ready);
    }
    ServerInput(from, s, Reading(c, S.ReadingHeader([]), 0), PREFIX_SIZE);
    ServerEvent(from, s, Reading(c, S.ReadingHeader(m.hdr), PREFIX_SIZE), Filled);
    var c1 := Reading(c, S.ReadingPayload(m.hdr, []), PREFIX_SIZE);
    ServerEvent(from, s, c1, RxFail(ERR_TIMEOUT));
    var c2 := ServerDoes(c1, RxFail(ERR_TIMEOUT));
    ServerOutput(from, s, c2, PREFIX_SIZE);
    t := With(s, Connection.ServerSends(c2, PREFIX_SIZE));
  }

  /**
   From every state between calls on a live, answered connection an empty request can end in
   two ways that give the caller the same payload and the same code, both with true: in `t`
   it has timed out at the server and the handler has not been called, in `t'` the handler
   has been called and returned that code.
   */
  lemma ErrorPassesAsReply(s: System, ms: int) returns (t: System, t': System)
    requires Inv(s) && AtRest(s)
    ensures Reaches(s, t) && Enabled(t, ClientFilled) && Reaches(s, t') && Enabled(t', ClientFilled)
    ensures |t.calls| == |t'.calls| == |s.calls| + 1 && Current(t) == Current(t') == MsgFor(|s.calls|, Begin([], ms))
    ensures var out, out' := Step(t, ClientFilled).client.outcome, Step(t', ClientFilled).client.outcome;
            && out.Reply? && out'.Reply? && out.pay == out'.pay && Word(out.hdr, CODE) == Word(out'.hdr, CODE)
            && Word(out.hdr, CMD) == CMD_ERROR && Word(out'.hdr, CMD) == CMD_RESPONSE
    ensures t.cur == t'.cur == s.cur < |s.conns| && |t.conns| == |t'.conns| == |s.conns|
    ensures t.conns[s.cur].handled == s.conns[s.cur].handled
    ensures t'.conns[s.cur].handled == s.conns[s.cur].handled + [|s.calls|]
  {
    hide Run, Reaches, Word, StreamPrefix.Valid, Header, MsgOk, MsgFor, BytesOf, Inv;
    RestIsQuiet(s);
    Here(s);
    var e := Begin([], ms);
    var m, code := MsgFor(|s.calls|, e), StateCode(ERR_TIMEOUT);
    MsgForFields(|s.calls|, e);
    assert m.pay == [] by { EmptyPayload(|s.calls|, ms); }
    assert [] + [m] == [m];
    var asked := ClientSpeaks(s, s, e);
    var a, a' := S.Answer(CMD_ERROR, code, []), S.Answer(CMD_RESPONSE, code, []);
    t := ServerGivesUp(s, asked, m);
    assert S.ReplyFrame(a) == S.ErrorFrame(ERR_TIMEOUT) by { ErrorAsReply(code); }
    t := ClientListens(s, t, a);
    t' := ServerReplies(s, asked, m, Done([], code));
    t' := ClientListens(s, t', a');
    HeaderFields(CMD_ERROR, code, 0, 0);
    HeaderFields(CMD_RESPONSE, code, 0, 0);
  }

  lemma EmptyPayload(id: nat, ms: int)
    ensures MsgFor(id, Begin([], ms)).pay == []
  {
  }

  lemma ErrorAsReply(code: u32)
    requires code == StateCode(ERR_TIMEOUT)
    ensures S.ReplyFrame(S.Answer(CMD_ERROR, code, [])) == S.ErrorFrame(ERR_TIMEOUT)
  {
    hide Header;
    assert Header(CMD_ERROR, code, 0, 0) + [] == Header(CMD_ERROR, code, 0, 0);
  }
}
