/** Building runs of the whole system step by step, sends cut where the code cuts them. */
module Scenarios {
  import opened Bytes
  import opened StreamPrefix
  import opened Transfer
  import opened Connection
  import opened System
  import opened SystemSteps
  import C = Client
  import S = Session

  ghost predicate Reaches(s: System, t: System) {
    exists actions :: Runs(s, actions) && Run(s, actions) == t
  }

  lemma Here(s: System)
    ensures Reaches(s, s)
  {
    assert Runs(s, []) && Run(s, []) == s;
  }

  lemma {:induction false} RunThen(s: System, actions: seq<Action>, a: Action)
    requires Runs(s, actions) && Enabled(Run(s, actions), a)
    ensures Runs(s, actions + [a]) && Run(s, actions + [a]) == Step(Run(s, actions), a)
    decreases |actions|
  {
    hide Step, Enabled;
    if actions == [] {
      assert [a][1..] == [] && [] + [a] == [a];
    } else {
      assert (actions + [a])[1..] == actions[1..] + [a];
      RunThen(Step(s, actions[0]), actions[1..], a);
    }
  }

  lemma Then(s: System, t: System, a: Action)
    requires Reaches(s, t) && Enabled(t, a)
    ensures Reaches(s, Step(t, a))
  {
    hide Step, Enabled, Runs, Run;
    var actions :| Runs(s, actions) && Run(s, actions) == t;
    RunThen(s, actions, a);
  }

  /** The same system with another state of the current connection. */
  function With(s: System, c: Conn): System
    requires s.cur < |s.conns|
  {
    s.(conns := s.conns[s.cur := c])
  }

  /** Nothing under way towards the server but message `m`, at a session between requests. */
  predicate Asked(c: Conn, m: Msg) {
    && BetweenRequests(c.sess) && c.c2s == BytesOf(m) && c.unsent == [] && c.queue == [m] && MsgOk(m)
    && c.s2c == [] && !c.deaf
  }

  /** The session has executed everything it was sent and its reply is under way. */
  predicate Served(c: Conn, frame: seq<byte>, handled: seq<nat>) {
    && c.sess.pc.Waiting? && c.c2s == [] && c.unsent == [] && c.queue == [] && !c.deaf
    && c.s2c == frame && c.handled == handled
  }

  /** A silent move of the session on the current connection. */
  lemma ServerEvent(from: System, s: System, c: Conn, e: Event)
    requires s.cur < |s.conns| && Reaches(from, With(s, c)) && Silent(e) && S.Enabled(c.sess, e)
    ensures Reaches(from, With(s, ServerDoes(c, e)))
  {
    hide Reaches, ServerDoes, Silent, S.Enabled;
    assert s.conns[s.cur := c][s.cur := ServerDoes(c, e)] == s.conns[s.cur := ServerDoes(c, e)];
    Then(from, With(s, c), Server(s.cur, e));
  }

  lemma ServerInput(from: System, s: System, c: Conn, n: nat)
    requires s.cur < |s.conns| && Reaches(from, With(s, c)) && ServerMayRead(c, n)
    ensures Reaches(from, With(s, Connection.ServerReads(c, n)))
  {
    hide Reaches, Connection.ServerReads, ServerMayRead;
    var c' := Connection.ServerReads(c, n);
    assert s.conns[s.cur := c][s.cur := c'] == s.conns[s.cur := c'];
    Then(from, With(s, c), ServerReads(s.cur, n));
  }

  /** A connection whose session has gone on reading. */
  function Reading(c: Conn, pc: S.Pc, taken: nat): Conn
    requires taken <= |c.c2s|
  {
    c.(c2s := c.c2s[taken..], sess := c.sess.(pc := pc, input := c.sess.input + c.c2s[..taken]))
  }

  lemma TakesHeader(c: Conn, m: Msg)
    requires Asked(c, m)
    ensures |c.c2s| >= PREFIX_SIZE
    ensures var c1, c2 := Reading(c, S.ReadingHeader([]), 0), Reading(c, S.ReadingHeader(m.hdr), PREFIX_SIZE);
            && (if c.sess.pc.Waiting? then S.Enabled(c.sess, Ready) && ServerDoes(c, Ready) == c1 else c == c1)
            && ServerMayRead(c1, PREFIX_SIZE) && Connection.ServerReads(c1, PREFIX_SIZE) == c2
            && S.Enabled(c2.sess, Filled)
            && ServerDoes(c2, Filled) == Reading(c, S.ReadingPayload(m.hdr, []), PREFIX_SIZE)
  {
    hide Word, StreamPrefix.Valid;
    var f := c.c2s;
    assert f[..PREFIX_SIZE] == m.hdr && f[0..] == f && [] + m.hdr == m.hdr;
    assert c.sess.input + f[..0] == c.sess.input;
    assert Valid(m.hdr);
  }

  lemma TakesPayload(c: Conn, m: Msg)
    requires Asked(c, m)
    ensures |c.c2s| == PREFIX_SIZE + |m.pay|
    ensures var c3, c4 := Reading(c, S.ReadingPayload(m.hdr, []), PREFIX_SIZE),
                          Reading(c, S.ReadingPayload(m.hdr, m.pay), |c.c2s|);
            && (if m.pay == [] then c3 == c4
                else ServerMayRead(c3, |m.pay|) && Connection.ServerReads(c3, |m.pay|) == c4)
            && S.Enabled(c4.sess, Filled)
            && ServerDoes(c4, Filled) == Reading(c, S.Executing(m.hdr, m.pay), |c.c2s|)
  {
    hide Word, StreamPrefix.Valid;
    var f := c.c2s;
    assert f[..PREFIX_SIZE] == m.hdr && f[PREFIX_SIZE..] == m.pay && f[..|f|] == f && f[|f|..] == [];
    assert m.pay[..|m.pay|] == m.pay && m.pay[|m.pay|..] == [] && [] + m.pay == m.pay;
    assert c.sess.input + m.hdr + m.pay == c.sess.input + f;
    assert Word(m.hdr, LEN) == |m.pay|;
  }

  /** The session reads a request. */
  lemma ServerTakes(from: System, s: System, m: Msg)
    requires Reaches(from, s) && s.cur < |s.conns| && Asked(s.conns[s.cur], m)
    ensures var c := s.conns[s.cur];
            Reaches(from, With(s, Reading(c, S.Executing(m.hdr, m.pay), |c.c2s|)))
  {
    var c := s.conns[s.cur];
    TakesHeader(c, m);
    TakesPayload(c, m);
    WithSame(s);
    hide Word, Reaches, Step, Enabled, With, StreamPrefix.Valid, S.Step, S.Enabled, ServerDoes, Connection.ServerReads,
         ServerMayRead, Reading, Asked;
    if c.sess.pc.Waiting? {
      ServerEvent(from, s, c, Ready);
    }
    ServerInput(from, s, Reading(c, S.ReadingHeader([]), 0), PREFIX_SIZE);
    ServerEvent(from, s, Reading(c, S.ReadingHeader(m.hdr), PREFIX_SIZE), Filled);
    if m.pay != [] {
      ServerInput(from, s, Reading(c, S.ReadingPayload(m.hdr, []), PREFIX_SIZE), |m.pay|);
    }
    ServerEvent(from, s, Reading(c, S.ReadingPayload(m.hdr, m.pay), |c.c2s|), Filled);
  }

  lemma WithSame(s: System)
    requires s.cur < |s.conns|
    ensures With(s, s.conns[s.cur]) == s
  {
    assert s.conns[s.cur := s.conns[s.cur]] == s.conns;
  }

  lemma Executes(c: Conn, m: Msg, result: HandlerResult)
    requires Asked(c, m) && (m.isRequest ==> result.Done?)
    ensures var c1 := Reading(c, S.Executing(m.hdr, m.pay), |c.c2s|);
            var frame := S.ReplyFrame(S.AnswerTo(m.hdr, c.sess.outCmd, c.sess.outCode, result));
            && S.Enabled(c1.sess, Ran(result)) && |frame| >= PREFIX_SIZE
            && Replying(ServerDoes(c1, Ran(result)), frame, c.handled + if m.isRequest then [m.id] else [])
  {
    hide StreamPrefix.Valid, Header, Word;
    assert c.c2s[|c.c2s|..] == [];
    assert Word(m.hdr, CMD) == if m.isRequest then CMD_REQUEST else CMD_PING_REQUEST;
  }

  /** The session has begun a reply and sent nothing of it. */
  predicate Replying(c: Conn, frame: seq<byte>, handled: seq<nat>) {
    && c.sess.pc == S.Sending(frame) && c.c2s == [] && c.unsent == [] && c.queue == [] && !c.deaf
    && c.s2c == [] && c.handled == handled
  }

  /** Header and payload are sent one after the other. */
  lemma SendsReply(c: Conn, frame: seq<byte>, handled: seq<nat>)
    requires Replying(c, frame, handled) && |frame| >= PREFIX_SIZE
    ensures S.Enabled(c.sess, Sent(PREFIX_SIZE))
    ensures var c1 := Connection.ServerSends(c, PREFIX_SIZE);
            if |frame| == PREFIX_SIZE then Served(c1, frame, handled)
            else && S.Enabled(c1.sess, Sent(|frame| - PREFIX_SIZE))
                 && Served(Connection.ServerSends(c1, |frame| - PREFIX_SIZE), frame, handled)
  {
    var hdr, pay := frame[..PREFIX_SIZE], frame[PREFIX_SIZE..];
    assert [] + hdr == hdr && hdr + pay == frame && pay[..|pay|] == pay && frame[..|frame|] == frame;
  }

  lemma ServerOutput(from: System, s: System, c: Conn, n: nat)
    requires s.cur < |s.conns| && Reaches(from, With(s, c)) && S.Enabled(c.sess, Sent(n))
    ensures Reaches(from, With(s, Connection.ServerSends(c, n)))
  {
    hide Reaches, Connection.ServerSends, S.Enabled;
    var c' := Connection.ServerSends(c, n);
    assert s.conns[s.cur := c][s.cur := c'] == s.conns[s.cur := c'];
    Then(from, With(s, c), ServerSends(s.cur, n));
  }

  /** The session executes it and replies. */
  lemma ServerReplies(from: System, s: System, m: Msg, result: HandlerResult) returns (t: System)
    requires Reaches(from, s) && s.cur < |s.conns| && Asked(s.conns[s.cur], m) && (m.isRequest ==> result.Done?)
    ensures Reaches(from, t) && |t.conns| == |s.conns| && t == With(s, t.conns[s.cur])
    ensures var c := s.conns[s.cur];
            var a := S.AnswerTo(m.hdr, c.sess.outCmd, c.sess.outCode, result);
            Served(t.conns[s.cur], S.ReplyFrame(a), c.handled + if m.isRequest then [m.id] else [])
  {
    hide Run, Reaches, S.AnswerTo, S.ReplyFrame, S.Enabled, ServerDoes, Connection.ServerSends, Reading, Asked, Served,
         Replying, Step, Enabled;
    var c := s.conns[s.cur];
    ServerTakes(from, s, m);
    Executes(c, m, result);
    var frame := S.ReplyFrame(S.AnswerTo(m.hdr, c.sess.outCmd, c.sess.outCode, result));
    var c1 := Reading(c, S.Executing(m.hdr, m.pay), |c.c2s|);
    ServerEvent(from, s, c1, Ran(result));
    var c2 := ServerDoes(c1, Ran(result));
    SendsReply(c2, frame, c.handled + if m.isRequest then [m.id] else []);
    ServerOutput(from, s, c2, PREFIX_SIZE);
    var c3 := Connection.ServerSends(c2, PREFIX_SIZE);
    if |frame| > PREFIX_SIZE {
      ServerOutput(from, s, c3, |frame| - PREFIX_SIZE);
      c3 := Connection.ServerSends(c3, |frame| - PREFIX_SIZE);
    }
    t := With(s, c3);
  }

  /** The client begins a call and gets its frame out whole. */
  lemma ClientSpeaks(from: System, s: System, e: Event) returns (t: System)
    requires Reaches(from, s) && s.cur < |s.conns| && s.client.at.Idle? && s.client.open && (e.Begin? || e.BeginSync?)
    requires !s.conns[s.cur].deaf && s.conns[s.cur].unsent == [] && s.conns[s.cur].c2s == []
    ensures var m := MsgFor(|s.calls|, e);
            && Reaches(from, t) && t.cur == s.cur && t.client.open && t.dirty == s.dirty
            && MsgOk(m) && Current(t) == m && |t.calls| == |s.calls| + 1
            && t.client.at == (if e.Begin? then C.AwaitingHeader([]) else C.AwaitingPong([]))
            && (e.Begin? ==> t.client.attempt == 1 && t.client.frame == e.frame)
            && t.conns == With(s, s.conns[s.cur].(c2s := BytesOf(m), queue := s.conns[s.cur].queue + [m])).conns
  {
    hide Header, Run, Word, Valid, Reaches, MsgOk, MsgFor, C.RequestFrame, C.PingFrame;
    var m := MsgFor(|s.calls|, e);
    MsgForOk(|s.calls|, e);
    Then(from, s, Starts(e));
    t := Step(s, Starts(e));
    var rest, c := t.client.at.rest, s.conns[s.cur];
    assert rest == BytesOf(m) && rest[..PREFIX_SIZE] == m.hdr && rest[PREFIX_SIZE..] == m.pay;
    assert [] + m.hdr == m.hdr && m.hdr + m.pay == rest && m.pay[..|m.pay|] == m.pay && m.pay[|m.pay|..] == [];
    Then(from, t, ClientSends(PREFIX_SIZE));
    t := Step(t, ClientSends(PREFIX_SIZE));
    var c1 := c.(c2s := m.hdr, unsent := m.pay, queue := c.queue + [m]);
    assert t.conns == s.conns[s.cur := c1];
    if m.pay != [] {
      Then(from, t, ClientSends(|m.pay|));
      t := Step(t, ClientSends(|m.pay|));
      var c2 := c1.(c2s := rest, unsent := []);
      assert s.conns[s.cur := c1][s.cur := c2] == s.conns[s.cur := c2];
    } else {
      assert rest == m.hdr;
    }
  }

  /** The client reads a whole frame: one more `Filled` and the call returns it. */
  lemma ClientListens(from: System, s: System, a: S.Answer) returns (t: System)
    requires Reaches(from, s) && s.cur < |s.conns| && s.client.at == C.AwaitingHeader([]) && s.client.open
    requires s.conns[s.cur].s2c == S.ReplyFrame(a)
    ensures Reaches(from, t) && t == With(s, s.conns[s.cur].(s2c := [])).(client := t.client)
    ensures t.client == s.client.(at := C.AwaitingPayload(Header(a.cmd, a.code, 0, |a.pay|), a.pay))
    ensures Enabled(t, ClientFilled)
  {
    hide Run, Reaches, Word, Valid, Header;
    var hdr, r, c := Header(a.cmd, a.code, 0, |a.pay|), S.ReplyFrame(a), s.conns[s.cur];
    HeaderFields(a.cmd, a.code, 0, |a.pay|);
    assert r[..PREFIX_SIZE] == hdr && r[PREFIX_SIZE..] == a.pay && a.pay[..|a.pay|] == a.pay;
    assert [] + hdr == hdr && hdr + [] == hdr && [] + a.pay == a.pay;
    Then(from, s, ClientReads(PREFIX_SIZE));
    t := Step(s, ClientReads(PREFIX_SIZE));
    assert t == With(s, c.(s2c := a.pay)).(client := s.client.(at := C.AwaitingHeader(hdr)));
    Then(from, t, ClientFilled);
    t := Step(t, ClientFilled);
    assert t.client == s.client.(at := C.AwaitingPayload(hdr, []));
    if a.pay != [] {
      assert a.pay[|a.pay|..] == [];
      Then(from, t, ClientReads(|a.pay|));
      t := Step(t, ClientReads(|a.pay|));
      assert s.conns[s.cur := c.(s2c := a.pay)][s.cur := c.(s2c := [])] == s.conns[s.cur := c.(s2c := [])];
    }
  }

  lemma MsgForFields(id: nat, e: Event)
    requires e.Begin? || e.BeginSync?
    ensures var m := MsgFor(id, e);
            && m.id == id && m.isRequest == e.Begin?
            && (e.Begin? ==> Word(m.hdr, CMD) == CMD_REQUEST)
            && (e.BeginSync? ==> Word(m.hdr, CMD) == CMD_PING_REQUEST && Word(m.hdr, CODE) == e.rand)
  {
    if e.Begin? {
      HeaderFields(CMD_REQUEST, 0, Wrap32(e.ms), |e.frame|);
    } else {
      HeaderFields(CMD_PING_REQUEST, e.rand, Wrap32(e.ms), 0);
    }
  }

  /** The client is between calls, and on its connection every `Sync` has returned true and the session lives. */
  ghost predicate AtRest(s: System) {
    s.client.at.Idle? && s.client.open && !s.dirty && s.cur < |s.conns| && S.Alive(s.conns[s.cur].sess)
  }

  lemma RestIsQuiet(s: System)
    requires Inv(s) && AtRest(s)
    ensures AllQuiet(s.conns[s.cur]) && !s.conns[s.cur].deaf && !s.conns[s.cur].sess.deaf
  {
    hide MsgOk, Word, Valid, CallsOk, TxSilenced, AttemptOk, Attributed;
    CurrentOrdered(s);
    QuietConn(s.conns[s.cur], Current(s));
  }
}
