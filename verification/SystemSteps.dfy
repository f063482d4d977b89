/** The client's actions keep the invariant, and with the server's so does every run. */
module SystemSteps {
  import opened Bytes
  import opened StreamPrefix
  import opened Transfer
  import opened Connection
  import opened System
  import opened SystemInvariant
  import C = Client
  import S = Session
  import L = SessionLaws

  lemma MsgForOk(id: nat, e: Event)
    requires e.Begin? || e.BeginSync?
    ensures MsgOk(MsgFor(id, e)) && MsgFor(id, e).id == id
    ensures e.Begin? ==> C.RequestFrame(e.frame, e.ms) == BytesOf(MsgFor(id, e))
    ensures e.BeginSync? ==> C.PingFrame(e.rand, e.ms) == BytesOf(MsgFor(id, e))
  {
    if e.Begin? {
      HeaderFields(CMD_REQUEST, 0, Wrap32(e.ms), |e.frame|);
    } else {
      HeaderFields(CMD_PING_REQUEST, e.rand, Wrap32(e.ms), 0);
      assert C.PingFrame(e.rand, e.ms) + [] == C.PingFrame(e.rand, e.ms);
    }
  }

  lemma CurrentOrdered(s: System)
    requires ConnsOk(s) && s.cur < |s.conns|
    ensures Ordered(s.conns[s.cur], |s.calls|) && InStep(s.conns[s.cur])
    ensures Attributed(s.conns[s.cur], s.cur, s.calls)
  {
    hide InStep, Ordered;
  }

  // ---------------------------------------------------------------- a call starts

  lemma StartTidy(c: Conn, m: Msg, m': Msg)
    requires Tidy(c, Resting, m, []) && c.unsent == []
    ensures Tidy(c, Speaking, m', [])
  {
    hide Answers, OnlyReply;
  }

  lemma StartsKeeps(s: System, e: Event)
    requires Inv(s) && Enabled(s, Starts(e))
    ensures Inv(Step(s, Starts(e)))
  {
    hide InStep, Tidy, Attributed, Ordered, Silenced, MsgFor, Header, C.RequestFrame, C.PingFrame, AttemptsOk;
    var s' := Step(s, Starts(e));
    var m := MsgFor(|s.calls|, e);
    MsgForOk(|s.calls|, e);
    assert |BytesOf(m)| >= PREFIX_SIZE;
    assert Current(s') == m;
    assert ClientOk(s');
    assert Linked(s') by {
      if s.client.open {
        CurrentOrdered(s);
      }
    }
    GrownConns(s, s');
    assert CallsOk(s') by {
      NewCallOk(m, |s.calls|, s.client.open, s.cur, |s.conns|);
    }
    assert QuietMove(s, s');
    QuietKeepsTxSilenced(s, s');
    if s.client.open && !s.dirty {
      StartTidy(s.conns[s.cur], Current(s), m);
    }
  }

  lemma NewCallOk(m: Msg, id: nat, reached: bool, conn: nat, conns: nat)
    requires MsgOk(m) && m.id == id && (reached ==> conn < conns)
    ensures AttemptsOk(CallRec(m, [Attempt(reached, conn, CONN_OK, false)]), id, conns)
  {
    hide MsgOk;
  }

  // ---------------------------------------------------------------- sending

  lemma SendOrdered(c: Conn, m: Msg, rest: seq<byte>, n: nat)
    requires n <= |rest| && (if c.unsent == [] then Ordered(c, m.id) else Ordered(c, m.id + 1))
    ensures Ordered(Connection.ClientSends(c, m, rest, n), m.id + 1)
  {
  }

  lemma SendAttributed(c: Conn, k: nat, calls: seq<CallRec>, m: Msg, rest: seq<byte>, n: nat)
    requires Attributed(c, k, calls) && n <= |rest| && (c.unsent == [] ==> Ordered(c, m.id))
    requires m.id + 1 == |calls| && calls[m.id].msg == m && Tried(calls[m.id], k)
    ensures Attributed(Connection.ClientSends(c, m, rest, n), k, calls)
  {
    hide Tried;
    SendOrdered(c, m, rest, n);
  }

  lemma CurrentTried(s: System)
    requires AttemptOk(s) && !s.client.at.Idle? && !s.client.at.Reconnecting? && s.client.open
    ensures Tried(s.calls[|s.calls| - 1], s.cur)
  {
    var a := s.calls[|s.calls| - 1].attempts;
    assert a[|a| - 1].reached && a[|a| - 1].conn == s.cur;
  }

  lemma ClientSendsKeeps(s: System, n: nat)
    requires Inv(s) && Enabled(s, ClientSends(n))
    ensures Inv(Step(s, ClientSends(n)))
  {
    hide InStep, Tidy, Attributed, Ordered, MsgFor, AttemptsOk, Tried, FlatMsgs, BytesOf, MsgOk, Silenced, TxSilenced, Word,
         Valid, C.Lose, C.RequestFrame, C.PingFrame;
    var s' := Step(s, ClientSends(n));
    var c, m, rest := s.conns[s.cur], Current(s), s.client.at.rest;
    var c' := Connection.ClientSends(c, m, rest, n);
    CurrentOrdered(s);
    CurrentTried(s);
    assert Current(s') == m;
    assert ClientOk(s');
    assert (c.unsent == [] && rest == BytesOf(m) && Ordered(c, m.id)) || (c.unsent == rest && c.queue != []);
    assert MsgOk(m) by { CurrentMsgOk(s); }
    ClientSendStaysInStep(c, m, rest, n);
    SendAttributed(c, s.cur, s.calls, m, rest, n);
    assert ConnsOk(s');
    assert Linked(s');
    assert CallsOk(s') && AttemptOk(s');
    assert TxSilenced(s') by {
      OthersStaySilenced(s, s');
    }
    if !s.dirty {
      ClientSendStaysTidy(c, m, rest, n);
    }
  }

  lemma CurrentMsgOk(s: System)
    requires CallsOk(s) && s.calls != []
    ensures MsgOk(Current(s)) && Current(s).id == |s.calls| - 1
  {
    hide MsgOk;
    assert AttemptsOk(s.calls[|s.calls| - 1], |s.calls| - 1, |s.conns|);
  }

  /** No frame is silenced on a connection that can still be sent on, so sending there silences none. */
  lemma OthersStaySilenced(s: System, s': System)
    requires CallsOk(s) && CallsOk(s') && TxSilenced(s) && s'.calls == s.calls && s'.cur == s.cur
    requires s.client.open && s'.client.open && s.cur < |s.conns| && !s.conns[s.cur].deaf
    requires |s'.conns| == |s.conns| && forall k :: 0 <= k < |s.conns| && k != s.cur ==> s'.conns[k] == s.conns[k]
    ensures TxSilenced(s')
  {
    hide AttemptsOk;
    forall id, a | 0 <= id < |s.calls| && 0 <= a < |s.calls[id].attempts|
      ensures var at := s.calls[id].attempts[a];
              at.reached && at.unsent ==> at.conn < |s.conns| && Silenced(s', at.conn, id)
    {
      var at := s.calls[id].attempts[a];
      if at.reached && at.unsent {
        ReachedConnExists(s.calls[id], id, |s.conns|, a);
        assert Silenced(s, at.conn, id);
      }
    }
  }

  // ---------------------------------------------------------------- an attempt fails

  lemma DeafAttributed(c: Conn, k: nat, calls: seq<CallRec>)
    requires Attributed(c, k, calls) && InStep(c)
    ensures Attributed(c.(deaf := true), k, calls) && InStep(c.(deaf := true))
  {
    hide Tried, FlatMsgs, MsgOk;
  }

  /** A frame of which some byte was never accepted is silenced when its sender gives up. */
  lemma UnsentIsSilenced(s: System, s': System)
    requires Linked(s) && ConnsOk(s) && ClientOk(s) && s.client.open && PhaseOf(s.client.at) == Speaking
    requires |s'.conns| == |s.conns| && s'.conns[s.cur] == s.conns[s.cur].(deaf := true)
    ensures Silenced(s', s.cur, |s.calls| - 1)
  {
    hide InStep, Tried;
    CurrentOrdered(s);
    var c := s.conns[s.cur];
    assert Current(s).id == |s.calls| - 1;
  }

  lemma ClientSendFailsKeeps(s: System, why: ConnState)
    requires Inv(s) && Enabled(s, ClientSendFails(why))
    ensures Inv(Step(s, ClientSendFails(why)))
  {
    hide InStep, Tidy, Attributed, Ordered, MsgFor, AttemptsOk, Tried, Silenced, Ended;
    var s' := Step(s, ClientSendFails(why));
    var last := |s.calls| - 1;
    var a := s.calls[last].attempts;
    EndedFacts(s.calls, why, true, |s.conns|);
    assert Current(s') == Current(s);
    assert ClientOk(s');
    assert s'.client.open ==> s.client.open && s'.cur == s.cur;
    assert Linked(s') by {
      if s'.client.open {
        assert s'.client.at == C.Idle && s'.conns[s'.cur].deaf;
      }
    }
    assert CallsOk(s');
    assert AttemptOk(s');
    var mid := s.(conns := s'.conns);
    assert ConnsOk(mid) by {
      if s.client.open {
        DeafAttributed(s.conns[s.cur], s.cur, s.calls);
      }
    }
    GrownConns(mid, s');
    assert QuietMove(s, s');
    if s.client.open {
      UnsentIsSilenced(s, s');
    }
    QuietKeepsTxSilenced(s, s');
  }

  lemma ClientReadFailsKeeps(s: System, why: ConnState)
    requires Inv(s) && Enabled(s, ClientReadFails(why))
    ensures Inv(Step(s, ClientReadFails(why)))
  {
    hide InStep, Tidy, Attributed, Ordered, MsgFor, AttemptsOk, Tried, Silenced, Ended, Word, Grown;
    var s' := Step(s, ClientReadFails(why));
    EndedFacts(s.calls, why, false, |s.conns|);
    assert Current(s') == Current(s);
    assert ClientOk(s');
    assert Linked(s');
    assert CallsOk(s');
    assert AttemptOk(s');
    GrownConns(s, s');
    assert QuietMove(s, s');
    QuietKeepsTxSilenced(s, s');
  }

  // ---------------------------------------------------------------- reading

  lemma ReadAttributed(c: Conn, k: nat, calls: seq<CallRec>, c': Conn)
    requires Attributed(c, k, calls) && InStep(c)
    requires c' == c.(s2c := c'.s2c, reply := c'.reply)
    ensures Attributed(c', k, calls) && InStep(c')
  {
    hide Tried, FlatMsgs, MsgOk;
  }

  lemma ClientReadsKeeps(s: System, n: nat)
    requires Inv(s) && Enabled(s, ClientReads(n))
    ensures Inv(Step(s, ClientReads(n)))
  {
    hide InStep, Tidy, Attributed, Ordered, MsgFor, AttemptsOk, Tried, Silenced, Word;
    var s' := Step(s, ClientReads(n));
    var c := s.conns[s.cur];
    ReadAttributed(c, s.cur, s.calls, s'.conns[s.cur]);
    assert Current(s') == Current(s);
    assert ClientOk(s') && Linked(s') && CallsOk(s') && AttemptOk(s') && ConnsOk(s');
    assert QuietMove(s, s');
    QuietKeepsTxSilenced(s, s');
    if !s.dirty {
      ClientReadStaysTidy(c, Current(s), GotOf(s.client.at), n);
      if s.client.at.AwaitingPayload? {
        assert s.client.at.hdr + (s.client.at.got + c.s2c[..n]) == GotOf(s.client.at) + c.s2c[..n];
      }
    }
  }

  /** In an answered call a whole pong is the ping's reply, or the ERROR frame of an ended session. */
  lemma PongFromTidy(c: Conn, m: Msg, hdr: Hdr, rand: u32)
    requires InStep(c) && Tidy(c, Listening, m, hdr) && !m.isRequest && Word(m.hdr, CODE) == rand
    ensures Word(hdr, LEN) == 0
    ensures C.PongOk(hdr, rand) <==> c.reply.Replied?
  {
    hide FlatMsgs, MsgOk, Header, L.WellFormed, Valid;
    assert hdr + [] == hdr;
    HeaderFromTidy(c, m, hdr, []);
    hide InStep, Word, OnlyReply, Answers;
    if c.reply.Replied? {
      AnswerIsFrame(c, m, c.reply.frame);
    }
  }

  lemma PingCode(s: System)
    requires ClientOk(s) && IsPing(s.client.at)
    ensures !Current(s).isRequest && Word(Current(s).hdr, CODE) == s.client.rand
  {
    HeaderFields(CMD_PING_REQUEST, s.client.rand, Wrap32(s.client.ms), 0);
  }

  /** When a call completes on an answered connection, the connection is answered again. */
  lemma CompletionTidy(s: System)
    requires Inv(s) && Enabled(s, ClientFilled) && !s.dirty && Step(s, ClientFilled).client.at.Idle?
    requires !Step(s, ClientFilled).dirty && Step(s, ClientFilled).client.open
    ensures Tidy(s.conns[s.cur].(reply := NoReply), Resting, Current(s), [])
  {
    hide InStep, Tidy, Ordered, MsgFor, AttemptsOk, Tried, Silenced, Word, ClientOk, Linked, CallsOk, TxSilenced, AttemptOk;
    var c, m := s.conns[s.cur], Current(s);
    assert InStep(c) by { CurrentOrdered(s); }
    match s.client.at
    case AwaitingPayload(hdr, got) =>
      FrameFromTidy(c, m, hdr, got);
    case AwaitingPong(got) =>
      PingCode(s);
      PongFromTidy(c, m, got, s.client.rand);
      assert got + [] == got;
      FrameFromTidy(c, m, got, []);
    case _ =>
  }

  /** No attempt has newly ended in a failed send. */
  ghost predicate NoNewTx(calls: seq<CallRec>, calls': seq<CallRec>) {
    forall id, a :: 0 <= id < |calls'| && 0 <= a < |calls'[id].attempts| && calls'[id].attempts[a].unsent ==>
      id < |calls| && a < |calls[id].attempts| && calls[id].attempts[a] == calls'[id].attempts[a]
  }

  lemma FilledConns(s: System)
    requires Inv(s) && Enabled(s, ClientFilled)
    ensures var s' := Step(s, ClientFilled);
            && ConnsOk(s.(conns := s'.conns)) && QuietMove(s, s') && CallsOk(s') && AttemptOk(s')
            && Grown(s.calls, s'.calls) && |s'.calls| == |s.calls| && NoNewTx(s.calls, s'.calls)
  {
    hide InStep, Tidy, Attributed, Ordered, MsgFor, AttemptsOk, Tried, Silenced, Ended, Word, C.PongOk, Valid,
         Linked, TxSilenced;
    var c := s.conns[s.cur];
    EndedFacts(s.calls, ERR_SYNC, false, |s.conns|);
    CurrentOrdered(s);
    ReadAttributed(c, s.cur, s.calls, c.(reply := NoReply));
    StaysGrown(s.calls);
  }

  lemma ClientFilledKeeps(s: System)
    requires Inv(s) && Enabled(s, ClientFilled)
    ensures Inv(Step(s, ClientFilled))
  {
    hide InStep, Tidy, Attributed, Ordered, MsgFor, AttemptsOk, Tried, Silenced, Ended, Word, C.PongOk, Valid,
         QuietMove, Grown, AttemptOk;
    var s' := Step(s, ClientFilled);
    FilledConns(s);
    assert Current(s') == Current(s) by { GrownCurrent(s, s'); }
    assert ClientOk(s');
    assert Linked(s');
    GrownConns(s.(conns := s'.conns), s');
    QuietKeepsTxSilenced(s, s');
    if s'.client.open && !s'.dirty {
      if s'.client.at.Idle? {
        CompletionTidy(s);
      } else {
        assert s.client.at.got + [] == s.client.at.got;
      }
    }
  }

  lemma GrownCurrent(s: System, s': System)
    requires Grown(s.calls, s'.calls) && |s.calls| == |s'.calls|
    ensures Current(s') == Current(s)
  {
  }

  lemma StaysGrown(calls: seq<CallRec>)
    ensures Grown(calls, calls)
  {
  }

  // ---------------------------------------------------------------- new connections

  lemma FreshConn(k: nat, calls: seq<CallRec>, m: Msg, bound: nat)
    ensures InStep(FRESH) && Attributed(FRESH, k, calls) && Ordered(FRESH, bound)
    ensures Tidy(FRESH, Resting, m, []) && Tidy(FRESH, Speaking, m, [])
  {
  }

  lemma MoreConns(rec: CallRec, id: nat, conns: nat)
    requires AttemptsOk(rec, id, conns)
    ensures AttemptsOk(rec, id, conns + 1)
  {
    hide MsgOk;
  }

  lemma RetriedFacts(calls: seq<CallRec>, conns: nat)
    requires calls != [] && |calls[|calls| - 1].attempts| == 1
    requires calls[|calls| - 1].attempts[0].why in {ERR_TX, ERR_RX}
    requires AttemptsOk(calls[|calls| - 1], |calls| - 1, conns)
    ensures var calls' := Retried(calls, conns);
            var last, a := |calls| - 1, calls[|calls| - 1].attempts;
            && |calls'| == |calls| && Grown(calls, calls')
            && (forall id :: 0 <= id < last ==> calls'[id] == calls[id])
            && calls'[last] == calls[last].(attempts := a + [Attempt(true, conns, CONN_OK, false)])
            && AttemptsOk(calls'[last], last, conns + 1)
            && NoNewTx(calls, calls')
  {
    hide MsgOk;
  }

  lemma ReconnectRecords(s: System)
    requires Inv(s) && Enabled(s, Reconnects)
    ensures var s' := Step(s, Reconnects);
            && CallsOk(s') && ConnsOk(s') && AttemptOk(s') && QuietMove(s, s')
            && Grown(s.calls, s'.calls) && |s'.calls| == |s.calls| && NoNewTx(s.calls, s'.calls)
  {
    hide InStep, Attributed, AttemptsOk, Retried, ClientOk, Linked, TxSilenced, TidyOk, Current, Ordered, Grown, NoNewTx;
    var s' := Step(s, Reconnects);
    var last := |s.calls| - 1;
    assert AttemptsOk(s.calls[last], last, |s.conns|);
    RetriedFacts(s.calls, |s.conns|);
    FreshConn(|s.conns|, s'.calls, Current(s'), last);
    assert CallsOk(s') by {
      forall id | 0 <= id < |s.calls|
        ensures AttemptsOk(s'.calls[id], id, |s.conns| + 1)
      {
        MoreConns(s.calls[id], id, |s.conns|);
      }
    }
    GrownConns(s, s.(calls := s'.calls));
    assert ConnsOk(s');
    hide ConnsOk, CallsOk;
    assert QuietMove(s, s');
    hide QuietMove;
  }

  lemma ReconnectsKeeps(s: System)
    requires Inv(s) && Enabled(s, Reconnects)
    ensures Inv(Step(s, Reconnects))
  {
    hide InStep, Tidy, Attributed, Ordered, AttemptsOk, Tried, Silenced, Retried, FlatMsgs, Header, QuietMove, Grown;
    var s' := Step(s, Reconnects);
    var last := |s.calls| - 1;
    ReconnectRecords(s);
    assert Current(s') == Current(s) by { GrownCurrent(s, s'); }
    QuietKeepsTxSilenced(s, s');
    hide CallsOk, ConnsOk, TxSilenced, AttemptOk;
    FreshConn(|s.conns|, s'.calls, Current(s'), last);
    MsgForOk(last, Begin(s.client.frame, s.client.ms));
    assert |BytesOf(Current(s))| >= PREFIX_SIZE;
    assert ClientOk(s');
    assert Linked(s');
  }

  lemma ReconnectFailsKeeps(s: System, why: ConnState)
    requires Inv(s) && Enabled(s, ReconnectFails(why))
    ensures Inv(Step(s, ReconnectFails(why)))
  {
    hide InStep, Tidy, Attributed, Ordered, AttemptsOk, Tried, Silenced, MsgFor;
    var s' := Step(s, ReconnectFails(why));
    assert Current(s') == Current(s);
    assert QuietMove(s, s');
    QuietKeepsTxSilenced(s, s');
  }

  lemma UserClosesKeeps(s: System)
    requires Inv(s) && Enabled(s, UserCloses)
    ensures Inv(Step(s, UserCloses))
  {
    hide InStep, Tidy, Attributed, Ordered, AttemptsOk, Tried, Silenced, MsgFor;
    var s' := Step(s, UserCloses);
    assert Current(s') == Current(s);
    assert QuietMove(s, s');
    QuietKeepsTxSilenced(s, s');
  }

  lemma UserConnectsKeeps(s: System)
    requires Inv(s) && Enabled(s, UserConnects)
    ensures Inv(Step(s, UserConnects))
  {
    hide InStep, Tidy, Attributed, Ordered, AttemptsOk, Tried, Silenced, MsgFor;
    var s' := Step(s, UserConnects);
    FreshConn(|s.conns|, s.calls, Current(s'), 0);
    assert Current(s') == Current(s);
    assert ClientOk(s') && Linked(s') && ConnsOk(s');
    assert CallsOk(s') by {
      forall id | 0 <= id < |s.calls|
        ensures AttemptsOk(s.calls[id], id, |s.conns| + 1)
      {
        MoreConns(s.calls[id], id, |s.conns|);
      }
    }
    assert QuietMove(s, s');
    QuietKeepsTxSilenced(s, s');
  }

  // ---------------------------------------------------------------- every action, every run

  lemma ServerActionsKeep(s: System, a: Action)
    requires Inv(s) && Enabled(s, a) && (a.Server? || a.ServerReads? || a.ServerSends?)
    ensures Inv(Step(s, a))
  {
    hide InStep, Tidy, ClientOk, Linked, CallsOk, TxSilenced, AttemptOk, Attributed, S.Enabled, ServerDoes,
         Connection.ServerReads, Connection.ServerSends, Shift;
    var c := s.conns[a.k];
    var tidy := a.k == s.cur && s.client.open && !s.dirty;
    var phase, m, got := PhaseOf(s.client.at), Current(s), GotOf(s.client.at);
    assert InStep(c);
    match a
    case Server(k, e) =>
      ServerStaysInStep(c, e);
      ServerShifts(c, e);
      if tidy { ServerStaysTidy(c, e, phase, m, got); }
      ServerKeeps(s, k, ServerDoes(c, e));
    case ServerReads(k, n) =>
      ReadStaysInStep(c, n);
      ReadShifts(c, n);
      if tidy { ReadStaysTidy(c, n, phase, m, got); }
      ServerKeeps(s, k, Connection.ServerReads(c, n));
    case ServerSends(k, n) =>
      SendStaysInStep(c, n);
      SendShifts(c, n);
      if tidy { SendStaysTidy(c, n, phase, m, got); }
      ServerKeeps(s, k, Connection.ServerSends(c, n));
  }

  lemma ReadShifts(c: Conn, n: nat)
    requires ServerMayRead(c, n)
    ensures Shift(c, Connection.ServerReads(c, n))
  {
  }

  lemma SendShifts(c: Conn, n: nat)
    requires S.Enabled(c.sess, Sent(n))
    ensures Shift(c, Connection.ServerSends(c, n))
  {
  }

  lemma StepKeeps(s: System, a: Action)
    requires Inv(s) && Enabled(s, a)
    ensures Inv(Step(s, a))
  {
    match a
    case Starts(e) => StartsKeeps(s, e);
    case ClientSends(n) => ClientSendsKeeps(s, n);
    case ClientSendFails(why) => ClientSendFailsKeeps(s, why);
    case ClientReads(n) => ClientReadsKeeps(s, n);
    case ClientFilled => ClientFilledKeeps(s);
    case ClientReadFails(why) => ClientReadFailsKeeps(s, why);
    case Reconnects => ReconnectsKeeps(s);
    case ReconnectFails(why) => ReconnectFailsKeeps(s, why);
    case UserCloses => UserClosesKeeps(s);
    case UserConnects => UserConnectsKeeps(s);
    case _ => ServerActionsKeep(s, a);
  }

  lemma {:induction false} RunKeeps(s: System, actions: seq<Action>)
    requires Inv(s) && Runs(s, actions)
    ensures Inv(Run(s, actions))
    decreases |actions|
  {
    hide Inv, Step, Enabled;
    if actions != [] {
      StepKeeps(s, actions[0]);
      RunKeeps(Step(s, actions[0]), actions[1..]);
    }
  }

  lemma StartInv()
    ensures Inv(START)
  {
  }

  /** The invariant of every reachable state. */
  lemma Reachable(actions: seq<Action>)
    requires Runs(START, actions)
    ensures Inv(Run(START, actions))
  {
    hide *;
    StartInv();
    RunKeeps(START, actions);
  }
}
