/** Every action of the system keeps its invariant. */
module SystemInvariant {
  import opened StreamPrefix
  import opened Transfer
  import opened Connection
  import opened System
  import S = Session
  import L = SessionLaws

  // ---------------------------------------------------------------- server moves

  /** A server move leaves the queue alone or executes its first frame. */
  ghost predicate Shift(c: Conn, c': Conn) {
    && c'.unsent == c.unsent && c'.deaf == c.deaf
    && ((c'.queue == c.queue && c'.handled == c.handled && c'.sess.calls == c.sess.calls)
        || (&& c.queue != [] && c'.queue == c.queue[1..] && (c.unsent != [] ==> c'.queue != [])
            && if c.queue[0].isRequest
               then && c'.handled == c.handled + [c.queue[0].id]
                    && |c'.sess.calls| == |c.sess.calls| + 1 && c.sess.calls <= c'.sess.calls
                    && c'.sess.calls[|c.sess.calls|].request == c.queue[0].pay
               else c'.handled == c.handled && c'.sess.calls == c.sess.calls))
  }

  lemma ExecutionShifts(c: Conn, result: HandlerResult)
    requires InStep(c) && c.sess.pc.Executing?
    ensures Shift(c, ServerDoes(c, Ran(result)))
  {
    hide FlatMsgs, L.IsFinal, L.WellFormed, Header, Valid, S.ReplyFrame, S.ErrorFrame, Word;
    ExecutesHead(c);
    assert Word(c.queue[0].hdr, CMD) == if c.queue[0].isRequest then CMD_REQUEST else CMD_PING_REQUEST;
    if c.queue[1..] == [] {
      NoMsgs();
    }
  }

  lemma ServerShifts(c: Conn, e: Event)
    requires InStep(c) && S.Enabled(c.sess, e) && Silent(e)
    ensures Shift(c, ServerDoes(c, e))
  {
    hide InStep;
    if e.Ran? {
      ExecutionShifts(c, e.result);
    } else {
      assert S.Step(c.sess, e).calls == c.sess.calls;
    }
  }

  lemma ShiftKeepsEnds(c: Conn, c': Conn)
    requires Shift(c, c')
    ensures c'.unsent == c.unsent && c'.deaf == c.deaf
  {
  }

  lemma ShiftOrdered(c: Conn, c': Conn, bound: nat)
    requires Shift(c, c') && Ordered(c, bound)
    ensures Ordered(c', bound)
  {
  }

  lemma ShiftAttributed(c: Conn, c': Conn, k: nat, calls: seq<CallRec>)
    requires Shift(c, c') && Attributed(c, k, calls)
    ensures Attributed(c', k, calls)
  {
    hide Tried;
    ShiftOrdered(c, c', |calls|);
    if c'.queue != c.queue {
      var q := c.queue[0];
      assert calls[q.id].msg == q && Tried(calls[q.id], k);
      forall i | 0 <= i < |c'.handled|
        ensures var rec := calls[c'.handled[i]];
                Tried(rec, k) && rec.msg.isRequest && c'.sess.calls[i].request == rec.msg.pay
      {
        if i < |c.handled| {
          assert c'.handled[i] == c.handled[i] && c'.sess.calls[i] == c.sess.calls[i];
        }
      }
    }
  }

  lemma ShiftSilenced(s: System, k: nat, c': Conn, j: nat, id: nat)
    requires k < |s.conns| && j < |s.conns| && Shift(s.conns[k], c') && Silenced(s, j, id)
    ensures Silenced(s.(conns := s.conns[k := c']), j, id)
  {
    var c := s.conns[k];
    if j == k && c'.queue != c.queue && c.queue[0].id == id {
      assert false;
    }
  }

  /** Any move of the server's end of any connection keeps the invariant. */
  lemma ServerKeeps(s: System, k: nat, c': Conn)
    requires Inv(s) && k < |s.conns| && Shift(s.conns[k], c') && InStep(c')
    requires k == s.cur && s.client.open && !s.dirty ==> Tidy(c', PhaseOf(s.client.at), Current(s), GotOf(s.client.at))
    ensures Inv(s.(conns := s.conns[k := c']))
  {
    hide InStep, Tidy, AttemptsOk, Attributed, Ordered, Silenced, Shift;
    var s' := s.(conns := s.conns[k := c']);
    var c := s.conns[k];
    ShiftKeepsEnds(c, c');
    assert Current(s') == Current(s);
    assert ClientOk(s') && AttemptOk(s') && CallsOk(s');
    assert TidyOk(s');
    assert Linked(s') by {
      if s.client.open && k == s.cur {
        LinkSurvives(s, c');
      }
    }
    assert ConnsOk(s') by {
      ShiftAttributed(c, c', k, s.calls);
    }
    assert TxSilenced(s') by {
      forall id, a | 0 <= id < |s.calls| && 0 <= a < |s.calls[id].attempts|
        ensures var at := s.calls[id].attempts[a];
                at.reached && at.unsent ==> at.conn < |s'.conns| && Silenced(s', at.conn, id)
      {
        var at := s.calls[id].attempts[a];
        if at.reached && at.unsent {
          assert AttemptsOk(s.calls[id], id, |s.conns|);
          ReachedConnExists(s.calls[id], id, |s.conns|, a);
          ShiftSilenced(s, k, c', at.conn, id);
        }
      }
    }
  }

  lemma ReachedConnExists(rec: CallRec, id: nat, conns: nat, a: nat)
    requires AttemptsOk(rec, id, conns) && a < |rec.attempts| && rec.attempts[a].reached
    ensures rec.attempts[a].conn < conns
  {
  }

  lemma LinkSurvives(s: System, c': Conn)
    requires Linked(s) && s.client.open && Shift(s.conns[s.cur], c') && ClientOk(s)
    ensures Linked(s.(conns := s.conns[s.cur := c']))
  {
    hide InStep, Ordered;
    var c, s' := s.conns[s.cur], s.(conns := s.conns[s.cur := c']);
    if s.calls != [] && Ordered(c, |s.calls| - 1) {
      ShiftOrdered(c, c', |s.calls| - 1);
    }
    if c'.queue != [] {
      assert c'.queue[|c'.queue| - 1] == c.queue[|c.queue| - 1];
    }
  }

  // ---------------------------------------------------------------- the record of calls

  /** Records only grow: messages stay, attempts stay where they were made. */
  ghost predicate Grown(calls: seq<CallRec>, calls': seq<CallRec>) {
    && |calls| <= |calls'|
    && forall id :: 0 <= id < |calls| ==>
         && calls'[id].msg == calls[id].msg && |calls[id].attempts| <= |calls'[id].attempts|
         && SamePlaces(calls[id].attempts, calls'[id].attempts)
  }

  ghost predicate SamePlaces(a: seq<Attempt>, b: seq<Attempt>)
    requires |a| <= |b|
  {
    forall i :: 0 <= i < |a| ==> b[i].reached == a[i].reached && b[i].conn == a[i].conn
  }

  lemma GrownTried(rec: CallRec, rec': CallRec, k: nat)
    requires |rec.attempts| <= |rec'.attempts| && SamePlaces(rec.attempts, rec'.attempts) && Tried(rec, k)
    ensures Tried(rec', k)
  {
    var a :| 0 <= a < |rec.attempts| && rec.attempts[a].reached && rec.attempts[a].conn == k;
    assert rec'.attempts[a].reached && rec'.attempts[a].conn == k;
  }

  lemma GrownAttributed(c: Conn, k: nat, calls: seq<CallRec>, calls': seq<CallRec>)
    requires Attributed(c, k, calls) && Grown(calls, calls')
    ensures Attributed(c, k, calls')
  {
    hide Tried, SamePlaces;
    forall i | 0 <= i < |c.handled|
      ensures Tried(calls'[c.handled[i]], k)
    {
      GrownTried(calls[c.handled[i]], calls'[c.handled[i]], k);
    }
    forall i | 0 <= i < |c.queue|
      ensures Tried(calls'[c.queue[i].id], k)
    {
      GrownTried(calls[c.queue[i].id], calls'[c.queue[i].id], k);
    }
  }

  lemma GrownConns(s: System, s': System)
    requires ConnsOk(s) && Grown(s.calls, s'.calls) && s'.conns == s.conns
    ensures ConnsOk(s')
  {
    hide Attributed, InStep, Grown;
    forall k | 0 <= k < |s.conns|
      ensures Attributed(s.conns[k], k, s'.calls)
    {
      GrownAttributed(s.conns[k], k, s.calls, s'.calls);
    }
  }

  /** The state after the last attempt of the last call has ended. */
  lemma EndedFacts(calls: seq<CallRec>, why: ConnState, unsent: bool, conns: nat)
    requires calls != [] && calls[|calls| - 1].attempts != []
    requires (why == ERR_TX ==> unsent) && (unsent ==> why in {ERR_TX, ERR_CLOSED})
    ensures var calls' := Ended(calls, why, unsent);
            var last, a := |calls| - 1, calls[|calls| - 1].attempts;
            && |calls'| == |calls| && Grown(calls, calls')
            && (forall id :: 0 <= id < last ==> calls'[id] == calls[id])
            && calls'[last] == calls[last].(attempts := a[|a| - 1 := a[|a| - 1].(why := why, unsent := unsent)])
            && (AttemptsOk(calls[last], last, conns) ==> AttemptsOk(calls'[last], last, conns))
  {
    hide MsgOk;
  }

  /** A silenced frame stays silenced when the client only closes, reads or moves on. */
  lemma StillSilenced(s: System, s': System, k: nat, id: nat)
    requires k < |s.conns| <= |s'.conns| && Silenced(s, k, id)
    requires s'.conns[k].handled == s.conns[k].handled && s'.conns[k].queue == s.conns[k].queue
    requires s'.conns[k].unsent == s.conns[k].unsent && (s.conns[k].deaf ==> s'.conns[k].deaf)
    requires !s'.client.open || (s'.client.open && s.client.open && s'.cur == s.cur) || s'.cur >= |s.conns|
    ensures Silenced(s', k, id)
  {
  }

  /** What a client move that leaves the frames alone has to keep for the silenced ones. */
  ghost predicate QuietMove(s: System, s': System) {
    && |s.conns| <= |s'.conns|
    && (forall k :: 0 <= k < |s.conns| ==>
          && s'.conns[k].handled == s.conns[k].handled && s'.conns[k].queue == s.conns[k].queue
          && s'.conns[k].unsent == s.conns[k].unsent && (s.conns[k].deaf ==> s'.conns[k].deaf))
    && (!s'.client.open || (s.client.open && s'.cur == s.cur) || s'.cur >= |s.conns|)
  }

  lemma QuietKeepsTxSilenced(s: System, s': System)
    requires CallsOk(s) && TxSilenced(s) && CallsOk(s') && QuietMove(s, s')
    requires |s'.calls| >= |s.calls|
    requires forall id, a :: 0 <= id < |s'.calls| && 0 <= a < |s'.calls[id].attempts| ==>
               var at := s'.calls[id].attempts[a];
               at.reached && at.unsent && at.conn < |s'.conns| ==>
                 || Silenced(s', at.conn, id)
                 || (id < |s.calls| && a < |s.calls[id].attempts| && s.calls[id].attempts[a] == at)
    ensures TxSilenced(s')
  {
    hide AttemptsOk, Silenced;
    forall id, a | 0 <= id < |s'.calls| && 0 <= a < |s'.calls[id].attempts|
      ensures var at := s'.calls[id].attempts[a];
              at.reached && at.unsent ==> at.conn < |s'.conns| && Silenced(s', at.conn, id)
    {
      var at := s'.calls[id].attempts[a];
      if at.reached && at.unsent {
        ReachedConnExists(s'.calls[id], id, |s'.conns|, a);
      }
      if at.reached && at.unsent && !Silenced(s', at.conn, id) {
        assert s.calls[id].attempts[a] == at;
        ReachedConnExists(s.calls[id], id, |s.conns|, a);
        assert Silenced(s, at.conn, id);
        StillSilenced(s, s', at.conn, id);
      }
    }
  }
}
