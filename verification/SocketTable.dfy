/** The functions that open and close sockets, as they run when no other thread interferes. */
module SocketTable {
  import opened Transfer
  import opened Sockets
  import opened SocketLaws

  function CloseSlot(w: World, i: nat): World
    requires i < |w.slots|
  {
    if w.slots[i].Held? then OsClose(CountDown(w, i), i) else w
  }

  function OpenSlot(w: World, i: nat): World
    requires i < |w.slots|
  {
    CountUp(OsOpen(w, i), i)
  }

  class Process {
    /** `g_sockets_cnt`, the closes of every handle so far, and the socket variables. */
    var count: int
    var closes: seq<nat>
    var slots: seq<Slot>

    constructor ()
      ensures Shows(START)
    {
      count, closes, slots := 0, [], [Empty, Empty];
    }

    ghost predicate Shows(w: World)
      reads this
    {
      count == w.count && closes == w.closes && slots == w.slots
    }

    method SocketOpen(state: ConnState, i: nat, answered: bool, ghost w: World) returns (state': ConnState)
      requires Shows(w) && i < |slots| && (state == CONN_OK ==> slots[i].Empty?)
      modifies this
      ensures state != CONN_OK ==> state' == state && Shows(w)
      ensures state == CONN_OK && !answered ==> state' == ERR_OPEN && Shows(w)
      ensures state == CONN_OK && answered ==> state' == CONN_OK && Shows(OpenSlot(w, i))
    {
      state' := state;
      if state == CONN_OK {
        state' := ERR_OPEN;
        if answered {
          slots, closes := slots[i := Raw(|closes|)], closes + [0];
        }
        if !slots[i].Empty? {
          slots, count := slots[i := Held(slots[i].h)], count + 1;
          state' := CONN_OK;
        }
      }
    }

    method SocketAccept(state: ConnState, answered: bool, ghost w: World) returns (state': ConnState)
      requires Shows(w) && ACCEPTED < |slots| && slots[ACCEPTED].Empty?
      modifies this
      ensures state != CONN_OK ==> state' == state && Shows(w)
      ensures state == CONN_OK && !answered ==> state' == ERR_ACCEPT && Shows(w)
      ensures state == CONN_OK && answered ==> state' == CONN_OK && Shows(OpenSlot(w, ACCEPTED))
    {
      state' := state;
      if state == CONN_OK {
        state' := ERR_ACCEPT;
        if answered {
          slots, closes := slots[ACCEPTED := Raw(|closes|)], closes + [0];
        }
        if !slots[ACCEPTED].Empty? {
          slots, count := slots[ACCEPTED := Held(slots[ACCEPTED].h)], count + 1;
          state' := CONN_OK;
        }
      }
    }

    /** Uncounts and closes a valid handle; does nothing to an invalid one. */
    method SocketClose(i: nat, ghost w: World)
      requires Shows(w) && i < |slots| && (slots[i].Empty? || (slots[i].Held? && slots[i].h < |closes|))
      modifies this
      ensures Shows(CloseSlot(w, i))
    {
      if !slots[i].Empty? {
        count := count - 1;
        closes := closes[slots[i].h := closes[slots[i].h] + 1];
        slots := slots[i := Empty];
      }
    }

    /** A client's `connect`; `connects` is the answer of the system call. */
    method Connect(i: nat, opens: bool, connects: bool, ghost w: World) returns (state: ConnState)
      requires Shows(w) && i < |slots| && (slots[i].Empty? || (slots[i].Held? && slots[i].h < |closes|))
      modifies this
      ensures Shows(if opens then OpenSlot(CloseSlot(w, i), i) else CloseSlot(w, i))
      ensures state == if !opens then ERR_OPEN else if !connects then ERR_CONNECT else CONN_OK
    {
      SocketClose(i, w);
      state := SocketOpen(CONN_OK, i, opens, CloseSlot(w, i));
      if state == CONN_OK && !connects {
        state := ERR_CONNECT;
      }
    }
  }

  /** The steps a client makes in one `connect`. */
  function ConnectSteps(w: World, c: nat, opens: bool): seq<Action>
    requires ClientAt(w, c)
  {
    [CallsConnect(c)]
    + if ClientSlot(w, c).Held? then [ClientDrops(c)] + ([ClientCloses(c)] + OpenSteps(c, opens)) else OpenSteps(c, opens)
  }

  function OpenSteps(c: nat, opens: bool): seq<Action> {
    [CloseReturns(c)] + ([ClientOpens(c, opens)] + if opens then [ClientCounts(c)] else [])
  }

  lemma RunsOn(w: World, a: Action, rest: seq<Action>)
    requires Enabled(w, a) && Runs(Step(w, a), rest)
    ensures Runs(w, [a] + rest) && Run(w, [a] + rest) == Run(Step(w, a), rest)
  {
    hide Enabled, Step;
    assert ([a] + rest)[1..] == rest;
  }

  lemma OneStep(w: World, a: Action)
    requires Enabled(w, a)
    ensures Runs(w, [a]) && Run(w, [a]) == Step(w, a)
  {
    hide Enabled, Step;
  }

  lemma OpeningIsARun(w: World, c: nat, opens: bool)
    requires |w.slots| >= 2 && ClientAt(w, c) && w.clients[c].pc == Closing(true) && ClientSlot(w, c).Empty?
    ensures Runs(w, OpenSteps(c, opens))
    ensures Run(w, OpenSteps(c, opens)) == At(if opens then OpenSlot(w, w.clients[c].slot) else w, c, Resting)
  {
    hide Runs, Run;
    var w1 := Step(w, CloseReturns(c));
    var w2 := Step(w1, ClientOpens(c, opens));
    assert w1.clients[c := w.clients[c].(pc := Resting)] == w.clients[c := w.clients[c].(pc := Resting)];
    if opens {
      OneStep(w2, ClientCounts(c));
      RunsOn(w1, ClientOpens(c, true), [ClientCounts(c)]);
      RunsOn(w, CloseReturns(c), [ClientOpens(c, true)] + [ClientCounts(c)]);
    } else {
      OneStep(w1, ClientOpens(c, false));
      assert [ClientOpens(c, false)] + [] == [ClientOpens(c, false)];
      RunsOn(w, CloseReturns(c), [ClientOpens(c, false)]);
    }
  }

  lemma ClosingIsARun(w: World, c: nat, opens: bool)
    requires |w.slots| >= 2 && ClientAt(w, c) && w.clients[c].pc == Closing(true) && ClientSlot(w, c).Held?
    ensures var actions, i := [ClientDrops(c)] + ([ClientCloses(c)] + OpenSteps(c, opens)), w.clients[c].slot;
            && Runs(w, actions)
            && Run(w, actions) == At(if opens then OpenSlot(CloseSlot(w, i), i) else CloseSlot(w, i), c, Resting)
  {
    hide Runs, Run, OpenSteps;
    var w1 := Step(w, ClientDrops(c));
    OpeningIsARun(Step(w1, ClientCloses(c)), c, opens);
    RunsOn(w1, ClientCloses(c), OpenSteps(c, opens));
    RunsOn(w, ClientDrops(c), [ClientCloses(c)] + OpenSteps(c, opens));
  }

  /** Run alone, the machine's steps of a `connect` do what the method does. */
  lemma ConnectIsARun(w: World, c: nat, opens: bool)
    requires Inv(w) && ClientAt(w, c) && w.clients[c].pc.Resting?
    ensures var i, actions := w.clients[c].slot, ConnectSteps(w, c, opens);
            Runs(w, actions) && Run(w, actions) == if opens then OpenSlot(CloseSlot(w, i), i) else CloseSlot(w, i)
  {
    hide Runs, Run, Balanced, SlotsDistinct, SlotsCovered, FuturesOk, ControlOk, OpenSteps;
    var i, w1 := w.clients[c].slot, Step(w, CallsConnect(c));
    assert ClientOk(Resting, w.slots[i]);
    assert w1.clients[c := w.clients[c]] == w.clients;
    if w.slots[i].Held? {
      ClosingIsARun(w1, c, opens);
      RunsOn(w, CallsConnect(c), [ClientDrops(c)] + ([ClientCloses(c)] + OpenSteps(c, opens)));
    } else {
      OpeningIsARun(w1, c, opens);
      RunsOn(w, CallsConnect(c), OpenSteps(c, opens));
    }
  }
}
