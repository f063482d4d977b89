/** No interleaving loses, double-closes or miscounts a socket. */
module SocketLaws {
  import opened Sockets

  // ---------------------------------------------------------------- counting

  function Tally(slots: seq<Slot>, counted: bool): nat {
    if slots == [] then 0
    else Tally(slots[1..], counted) + if (if counted then slots[0].Held? else !slots[0].Empty?) then 1 else 0
  }

  /** Slots whose socket is counted. */
  function HeldCount(slots: seq<Slot>): nat {
    Tally(slots, true)
  }

  /** Slots with any socket. */
  function FullCount(slots: seq<Slot>): nat {
    Tally(slots, false)
  }

  /** Sockets open in the operating system. */
  function OpenCount(closes: seq<nat>): nat {
    if closes == [] then 0 else OpenCount(closes[1..]) + if closes[0] == 0 then 1 else 0
  }

  function Weight(s: Slot, counted: bool): nat {
    if (if counted then s.Held? else !s.Empty?) then 1 else 0
  }

  lemma {:induction false} TallyUpdate(slots: seq<Slot>, i: nat, s: Slot, counted: bool)
    requires i < |slots|
    ensures Tally(slots[i := s], counted) == Tally(slots, counted) - Weight(slots[i], counted) + Weight(s, counted)
  {
    if i == 0 {
      assert slots[0 := s][1..] == slots[1..];
    } else {
      assert slots[i := s][1..] == slots[1..][i - 1 := s];
      TallyUpdate(slots[1..], i - 1, s, counted);
    }
  }

  lemma {:induction false} TallyAppend(slots: seq<Slot>, s: Slot, counted: bool)
    ensures Tally(slots + [s], counted) == Tally(slots, counted) + Weight(s, counted)
  {
    if slots == [] {
      assert [s][1..] == [] && [] + [s] == [s];
    } else {
      assert (slots + [s])[1..] == slots[1..] + [s];
      TallyAppend(slots[1..], s, counted);
    }
  }

  lemma {:induction false} OpenAppend(closes: seq<nat>)
    ensures OpenCount(closes + [0]) == OpenCount(closes) + 1
  {
    if closes == [] {
      assert [0][1..] == [] && [] + [0] == [0];
    } else {
      assert (closes + [0])[1..] == closes[1..] + [0];
      OpenAppend(closes[1..]);
    }
  }

  lemma {:induction false} OpenClosed(closes: seq<nat>, h: nat)
    requires h < |closes| && closes[h] == 0
    ensures OpenCount(closes[h := 1]) == OpenCount(closes) - 1
  {
    if h == 0 {
      assert closes[0 := 1][1..] == closes[1..];
    } else {
      assert closes[h := 1][1..] == closes[1..][h - 1 := 1];
      OpenClosed(closes[1..], h - 1);
    }
  }

  // ---------------------------------------------------------------- the books

  /** Every open socket is in exactly one slot, every slot's socket is open, none was closed twice. */
  ghost predicate Owned(w: World) {
    && (forall h :: 0 <= h < |w.closes| ==> w.closes[h] <= 1)
    && (forall i :: 0 <= i < |w.slots| && !w.slots[i].Empty? ==> w.slots[i].h < |w.closes| && w.closes[w.slots[i].h] == 0)
    && (forall i, j :: 0 <= i < j < |w.slots| && !w.slots[i].Empty? && !w.slots[j].Empty? ==> w.slots[i].h != w.slots[j].h)
  }

  ghost predicate Balanced(w: World) {
    Owned(w) && w.count == HeldCount(w.slots) && OpenCount(w.closes) == FullCount(w.slots)
  }

  lemma OpenKeeps(w: World, i: nat)
    requires Balanced(w) && i < |w.slots| && w.slots[i].Empty?
    ensures Balanced(OsOpen(w, i))
  {
    var s := Raw(|w.closes|);
    TallyUpdate(w.slots, i, s, true);
    TallyUpdate(w.slots, i, s, false);
    OpenAppend(w.closes);
  }

  lemma CountUpKeeps(w: World, i: nat)
    requires Balanced(w) && i < |w.slots| && w.slots[i].Raw?
    ensures Balanced(CountUp(w, i))
  {
    TallyUpdate(w.slots, i, Held(w.slots[i].h), true);
    TallyUpdate(w.slots, i, Held(w.slots[i].h), false);
  }

  lemma CountDownKeeps(w: World, i: nat)
    requires Balanced(w) && i < |w.slots| && w.slots[i].Held?
    ensures Balanced(CountDown(w, i))
  {
    TallyUpdate(w.slots, i, Dropping(w.slots[i].h), true);
    TallyUpdate(w.slots, i, Dropping(w.slots[i].h), false);
  }

  lemma CloseKeeps(w: World, i: nat)
    requires Balanced(w) && i < |w.slots| && w.slots[i].Dropping?
    ensures Balanced(OsClose(w, i))
  {
    hide Tally, OpenCount;
    TallyUpdate(w.slots, i, Empty, true);
    TallyUpdate(w.slots, i, Empty, false);
    OpenClosed(w.closes, w.slots[i].h);
    assert Owned(OsClose(w, i));
    hide Owned;
  }

  lemma NewSlotKeeps(w: World, w': World)
    requires Balanced(w) && w'.closes == w.closes && w'.count == w.count && w'.slots == w.slots + [Empty]
    ensures Balanced(w')
  {
    TallyAppend(w.slots, Empty, true);
    TallyAppend(w.slots, Empty, false);
  }

  /** The accepted socket passes from `Service`'s variable to the session's. */
  lemma HandOverKeeps(w: World, w': World)
    requires Balanced(w) && |w.slots| >= 2 && w'.closes == w.closes && w'.count == w.count
    requires w'.slots == w.slots[ACCEPTED := Empty] + [w.slots[ACCEPTED]]
    ensures Balanced(w')
  {
    var s := w.slots[ACCEPTED];
    TallyUpdate(w.slots, ACCEPTED, Empty, true);
    TallyUpdate(w.slots, ACCEPTED, Empty, false);
    TallyAppend(w.slots[ACCEPTED := Empty], s, true);
    TallyAppend(w.slots[ACCEPTED := Empty], s, false);
  }

  lemma StepKeepsBalance(w: World, a: Action)
    requires Balanced(w) && Enabled(w, a)
    ensures Balanced(Step(w, a))
  {
    hide Balanced;
    match a
    case OpenListener(ok) => if ok { OpenKeeps(w, LISTENER); } else { SameBooks(w, Step(w, a)); }
    case Accept(ok) => if ok { OpenKeeps(w, ACCEPTED); } else { SameBooks(w, Step(w, a)); }
    case ClientOpens(c, ok) => if ok { OpenKeeps(w, w.clients[c].slot); } else { SameBooks(w, Step(w, a)); }
    case CountListener =>
      CountUpKeeps(w, LISTENER);
      SameBooks(CountUp(w, LISTENER), Step(w, a));
    case CountAccepted => CountUpKeeps(w, ACCEPTED);
    case ClientCounts(c) =>
      CountUpKeeps(w, w.clients[c].slot);
      SameBooks(CountUp(w, w.clients[c].slot), Step(w, a));
    case DropListener => CountDownKeeps(w, LISTENER);
    case SessionDrops(k) => CountDownKeeps(w, w.sessions[k]);
    case ClientDrops(c) => CountDownKeeps(w, w.clients[c].slot);
    case CloseListener => CloseKeeps(w, LISTENER);
    case SessionCloses(k) => CloseKeeps(w, w.sessions[k]);
    case ClientCloses(c) => CloseKeeps(w, w.clients[c].slot);
    case HandOver => HandOverKeeps(w, Step(w, a));
    case NewClient => NewSlotKeeps(w, Step(w, a));
    case _ => SameBooks(w, Step(w, a));
  }

  lemma SameBooks(w: World, w': World)
    requires Balanced(w) && w'.closes == w.closes && w'.slots == w.slots && w'.count == w.count
    ensures Balanced(w')
  {
  }

  // ---------------------------------------------------------------- who may hold what

  /** `Service`'s two variables, at each of its points. */
  predicate ServiceOk(w: World) {
    |w.slots| >= 2 &&
    var l, s := w.slots[LISTENER], w.slots[ACCEPTED];
    && (!w.pc.Accepting? ==> s.Empty?)
    && (s.Dropping? ==> false)
    && match w.pc
       case Down => l.Empty? && !w.active
       case Ended => l.Empty? && !w.active
       case Top => l.Empty? || l.Held?
       case Opening => l.Empty? || l.Raw?
       case Failing => !l.Raw?
       case Leaving => !l.Raw?
       case _ => l.Held?
  }

  /** Sessions and clients have slots of their own, and each holds what its owner's point allows. */
  ghost predicate SlotsFit(w: World) {
    && (forall k :: 0 <= k < |w.sessions| ==> 2 <= w.sessions[k] < |w.slots| && !w.slots[w.sessions[k]].Raw?)
    && (forall c :: 0 <= c < |w.clients| ==>
          2 <= w.clients[c].slot < |w.slots| && ClientOk(w.clients[c].pc, w.slots[w.clients[c].slot]))
  }

  ghost predicate SlotsDistinct(w: World) {
    && (forall j, k :: 0 <= j < k < |w.sessions| ==> w.sessions[j] != w.sessions[k])
    && (forall j, k :: 0 <= j < k < |w.clients| ==> w.clients[j].slot != w.clients[k].slot)
    && (forall j, k :: 0 <= j < |w.sessions| && 0 <= k < |w.clients| ==> w.sessions[j] != w.clients[k].slot)
  }

  ghost predicate SlotsCovered(w: World) {
    forall i :: 2 <= i < |w.slots| ==> i in w.sessions || IsClientSlot(w, i)
  }

  /** Every slot belongs to `Service`, to one session or to one client. */
  ghost predicate SlotsOk(w: World) {
    SlotsFit(w) && SlotsDistinct(w) && SlotsCovered(w)
  }

  ghost predicate IsClientSlot(w: World, i: nat) {
    exists c :: 0 <= c < |w.clients| && w.clients[c].slot == i
  }

  predicate ClientOk(pc: ClientPc, s: Slot) {
    match pc
    case Resting => s.Empty? || s.Held?
    case Closing(_) => !s.Raw?
    case Connecting => s.Empty? || s.Raw?
  }

  predicate Finished(w: World, k: nat) {
    k < |w.sessions| && w.sessions[k] < |w.slots| && w.slots[w.sessions[k]].Empty?
  }

  /** A session that is not among the futures any more has closed its socket. */
  ghost predicate FuturesOk(w: World) {
    && (forall f :: 0 <= f < |w.futures| ==> w.futures[f] < |w.sessions|)
    && (forall k :: 0 <= k < |w.sessions| ==> k in w.futures || Finished(w, k))
  }

  /** While `Stop` waits for sessions, `Service` is down and those waited for have finished. */
  ghost predicate ControlOk(w: World) {
    && (w.ctl.Joining? || w.ctl.Draining? ==> w.stop)
    && (w.ctl.Draining? ==>
          && w.pc.Down? && w.ctl.got <= |w.futures|
          && forall f :: 0 <= f < w.ctl.got ==> Finished(w, w.futures[f]))
  }

  ghost predicate Inv(w: World) {
    Balanced(w) && ServiceOk(w) && SlotsOk(w) && FuturesOk(w) && ControlOk(w)
  }

  lemma ClientSlotStays(w: World, w': World, i: nat)
    requires |w.clients| <= |w'.clients| && IsClientSlot(w, i)
    requires forall c :: 0 <= c < |w.clients| ==> w'.clients[c].slot == w.clients[c].slot
    ensures IsClientSlot(w', i)
  {
    var c :| 0 <= c < |w.clients| && w.clients[c].slot == i;
    assert w'.clients[c].slot == i;
  }

  lemma CoverageStays(w: World, w': World)
    requires SlotsCovered(w) && |w.clients| <= |w'.clients| && w.sessions <= w'.sessions
    requires forall c :: 0 <= c < |w.clients| ==> w'.clients[c].slot == w.clients[c].slot
    requires forall i :: |w.slots| <= i < |w'.slots| ==> i in w'.sessions || IsClientSlot(w', i)
    ensures SlotsCovered(w')
  {
    forall i | 2 <= i < |w'.slots|
      ensures i in w'.sessions || IsClientSlot(w', i)
    {
      if i < |w.slots| {
        if i in w.sessions {
          var k :| 0 <= k < |w.sessions| && w.sessions[k] == i;
          assert w'.sessions[k] == i;
        } else {
          ClientSlotStays(w, w', i);
        }
      }
    }
  }

  /** One slot changes, and at most the client that owns it moves on. */
  lemma OneSlotChanges(w: World, w': World, i: nat, s: Slot)
    requires SlotsOk(w) && i < |w.slots| && w'.slots == w.slots[i := s] && w'.sessions == w.sessions
    requires |w'.clients| == |w.clients|
    requires forall c :: 0 <= c < |w.clients| ==>
               w'.clients[c].slot == w.clients[c].slot && (w'.clients[c] == w.clients[c] || w.clients[c].slot == i)
    requires i in w.sessions ==> !s.Raw?
    requires forall c :: 0 <= c < |w.clients| && w.clients[c].slot == i ==> ClientOk(w'.clients[c].pc, s)
    ensures SlotsOk(w')
  {
    hide ClientOk;
    CoverageStays(w, w');
    hide SlotsCovered;
    assert SlotsDistinct(w');
    hide SlotsDistinct;
  }

  lemma HandOverSlots(w: World)
    requires ServiceOk(w) && SlotsOk(w) && Enabled(w, HandOver)
    ensures SlotsOk(Step(w, HandOver))
  {
    hide ClientOk;
    var w' := Step(w, HandOver);
    assert w'.sessions[|w.sessions|] == |w.slots|;
    CoverageStays(w, w');
    hide SlotsCovered;
    assert SlotsDistinct(w');
    hide SlotsDistinct;
  }

  lemma NewClientSlots(w: World)
    requires SlotsOk(w) && Enabled(w, NewClient)
    ensures SlotsOk(Step(w, NewClient))
  {
    var w' := Step(w, NewClient);
    assert w'.clients[|w.clients|].slot == |w.slots|;
    CoverageStays(w, w');
    hide SlotsCovered;
    assert SlotsDistinct(w');
    hide SlotsDistinct;
  }

  /** The slot a step writes; steps that write none are given slot 0. */
  function Touched(w: World, a: Action): nat
    requires Enabled(w, a)
  {
    match a
    case Accept(_) => ACCEPTED
    case CountAccepted => ACCEPTED
    case SessionDrops(k) => w.sessions[k]
    case SessionCloses(k) => w.sessions[k]
    case CallsClose(c) => w.clients[c].slot
    case CallsConnect(c) => w.clients[c].slot
    case ClientDrops(c) => w.clients[c].slot
    case ClientCloses(c) => w.clients[c].slot
    case CloseReturns(c) => w.clients[c].slot
    case ClientOpens(c, _) => w.clients[c].slot
    case ClientCounts(c) => w.clients[c].slot
    case _ => LISTENER
  }

  lemma TouchedOnly(w: World, a: Action)
    requires Enabled(w, a) && a != HandOver && a != NewClient
    ensures var w', i := Step(w, a), Touched(w, a);
            && i < |w.slots| && |w'.slots| == |w.slots| && w'.slots == w.slots[i := w'.slots[i]]
            && w'.sessions == w.sessions && |w'.clients| == |w.clients|
            && (forall c :: 0 <= c < |w.clients| ==>
                  && w'.clients[c].slot == w.clients[c].slot
                  && (w'.clients[c] == w.clients[c] || w.clients[c].slot == i))
  {
  }

  lemma SlotOwner(w: World, i: nat)
    requires SlotsFit(w) && SlotsDistinct(w)
    ensures i < 2 ==> !(i in w.sessions) && forall c :: 0 <= c < |w.clients| ==> w.clients[c].slot != i
    ensures i in w.sessions ==> forall c :: 0 <= c < |w.clients| ==> w.clients[c].slot != i
    ensures forall c, d ::
              0 <= c < |w.clients| && 0 <= d < |w.clients| && w.clients[c].slot == i == w.clients[d].slot ==> c == d
  {
    hide ClientOk;
  }

  lemma TouchedFits(w: World, a: Action)
    requires SlotsOk(w) && Enabled(w, a) && a != HandOver && a != NewClient
    ensures var w', i := Step(w, a), Touched(w, a);
            && i < |w'.slots| && |w'.clients| == |w.clients|
            && (i in w.sessions ==> !w'.slots[i].Raw?)
            && (forall c :: 0 <= c < |w.clients| && w.clients[c].slot == i ==> ClientOk(w'.clients[c].pc, w'.slots[i]))
  {
    hide SlotsDistinct, SlotsCovered;
    SlotOwner(w, Touched(w, a));
    hide SlotsFit;
  }

  /** A step of a session or a client. */
  predicate Elsewhere(a: Action) {
    || a.SessionDrops? || a.SessionCloses? || a.NewClient? || a.CallsClose? || a.CallsConnect? || a.ClientDrops?
    || a.ClientCloses? || a.CloseReturns? || a.ClientOpens? || a.ClientCounts?
  }

  lemma ElsewhereIsElsewhere(w: World, a: Action)
    requires SlotsFit(w) && Enabled(w, a) && Elsewhere(a)
    ensures var w' := Step(w, a);
            && |w'.slots| >= 2 && w'.slots[LISTENER] == w.slots[LISTENER] && w'.slots[ACCEPTED] == w.slots[ACCEPTED]
            && w'.pc == w.pc && w'.active == w.active
  {
    hide ClientOk;
  }

  lemma StepKeepsService(w: World, a: Action)
    requires ServiceOk(w) && SlotsOk(w) && Enabled(w, a)
    ensures ServiceOk(Step(w, a))
  {
    hide SlotsFit, SlotsDistinct, SlotsCovered;
    if Elsewhere(a) {
      ElsewhereIsElsewhere(w, a);
      hide Step, Enabled;
    } else {
      hide Elsewhere, SessionAt, ClientAt;
    }
  }

  lemma StepKeepsSlots(w: World, a: Action)
    requires ServiceOk(w) && SlotsOk(w) && Enabled(w, a)
    ensures SlotsOk(Step(w, a))
  {
    if a == HandOver {
      HandOverSlots(w);
    } else if a == NewClient {
      NewClientSlots(w);
    } else {
      hide SlotsOk, Step, Enabled, Touched, ClientOk, ServiceOk;
      TouchedOnly(w, a);
      TouchedFits(w, a);
      OneSlotChanges(w, Step(w, a), Touched(w, a), Step(w, a).slots[Touched(w, a)]);
    }
  }

  lemma StillFinished(w: World, a: Action)
    requires SlotsOk(w) && Enabled(w, a)
    ensures forall k :: 0 <= k < |w.sessions| && Finished(w, k) ==> Finished(Step(w, a), k)
  {
    if a != HandOver && a != NewClient {
      TouchedOnly(w, a);
      SlotOwner(w, Touched(w, a));
    }
    hide SlotsDistinct, SlotsCovered, ClientOk;
  }

  lemma StepKeepsFutures(w: World, a: Action)
    requires SlotsOk(w) && FuturesOk(w) && ControlOk(w) && Enabled(w, a)
    ensures FuturesOk(Step(w, a)) && ControlOk(Step(w, a))
  {
    StillFinished(w, a);
    hide SlotsOk;
    FuturesGrow(w, a);
    ControlGoesOn(w, a);
  }

  lemma ControlGoesOn(w: World, a: Action)
    requires ControlOk(w) && FuturesOk(w) && Enabled(w, a)
    requires forall k :: 0 <= k < |w.sessions| && Finished(w, k) ==> Finished(Step(w, a), k)
    ensures ControlOk(Step(w, a))
  {
    var w' := Step(w, a);
    if a == FutureGot {
      assert Finished(w, w.futures[w.ctl.got]);
    }
    hide Finished;
  }

  lemma FuturesGrow(w: World, a: Action)
    requires FuturesOk(w) && ControlOk(w) && Enabled(w, a)
    requires forall k :: 0 <= k < |w.sessions| && Finished(w, k) ==> Finished(Step(w, a), k)
    ensures FuturesOk(Step(w, a))
  {
    hide Finished;
    var w' := Step(w, a);
    if a == HandOver {
      assert w'.futures[|w.futures|] == |w.sessions|;
      assert forall k :: k in w.futures ==> k in w'.futures;
    } else if a == StopReturns {
      forall k | 0 <= k < |w.sessions|
        ensures Finished(w, k)
      {
        if k in w.futures {
          var f :| 0 <= f < |w.futures| && w.futures[f] == k;
        }
      }
    } else {
      assert w'.futures == w.futures && w'.sessions == w.sessions;
    }
  }

  lemma {:induction false} RunKeeps(w: World, actions: seq<Action>)
    requires Inv(w) && Runs(w, actions)
    ensures Inv(Run(w, actions))
    decreases |actions|
  {
    hide Step, Enabled, Balanced, ServiceOk, SlotsOk, FuturesOk, ControlOk;
    if actions != [] {
      StepKeepsBalance(w, actions[0]);
      StepKeepsService(w, actions[0]);
      StepKeepsSlots(w, actions[0]);
      StepKeepsFutures(w, actions[0]);
      RunKeeps(Step(w, actions[0]), actions[1..]);
    }
  }

  // ---------------------------------------------------------------- the results

  /** No thread is between a system call and its counter update. */
  predicate Quiet(w: World) {
    forall i :: 0 <= i < |w.slots| ==> w.slots[i].Empty? || w.slots[i].Held?
  }

  lemma {:induction false} QuietTally(slots: seq<Slot>)
    requires forall i :: 0 <= i < |slots| ==> slots[i].Empty? || slots[i].Held?
    ensures HeldCount(slots) == FullCount(slots)
  {
    if slots != [] {
      QuietTally(slots[1..]);
    }
  }

  lemma StartOk()
    ensures Inv(START)
  {
  }

  /**
   Socket conservation. Under every interleaving, no socket is closed twice, every slot's
   socket is open and in no other slot, and there are as many sockets open as slots that
   hold one, so none is lost. Whenever no thread is in the middle of an opening or closing,
   the global counter is the number of valid handles and of open sockets.
   */
  lemma SocketConservation(actions: seq<Action>)
    requires Runs(START, actions)
    ensures var w := Run(START, actions);
            && Owned(w)
            && OpenCount(w.closes) == FullCount(w.slots)
            && w.count == HeldCount(w.slots)
            && (Quiet(w) ==> w.count == FullCount(w.slots) == OpenCount(w.closes))
  {
    hide Runs, Run, Owned;
    StartOk();
    RunKeeps(START, actions);
    var w := Run(START, actions);
    if Quiet(w) {
      QuietTally(w.slots);
    }
  }

  /**
   When `Stop` returns, the listener and every session's socket are closed, the list of
   sessions is empty, the instance is not active, and only clients hold sockets.
   */
  lemma StopLeavesOnlyClients(actions: seq<Action>)
    requires Runs(START, actions) && Enabled(Run(START, actions), StopReturns)
    ensures var w := Step(Run(START, actions), StopReturns);
            && w.futures == [] && !w.active && w.pc.Down?
            && w.slots[LISTENER].Empty? && w.slots[ACCEPTED].Empty?
            && (forall k :: 0 <= k < |w.sessions| ==> Finished(w, k))
            && (forall i :: 0 <= i < |w.slots| && !w.slots[i].Empty? ==> IsClientSlot(w, i))
  {
    hide Runs, Run, Balanced;
    StartOk();
    RunKeeps(START, actions);
    var w := Run(START, actions);
    StepKeepsFutures(w, StopReturns);
    var w' := Step(w, StopReturns);
    forall i | 0 <= i < |w.slots| && !w.slots[i].Empty?
      ensures IsClientSlot(w', i)
    {
      assert forall k :: 0 <= k < |w.sessions| && w.sessions[k] == i ==> Finished(w', k);
      if !(i in w.sessions) {
        assert IsClientSlot(w, i);
        var c :| 0 <= c < |w.clients| && w.clients[c].slot == i;
        assert w'.clients[c].slot == i;
      }
    }
  }
}
