/** Why the server thread ends, what it still does after `Stop` is called, and when `Start` returns. */
module ServiceLaws {
  import opened Sockets
  import opened SocketLaws

  // ---------------------------------------------------------------- the history of one server thread

  predicate FailsToStart(a: Action) {
    a == OpenListener(false) || a == Bound(false)
  }

  predicate BreaksDown(a: Action) {
    a == Polled(Broken) || a == Accept(false)
  }

  /** Failed openings of the listener since the thread was started or last waited for a connection. */
  function FailedStarts(actions: seq<Action>): nat {
    if actions == [] then 0
    else
      var before, a := actions[..|actions| - 1], actions[|actions| - 1];
      if FailsToStart(a) then FailedStarts(before) + 1
      else if a.StartCalled? || a.Polled? then 0
      else FailedStarts(before)
  }

  /** Since the thread was started, a wait for connections or an accept has failed. */
  predicate BrokeDown(actions: seq<Action>) {
    actions != [] &&
    var before, a := actions[..|actions| - 1], actions[|actions| - 1];
    !a.StartCalled? && (BreaksDown(a) || BrokeDown(before))
  }

  /** Since the thread was started, `Stop` has been called. */
  predicate ToldToStop(actions: seq<Action>) {
    actions != [] &&
    var before, a := actions[..|actions| - 1], actions[|actions| - 1];
    !a.StartCalled? && (a.StopCalled? || ToldToStop(before))
  }

  /** Sessions begun since `Stop` was first called on this thread. */
  function LateSessions(actions: seq<Action>): nat {
    if actions == [] then 0
    else
      var before, a := actions[..|actions| - 1], actions[|actions| - 1];
      if a.StartCalled? then 0
      else LateSessions(before) + if a.HandOver? && ToldToStop(before) then 1 else 0
  }

  predicate Over(pc: ServicePc) {
    pc.Down? || pc.Leaving? || pc.Ended?
  }

  /** What the thread's state says of its history. */
  ghost predicate Remembers(w: World, actions: seq<Action>) {
    var n := FailedStarts(actions);
    && (w.ctl.Starting? ==> !w.stop && !w.pc.Down?)
    && (w.pc.Down? || w.pc.Ended? ==> !w.active)
    && (!w.pc.Down? ==> (w.stop <==> ToldToStop(actions)))
    && (!Over(w.pc) ==> !BrokeDown(actions))
    && (w.pc.Top? || w.pc.Failing? ==> w.errs == n <= 16)
    && (w.pc.Opening? || w.pc.Binding? ==> w.errs == n <= 15)
    && (w.pc.Polling? || w.pc.Accepting? ==> w.errs == 0 && n <= 15 && w.active)
    && (w.pc.Accepting? ==> n == 0)
    && (w.pc.Leaving? || w.pc.Ended? ==> n == 16 || BrokeDown(actions) || ToldToStop(actions))
    && (w.pc.Leaving? && w.ctl.Starting? && !w.active ==> w.errs == n == 16)
    && LateSessions(actions) <= 1
    && (LateSessions(actions) == 1 && !w.pc.Down? ==> w.stop)
    && (!Over(w.pc) && !w.pc.Top? ==> LateSessions(actions) == 0)
  }

  lemma HistoryGrows(actions: seq<Action>, a: Action)
    ensures FailedStarts(actions + [a])
            == if FailsToStart(a) then FailedStarts(actions) + 1
               else if a.StartCalled? || a.Polled? then 0 else FailedStarts(actions)
    ensures BrokeDown(actions + [a]) <==> !a.StartCalled? && (BreaksDown(a) || BrokeDown(actions))
    ensures ToldToStop(actions + [a]) <==> !a.StartCalled? && (a.StopCalled? || ToldToStop(actions))
    ensures LateSessions(actions + [a])
            == if a.StartCalled? then 0
               else LateSessions(actions) + if a.HandOver? && ToldToStop(actions) then 1 else 0
  {
    assert (actions + [a])[..|actions|] == actions && (actions + [a])[|actions|] == a;
  }

  lemma StepRemembers(w: World, actions: seq<Action>, a: Action)
    requires Remembers(w, actions) && Enabled(w, a)
    ensures Remembers(Step(w, a), actions + [a])
  {
    hide FailedStarts, BrokeDown, ToldToStop, LateSessions;
    HistoryGrows(actions, a);
  }

  lemma {:induction false} RunRemembers(actions: seq<Action>)
    requires Runs(START, actions)
    ensures Remembers(Run(START, actions), actions)
    decreases |actions|
  {
    hide Step, Enabled, Remembers;
    if actions == [] {
      StartRemembers();
    } else {
      var before, a := actions[..|actions| - 1], actions[|actions| - 1];
      assert before + [a] == actions;
      RunSplit(START, before, [a]);
      RunRemembers(before);
      var w := Run(START, before);
      assert Runs(w, [a]) && Run(w, [a]) == Step(w, a) by { OneRun(w, a); }
      StepRemembers(w, before, a);
    }
  }

  lemma StartRemembers()
    ensures Remembers(START, [])
  {
  }

  lemma OneRun(w: World, a: Action)
    ensures Runs(w, [a]) <==> Enabled(w, a)
    ensures Enabled(w, a) ==> Run(w, [a]) == Step(w, a)
  {
    hide Step, Enabled;
    assert [a][1..] == [];
  }

  lemma {:induction false} RunSplit(w: World, a: seq<Action>, b: seq<Action>)
    ensures Runs(w, a + b) <==> Runs(w, a) && Runs(Run(w, a), b)
    ensures Runs(w, a + b) ==> Run(w, a + b) == Run(Run(w, a), b)
    decreases |a|
  {
    hide Step, Enabled;
    if a == [] {
      assert a + b == b;
    } else {
      assert (a + b)[0] == a[0] && (a + b)[1..] == a[1..] + b;
      if Enabled(w, a[0]) {
        RunSplit(Step(w, a[0]), a[1..], b);
      }
    }
  }

  /**
   Why the server thread ends. In every run, while it has not ended it has broken down in no
   wait and no accept, and has failed to start at most 16 times in a row; and it has left its
   loop only after one of these, the sixteenth failed start, or a call of `Stop`. After that
   call it begins at most one more session.
   */
  lemma ServiceEndsFor(actions: seq<Action>)
    requires Runs(START, actions)
    ensures var w := Run(START, actions);
            && (w.pc.Leaving? || w.pc.Ended? ==>
                  FailedStarts(actions) == 16 || BrokeDown(actions) || ToldToStop(actions))
            && (!w.pc.Down? && !w.pc.Leaving? && !w.pc.Ended? ==> !BrokeDown(actions) && FailedStarts(actions) <= 16)
            && (w.pc.Opening? || w.pc.Binding? ==> FailedStarts(actions) <= 15)
            && LateSessions(actions) <= 1
  {
    hide FailedStarts, BrokeDown, ToldToStop, LateSessions, Runs, Run;
    RunRemembers(actions);
  }

  // ---------------------------------------------------------------- whether `Start` returns

  /** `Start` is waiting for an instance that will never be active. */
  predicate Doomed(w: World) {
    w.ctl.Starting? && !w.active && (w.pc.Ended? || (w.errs > 15 && (w.pc.Failing? || w.pc.Top? || w.pc.Leaving?)))
  }

  lemma {:induction false} DoomedForGood(w: World, more: seq<Action>)
    requires Doomed(w) && Runs(w, more)
    ensures Doomed(Run(w, more))
    decreases |more|
  {
    hide Doomed, Step, Enabled;
    if more != [] {
      DoomedStep(w, more[0]);
      DoomedForGood(Step(w, more[0]), more[1..]);
    }
  }

  lemma DoomedStep(w: World, a: Action)
    requires Doomed(w) && Enabled(w, a)
    ensures Doomed(Step(w, a))
  {
  }

  /** Some continuation lets `Start` return. */
  ghost predicate CanReturn(w: World) {
    exists more :: Runs(w, more) && Enabled(Run(w, more), StartReturns)
  }

  lemma ReturnsNow(w: World)
    requires Enabled(w, StartReturns)
    ensures CanReturn(w)
  {
    hide Enabled;
    assert Runs(w, []) && Run(w, []) == w;
  }

  lemma ReturnsAfter(w: World, a: Action)
    requires Enabled(w, a) && CanReturn(Step(w, a))
    ensures CanReturn(w)
  {
    hide Step, Enabled;
    var more :| Runs(Step(w, a), more) && Enabled(Run(Step(w, a), more), StartReturns);
    assert ([a] + more)[0] == a && ([a] + more)[1..] == more;
    assert Runs(w, [a] + more) && Run(w, [a] + more) == Run(Step(w, a), more);
  }

  /** How far the thread is from making the instance active. */
  function Distance(w: World): nat
    requires |w.slots| >= 2
  {
    match w.pc
    case Binding => 1
    case Opening => if w.slots[LISTENER].Empty? then 3 else 2
    case Top => if w.slots[LISTENER].Empty? then 4 else 1
    case Failing => 5 + if w.slots[LISTENER].Empty? then 0 else if w.slots[LISTENER].Dropping? then 1 else 2
    case _ => 0
  }

  /** The service's next step when every system call succeeds. */
  function Favourable(w: World): Action
    requires |w.slots| >= 2
  {
    match w.pc
    case Binding => Bound(true)
    case Opening => if w.slots[LISTENER].Empty? then OpenListener(true) else CountListener
    case Top => LoopHead
    case _ =>
      if w.slots[LISTENER].Empty? then CloseDone
      else if w.slots[LISTENER].Dropping? then CloseListener
      else DropListener
  }

  predicate Hopeful(w: World) {
    ServiceOk(w) && w.ctl.Starting? && !w.stop && w.errs <= 15 && !Over(w.pc)
  }

  lemma {:induction false} StartCanReturn(w: World)
    requires Hopeful(w) && (w.pc.Polling? || w.pc.Accepting? ==> w.active)
    ensures CanReturn(w)
    decreases Distance(w)
  {
    hide CanReturn, Runs, Run;
    if w.active {
      ReturnsNow(w);
    } else {
      var a := Favourable(w);
      FavourableStep(w);
      StartCanReturn(Step(w, a));
      ReturnsAfter(w, a);
    }
  }

  lemma FavourableStep(w: World)
    requires Hopeful(w) && !w.active && !w.pc.Polling? && !w.pc.Accepting?
    ensures Enabled(w, Favourable(w))
    ensures var w' := Step(w, Favourable(w));
            Hopeful(w') && Distance(w') < Distance(w) && (w'.pc.Polling? || w'.pc.Accepting? ==> w'.active)
  {
  }

  /**
   When `Start` can return. In every run in which a call of `Start` is under way, it can still
   return if and only if the instance is active, or the thread has neither ended nor failed to
   start 16 times. Otherwise it waits forever, and no `Stop` can be called, as it holds the lock.
   */
  lemma StartReturnsIff(actions: seq<Action>)
    requires Runs(START, actions) && Run(START, actions).ctl.Starting?
    ensures var w := Run(START, actions);
            CanReturn(w) <==> w.active || (!w.pc.Ended? && FailedStarts(actions) < 16)
    ensures var w := Run(START, actions);
            !CanReturn(w) ==>
              forall more :: Runs(w, more) ==>
                !Enabled(Run(w, more), StartReturns) && !Enabled(Run(w, more), StopCalled)
  {
    hide FailedStarts, BrokeDown, ToldToStop, LateSessions, Runs, Run, Balanced, SlotsOk, FuturesOk, ControlOk;
    RunRemembers(actions);
    StartOk();
    RunKeeps(START, actions);
    var w := Run(START, actions);
    if w.active {
      ReturnsNow(w);
    } else if !w.pc.Ended? && FailedStarts(actions) < 16 {
      StartCanReturn(w);
    } else {
      forall more | Runs(w, more)
        ensures !Enabled(Run(w, more), StartReturns) && !Enabled(Run(w, more), StopCalled)
      {
        DoomedForGood(w, more);
      }
    }
  }

  /** The state in which it cannot: a listener that cannot be opened 16 times in a row, whatever came before. */
  lemma StartCanHang(actions: seq<Action>) returns (more: seq<Action>)
    requires Runs(START, actions) && Enabled(Run(START, actions), StartCalled)
    ensures Runs(Run(START, actions), more)
    ensures Run(Run(START, actions), more).ctl.Starting? && !CanReturn(Run(Run(START, actions), more))
  {
    hide Runs, Run, Balanced, SlotsOk, FuturesOk, ControlOk;
    StartOk();
    RunKeeps(START, actions);
    var w := Run(START, actions);
    var w1 := Step(w, StartCalled);
    more := KeepsFailing(w1, 0);
    var t := Run(w1, more);
    more := [StartCalled] + more;
    RunSplit(w, [StartCalled], more[1..]);
    OneRun(w, StartCalled);
    assert [StartCalled] + more[1..] == more;
    NeverReturns(t);
  }

  lemma NeverReturns(w: World)
    requires Doomed(w)
    ensures !CanReturn(w)
  {
    hide Runs, Run;
    forall more | Runs(w, more)
      ensures !Enabled(Run(w, more), StartReturns)
    {
      DoomedForGood(w, more);
    }
  }

  lemma {:induction false} KeepsFailing(w: World, n: nat) returns (more: seq<Action>)
    requires |w.slots| >= 2 && w.slots[LISTENER].Empty? && w.ctl.Starting? && !w.active && !w.stop
    requires w.pc.Top? && w.errs == n <= 16
    ensures Runs(w, more) && Doomed(Run(w, more))
    decreases 16 - n
  {
    if n == 16 {
      more := [];
    } else {
      hide Runs, Run;
      var w1 := Step(w, LoopHead);
      var w2 := Step(w1, OpenListener(false));
      var w3 := Step(w2, CloseDone);
      more := KeepsFailing(w3, n + 1);
      OneRun(w, LoopHead);
      OneRun(w1, OpenListener(false));
      OneRun(w2, CloseDone);
      RunSplit(w2, [CloseDone], more);
      RunSplit(w1, [OpenListener(false)], [CloseDone] + more);
      RunSplit(w, [LoopHead], [OpenListener(false)] + ([CloseDone] + more));
      more := [LoopHead] + ([OpenListener(false)] + ([CloseDone] + more));
    }
  }
}
