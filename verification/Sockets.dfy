/**
 Socket accounting: the server's thread, its sessions, the clients of the process and the
 thread that starts and stops the server, interleaved at the granularity of their system
 calls and of their updates of the global socket counter.
 */
module Sockets {
  /**
   A variable that may hold a socket. `Raw` and `Dropping` are the moments between the
   system call and the counter update: just opened and not counted yet, no longer counted
   and not closed yet.
   */
  datatype Slot = Empty | Raw(h: nat) | Held(h: nat) | Dropping(h: nat)

  /** Where `Service` is: `Down` before it starts and after it is joined. */
  datatype ServicePc = Down | Top | Opening | Binding | Failing | Polling | Accepting | Leaving | Ended

  datatype ClientPc = Resting | Closing(reopen: bool) | Connecting

  datatype ClientSock = ClientSock(slot: nat, pc: ClientPc)

  /** What the caller of `Start` and `Stop` is doing under the lock. */
  datatype Control = Free | Starting | Joining | Draining(got: nat)

  const LISTENER := 0
  const ACCEPTED := 1
  const MAX_START_ERRORS := 15

  /**
   `closes[h]` counts the closes of handle `h`; the operating system never hands out the
   same handle twice here. Slots 0 and 1 are `Service`'s two variables, `sessions` and
   `clients` name the others, `futures` is `m_clients`, as positions in `sessions`.
   */
  datatype World = World(count: int, closes: seq<nat>, slots: seq<Slot>,
                         pc: ServicePc, errs: nat, stop: bool, active: bool, ctl: Control,
                         sessions: seq<nat>, futures: seq<nat>, clients: seq<ClientSock>)

  const START := World(0, [], [Empty, Empty], Down, 0, false, false, Free, [], [], [])

  // ---------------------------------------------------------------- the four moves of a slot

  function OsOpen(w: World, i: nat): World
    requires i < |w.slots|
  {
    w.(closes := w.closes + [0], slots := w.slots[i := Raw(|w.closes|)])
  }

  function CountUp(w: World, i: nat): World
    requires i < |w.slots| && w.slots[i].Raw?
  {
    w.(count := w.count + 1, slots := w.slots[i := Held(w.slots[i].h)])
  }

  function CountDown(w: World, i: nat): World
    requires i < |w.slots| && w.slots[i].Held?
  {
    w.(count := w.count - 1, slots := w.slots[i := Dropping(w.slots[i].h)])
  }

  function OsClose(w: World, i: nat): World
    requires i < |w.slots| && w.slots[i].Dropping?
  {
    var h := w.slots[i].h;
    w.(closes := if h < |w.closes| then w.closes[h := w.closes[h] + 1] else w.closes, slots := w.slots[i := Empty])
  }

  // ---------------------------------------------------------------- the machine

  datatype Poll = Ready | Timeout | Broken

  datatype Action =
    | StartCalled | StartReturns | StopCalled | Joined | FutureGot | StopReturns
    | LoopHead | OpenListener(ok: bool) | CountListener | Bound(ok: bool)
    | Polled(p: Poll) | Accept(ok: bool) | CountAccepted | HandOver
    | DropListener | CloseListener | CloseDone
    | SessionDrops(k: nat) | SessionCloses(k: nat)
    | NewClient | CallsClose(c: nat) | CallsConnect(c: nat)
    | ClientDrops(c: nat) | ClientCloses(c: nat) | CloseReturns(c: nat)
    | ClientOpens(c: nat, ok: bool) | ClientCounts(c: nat)

  predicate SessionAt(w: World, k: nat) {
    k < |w.sessions| && w.sessions[k] < |w.slots|
  }

  predicate ClientAt(w: World, c: nat) {
    c < |w.clients| && w.clients[c].slot < |w.slots|
  }

  function ClientSlot(w: World, c: nat): Slot
    requires ClientAt(w, c)
  {
    w.slots[w.clients[c].slot]
  }

  function At(w: World, c: nat, pc: ClientPc): World
    requires c < |w.clients|
  {
    w.(clients := w.clients[c := w.clients[c].(pc := pc)])
  }

  predicate Enabled(w: World, a: Action) {
    |w.slots| >= 2 &&
    match a
    case StartCalled => w.ctl.Free? && !w.active && w.pc.Down?
    case StartReturns => w.ctl.Starting? && w.active
    case StopCalled => w.ctl.Free?
    case Joined => w.ctl.Joining? && (w.pc.Down? || w.pc.Ended?)
    case FutureGot =>
      && w.ctl.Draining? && w.ctl.got < |w.futures|
      && SessionAt(w, w.futures[w.ctl.got]) && w.slots[w.sessions[w.futures[w.ctl.got]]].Empty?
    case StopReturns => w.ctl.Draining? && w.ctl.got == |w.futures|
    case LoopHead => w.pc.Top?
    case OpenListener(_) => w.pc.Opening? && w.slots[LISTENER].Empty?
    case CountListener => w.pc.Opening? && w.slots[LISTENER].Raw?
    case Bound(_) => w.pc.Binding?
    case Polled(_) => w.pc.Polling?
    case Accept(_) => w.pc.Accepting? && w.slots[ACCEPTED].Empty?
    case CountAccepted => w.pc.Accepting? && w.slots[ACCEPTED].Raw?
    case HandOver => w.pc.Accepting? && w.slots[ACCEPTED].Held?
    case DropListener => (w.pc.Failing? || w.pc.Leaving?) && w.slots[LISTENER].Held?
    case CloseListener => (w.pc.Failing? || w.pc.Leaving?) && w.slots[LISTENER].Dropping?
    case CloseDone => (w.pc.Failing? || w.pc.Leaving?) && w.slots[LISTENER].Empty?
    case SessionDrops(k) => SessionAt(w, k) && w.slots[w.sessions[k]].Held?
    case SessionCloses(k) => SessionAt(w, k) && w.slots[w.sessions[k]].Dropping?
    case NewClient => true
    case CallsClose(c) => ClientAt(w, c) && w.clients[c].pc.Resting?
    case CallsConnect(c) => ClientAt(w, c) && w.clients[c].pc.Resting?
    case ClientDrops(c) => ClientAt(w, c) && w.clients[c].pc.Closing? && ClientSlot(w, c).Held?
    case ClientCloses(c) => ClientAt(w, c) && w.clients[c].pc.Closing? && ClientSlot(w, c).Dropping?
    case CloseReturns(c) => ClientAt(w, c) && w.clients[c].pc.Closing? && ClientSlot(w, c).Empty?
    case ClientOpens(c, _) => ClientAt(w, c) && w.clients[c].pc.Connecting? && ClientSlot(w, c).Empty?
    case ClientCounts(c) => ClientAt(w, c) && w.clients[c].pc.Connecting? && ClientSlot(w, c).Raw?
  }

  function Step(w: World, a: Action): World
    requires Enabled(w, a)
  {
    match a
    case StartCalled => w.(stop := false, pc := Top, errs := 0, ctl := Starting)
    case StartReturns => w.(ctl := Free)
    case StopCalled => w.(stop := true, ctl := Joining)
    case Joined => w.(pc := Down, ctl := Draining(0))
    case FutureGot => w.(ctl := Draining(w.ctl.got + 1))
    case StopReturns => w.(futures := [], ctl := Free)
    case LoopHead =>
      if w.stop || w.errs > MAX_START_ERRORS then w.(pc := Leaving)
      else if w.slots[LISTENER].Empty? then w.(pc := Opening)
      else w.(pc := Polling, errs := 0, active := true)
    case OpenListener(ok) => if ok then OsOpen(w, LISTENER) else w.(pc := Failing, errs := w.errs + 1)
    case CountListener => CountUp(w, LISTENER).(pc := Binding)
    case Bound(ok) =>
      if ok then w.(pc := Polling, errs := 0, active := true) else w.(pc := Failing, errs := w.errs + 1)
    case Polled(p) => w.(pc := if p.Ready? then Accepting else if p.Timeout? then Top else Leaving)
    case Accept(ok) => if ok then OsOpen(w, ACCEPTED) else w.(pc := Leaving)
    case CountAccepted => CountUp(w, ACCEPTED)
    case HandOver =>
      w.(pc := Top, slots := w.slots[ACCEPTED := Empty] + [w.slots[ACCEPTED]],
         sessions := w.sessions + [|w.slots|], futures := w.futures + [|w.sessions|])
    case DropListener => CountDown(w, LISTENER)
    case CloseListener => OsClose(w, LISTENER)
    case CloseDone => if w.pc.Failing? then w.(pc := Top) else w.(pc := Ended, active := false)
    case SessionDrops(k) => CountDown(w, w.sessions[k])
    case SessionCloses(k) => OsClose(w, w.sessions[k])
    case NewClient => w.(slots := w.slots + [Empty], clients := w.clients + [ClientSock(|w.slots|, Resting)])
    case CallsClose(c) => At(w, c, Closing(false))
    case CallsConnect(c) => At(w, c, Closing(true))
    case ClientDrops(c) => CountDown(w, w.clients[c].slot)
    case ClientCloses(c) => OsClose(w, w.clients[c].slot)
    case CloseReturns(c) => At(w, c, if w.clients[c].pc.reopen then Connecting else Resting)
    case ClientOpens(c, ok) => if ok then OsOpen(w, w.clients[c].slot) else At(w, c, Resting)
    case ClientCounts(c) => At(CountUp(w, w.clients[c].slot), c, Resting)
  }

  predicate Runs(w: World, actions: seq<Action>)
    decreases |actions|
  {
    actions != [] ==> Enabled(w, actions[0]) && Runs(Step(w, actions[0]), actions[1..])
  }

  function Run(w: World, actions: seq<Action>): World
    requires Runs(w, actions)
    decreases |actions|
  {
    if actions == [] then w else Run(Step(w, actions[0]), actions[1..])
  }
}
