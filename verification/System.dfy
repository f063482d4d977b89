/**
 A client and all the connections it ever opens, with the server's session at the far end
 of each, under every interleaving of their system calls. Any of them may fail or time out
 at any point, except that `select` inside a receive does not fail.
 */
module System {
  import opened Bytes
  import opened StreamPrefix
  import opened Transfer
  import opened Connection
  import C = Client
  import S = Session

  /**
   One attempt of a call: the connection its handle was open on, if it was, how it ended, and
   whether in a send, so that some byte of its frame was never accepted.
   */
  datatype Attempt = Attempt(reached: bool, conn: nat, why: ConnState, unsent: bool)

  datatype CallRec = CallRec(msg: Msg, attempts: seq<Attempt>)

  /**
   The client's handle is connection `cur` while `client.open`. `calls` records every call
   begun, `dirty` that a `Sync` on the current connection has returned false, `refused` the
   calls that got no new connection for their second attempt.
   */
  datatype System = System(client: C.Client, cur: nat, conns: seq<Conn>, calls: seq<CallRec>, dirty: bool,
                           refused: set<int>)

  const START := System(C.Client(C.Idle, [], 0, 0, 0, false, C.Nothing), 0, [], [], false, {})

  datatype Action =
    | Starts(e: Event)                       // Transaction or Sync is called
    | ClientSends(n: nat) | ClientSendFails(why: ConnState)
    | ClientReads(n: nat) | ClientFilled | ClientReadFails(why: ConnState)
    | Reconnects | ReconnectFails(why: ConnState)
    | UserCloses | UserConnects              // Close, and a successful Connect
    | Server(k: nat, e: Event)               // an event of session k that moves no bytes
    | ServerReads(k: nat, n: nat) | ServerSends(k: nat, n: nat)

  function MsgFor(id: nat, e: Event): Msg
    requires e.Begin? || e.BeginSync?
  {
    if e.Begin? then Msg(id, true, Header(CMD_REQUEST, 0, Wrap32(e.ms), |e.frame|), e.frame)
    else Msg(id, false, Header(CMD_PING_REQUEST, e.rand, Wrap32(e.ms), 0), [])
  }

  /** The message of the call in progress. */
  function Current(s: System): Msg {
    if s.calls == [] then Msg(0, false, Zeros(PREFIX_SIZE), []) else s.calls[|s.calls| - 1].msg
  }

  /** Ends the last attempt of the last call. */
  function Ended(calls: seq<CallRec>, why: ConnState, unsent: bool): seq<CallRec> {
    if calls == [] || calls[|calls| - 1].attempts == [] then calls
    else
      var last := |calls| - 1;
      var a := calls[last].attempts;
      calls[last := calls[last].(attempts := a[|a| - 1 := a[|a| - 1].(why := why, unsent := unsent)])]
  }

  function Retried(calls: seq<CallRec>, conn: nat): seq<CallRec> {
    if calls == [] then calls
    else
      var last := |calls| - 1;
      calls[last := calls[last].(attempts := calls[last].attempts + [Attempt(true, conn, CONN_OK, false)])]
  }

  predicate Enabled(s: System, a: Action) {
    match a
    case Starts(e) => s.client.at.Idle? && C.Enabled(s.client, e)
    case ClientSends(n) =>
      C.Enabled(s.client, Sent(n)) && s.client.open && s.cur < |s.conns| && !s.conns[s.cur].deaf
    case ClientSendFails(why) => C.Enabled(s.client, TxFail(why)) && (s.client.open ==> s.cur < |s.conns|)
    case ClientReads(n) =>
      && s.client.open && s.cur < |s.conns| && n <= |s.conns[s.cur].s2c|
      && C.Enabled(s.client, Chunk(s.conns[s.cur].s2c[..n]))
    case ClientFilled => C.Enabled(s.client, Filled) && s.client.open && s.cur < |s.conns|
    case ClientReadFails(why) => C.Enabled(s.client, RxFail(why))
    case Reconnects => C.Enabled(s.client, Connected)
    case ReconnectFails(why) => C.Enabled(s.client, ConnectFail(why))
    case UserCloses => s.client.at.Idle?
    case UserConnects => s.client.at.Idle?
    case Server(k, e) => k < |s.conns| && Silent(e) && S.Enabled(s.conns[k].sess, e)
    case ServerReads(k, n) => k < |s.conns| && ServerMayRead(s.conns[k], n)
    case ServerSends(k, n) => k < |s.conns| && S.Enabled(s.conns[k].sess, Sent(n))
  }

  predicate IsPing(p: C.Place) {
    p.Pinging? || p.AwaitingPong?
  }

  function Step(s: System, a: Action): System
    requires Enabled(s, a)
  {
    match a
    case Starts(e) =>
      s.(client := C.Step(s.client, e),
         calls := s.calls + [CallRec(MsgFor(|s.calls|, e), [Attempt(s.client.open, s.cur, CONN_OK, false)])])
    case ClientSends(n) =>
      s.(client := C.Step(s.client, Sent(n)),
         conns := s.conns[s.cur := Connection.ClientSends(s.conns[s.cur], Current(s), s.client.at.rest, n)])
    case ClientSendFails(why) =>
      s.(client := C.Step(s.client, TxFail(why)),
         conns := if s.client.open then s.conns[s.cur := s.conns[s.cur].(deaf := true)] else s.conns,
         calls := Ended(s.calls, why, true), dirty := s.dirty || IsPing(s.client.at))
    case ClientReads(n) =>
      s.(client := C.Step(s.client, Chunk(s.conns[s.cur].s2c[..n])),
         conns := s.conns[s.cur := Connection.ClientReads(s.conns[s.cur], n)])
    case ClientFilled =>
      var client := C.Step(s.client, Filled);
      s.(client := client,
         conns := if client.at.Idle? then s.conns[s.cur := s.conns[s.cur].(reply := NoReply)] else s.conns,
         calls := if client.at.Idle? && client.outcome.Failed? then Ended(s.calls, client.outcome.why, false) else s.calls,
         dirty := s.dirty || (client.at.Idle? && client.outcome == C.Synced(false)))
    case ClientReadFails(why) =>
      s.(client := C.Step(s.client, RxFail(why)), calls := Ended(s.calls, why, false),
         dirty := s.dirty || IsPing(s.client.at))
    case Reconnects =>
      s.(client := C.Step(s.client, Connected), cur := |s.conns|, conns := s.conns + [FRESH],
         calls := Retried(s.calls, |s.conns|), dirty := false)
    case ReconnectFails(why) =>
      s.(client := C.Step(s.client, ConnectFail(why)), refused := s.refused + {|s.calls| - 1})
    case UserCloses => s.(client := s.client.(open := false))
    case UserConnects =>
      s.(client := s.client.(open := true), cur := |s.conns|, conns := s.conns + [FRESH], dirty := false)
    case Server(k, e) => s.(conns := s.conns[k := ServerDoes(s.conns[k], e)])
    case ServerReads(k, n) => s.(conns := s.conns[k := Connection.ServerReads(s.conns[k], n)])
    case ServerSends(k, n) => s.(conns := s.conns[k := Connection.ServerSends(s.conns[k], n)])
  }

  predicate Runs(s: System, actions: seq<Action>)
    decreases |actions|
  {
    actions != [] ==> Enabled(s, actions[0]) && Runs(Step(s, actions[0]), actions[1..])
  }

  function Run(s: System, actions: seq<Action>): System
    requires Runs(s, actions)
    decreases |actions|
  {
    if actions == [] then s else Run(Step(s, actions[0]), actions[1..])
  }

  // ---------------------------------------------------------------- the invariant

  function PhaseOf(p: C.Place): Phase {
    if p.Asking? || p.Pinging? then Speaking
    else if C.Receiving(p) then Listening
    else Resting
  }

  /** What the client has read of the current reply. */
  function GotOf(p: C.Place): seq<byte> {
    match p
    case AwaitingHeader(got) => got
    case AwaitingPayload(hdr, got) => hdr + got
    case AwaitingPong(got) => got
    case _ => []
  }

  /** The client is in the call that was recorded last. */
  predicate ClientOk(s: System) {
    var c := s.client;
    && (!c.at.Idle? ==>
          && s.calls != [] && Current(s).id == |s.calls| - 1
          && Current(s) == MsgFor(|s.calls| - 1, if IsPing(c.at) then BeginSync(c.rand, c.ms) else Begin(c.frame, c.ms)))
    && (C.Receiving(c.at) ==> c.open && |c.at.got| <= C.Needed(c.at))
    && (c.at.Asking? || c.at.Pinging? ==> c.at.rest != [])
    && (c.at.Reconnecting? ==> !c.open && c.attempt == 1)
  }

  /** All calls on this connection are older than `bound`, in order and without repetition. */
  ghost predicate Ordered(c: Conn, bound: nat) {
    && (forall i, j :: 0 <= i < j < |c.handled| ==> c.handled[i] < c.handled[j])
    && (forall i, j :: 0 <= i < j < |c.queue| ==> c.queue[i].id < c.queue[j].id)
    && (forall i, j :: 0 <= i < |c.handled| && 0 <= j < |c.queue| ==> c.handled[i] < c.queue[j].id)
    && (forall i :: 0 <= i < |c.handled| ==> c.handled[i] < bound)
    && (forall i :: 0 <= i < |c.queue| ==> c.queue[i].id < bound)
  }

  /**
   What the client has still to send is what the current connection has still to get; a
   deaf connection has not seen the current call's frame.
   */
  ghost predicate Linked(s: System) {
    s.client.open ==>
      && s.cur < |s.conns|
      && var conn := s.conns[s.cur];
         if PhaseOf(s.client.at) == Speaking && s.calls != [] then
           || (s.client.at.rest == BytesOf(Current(s)) && Ordered(conn, |s.calls| - 1) && (conn.deaf || conn.unsent == []))
           || (!conn.deaf && conn.unsent == s.client.at.rest && conn.queue != []
               && conn.queue[|conn.queue| - 1] == Current(s))
         else conn.deaf || conn.unsent == []
  }

  ghost predicate Tried(rec: CallRec, k: nat) {
    exists a :: 0 <= a < |rec.attempts| && rec.attempts[a].reached && rec.attempts[a].conn == k
  }

  /** Every frame on connection `k`, and every handler call of its session, is a recorded call's. */
  ghost predicate Attributed(c: Conn, k: nat, calls: seq<CallRec>) {
    && Ordered(c, |calls|)
    && |c.handled| == |c.sess.calls|
    && (forall i :: 0 <= i < |c.handled| ==>
          var rec := calls[c.handled[i]];
          Tried(rec, k) && rec.msg.isRequest && c.sess.calls[i].request == rec.msg.pay)
    && (forall i :: 0 <= i < |c.queue| ==> calls[c.queue[i].id].msg == c.queue[i] && Tried(calls[c.queue[i].id], k))
  }

  predicate EndOk(at: Attempt) {
    (at.why == ERR_TX ==> at.unsent) && (at.unsent ==> at.why in {ERR_TX, ERR_CLOSED})
  }

  /** At most two attempts, the second only after a failed send or receive, on another connection. */
  ghost predicate AttemptsOk(rec: CallRec, id: nat, conns: nat) {
    var a := rec.attempts;
    && rec.msg.id == id && MsgOk(rec.msg)
    && 1 <= |a| <= 2
    && (forall i :: 0 <= i < |a| && a[i].reached ==> a[i].conn < conns)
    && (forall i :: 0 <= i < |a| ==> EndOk(a[i]))
    && (|a| == 2 ==> a[0].why in {ERR_TX, ERR_RX} && (a[0].reached && a[1].reached ==> a[0].conn != a[1].conn))
  }

  /** The call's frame can no longer be executed on this connection. */
  ghost predicate Silenced(s: System, k: nat, id: nat)
    requires k < |s.conns|
  {
    var c := s.conns[k];
    && (forall i :: 0 <= i < |c.handled| ==> c.handled[i] != id)
    && (forall i :: 0 <= i < |c.queue| && c.queue[i].id == id ==> i == |c.queue| - 1 && c.unsent != [])
    && (c.deaf || !s.client.open || s.cur != k)
  }

  ghost predicate CallsOk(s: System) {
    forall id :: 0 <= id < |s.calls| ==> AttemptsOk(s.calls[id], id, |s.conns|)
  }

  ghost predicate TxSilenced(s: System)
    requires CallsOk(s)
  {
    forall id, a :: 0 <= id < |s.calls| && 0 <= a < |s.calls[id].attempts| ==>
      var at := s.calls[id].attempts[a];
      at.reached && at.unsent ==> Silenced(s, at.conn, id)
  }

  /** The attempt in progress is the last one recorded. */
  ghost predicate AttemptOk(s: System) {
    !s.client.at.Idle? ==>
      && s.calls != []
      && var a := s.calls[|s.calls| - 1].attempts;
         && a != []
         && (s.client.at.Reconnecting? ==> |a| == 1 && a[0].why in {ERR_TX, ERR_RX})
         && (!s.client.at.Reconnecting? ==>
               && a[|a| - 1] == Attempt(s.client.open, s.cur, CONN_OK, false)
               && (s.client.attempt == 1 ==> |a| == 1))
  }

  ghost predicate ConnsOk(s: System) {
    forall k :: 0 <= k < |s.conns| ==> InStep(s.conns[k]) && Attributed(s.conns[k], k, s.calls)
  }

  /** On a connection where every `Sync` returned true, all earlier calls are answered. */
  ghost predicate TidyOk(s: System) {
    s.client.open && !s.dirty ==>
      s.cur < |s.conns|
      && !s.conns[s.cur].deaf
      && Tidy(s.conns[s.cur], PhaseOf(s.client.at), Current(s), GotOf(s.client.at))
  }

  ghost predicate Inv(s: System) {
    ClientOk(s) && Linked(s) && ConnsOk(s) && CallsOk(s) && TxSilenced(s) && AttemptOk(s) && TidyOk(s)
  }
}
