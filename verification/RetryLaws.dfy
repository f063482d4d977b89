/** Which calls are tried again, over every run of the system. */
module RetryLaws {
  import opened StreamPrefix
  import opened Transfer
  import opened Connection
  import opened System
  import opened SystemSteps
  import C = Client

  /** The call's request was tried again, or could not be, or is about to be. */
  predicate TriedAgain(s: System, id: nat)
    requires id < |s.calls|
  {
    || |s.calls[id].attempts| == 2
    || id in s.refused
    || (id == |s.calls| - 1 && s.client.at.Reconnecting?)
  }

  ghost predicate RetriedOk(s: System, id: nat)
    requires id < |s.calls|
  {
    var rec := s.calls[id];
    && rec.attempts != []
    && (rec.msg.isRequest ==> (TriedAgain(s, id) <==> rec.attempts[0].why in {ERR_TX, ERR_RX}))
    && (!rec.msg.isRequest ==> |rec.attempts| == 1 && !TriedAgain(s, id))
  }

  ghost predicate RetriesOk(s: System) {
    && (forall id :: 0 <= id < |s.calls| ==> RetriedOk(s, id))
    && (forall id :: id in s.refused ==> 0 <= id < |s.calls|)
    && (!s.client.at.Idle? && !IsPing(s.client.at) && s.client.attempt != 1 ==>
          s.calls != [] && |s.calls[|s.calls| - 1].attempts| == 2)
  }

  lemma KindOfCall(s: System)
    requires ClientOk(s) && !s.client.at.Idle?
    ensures s.calls != [] && s.calls[|s.calls| - 1].msg.isRequest == !IsPing(s.client.at)
  {
    hide Header;
  }

  /** The actions with which an attempt can end. */
  predicate MayEnd(a: Action) {
    a.ClientSendFails? || a.ClientFilled? || a.ClientReadFails?
  }

  lemma EndKeepsRetried(s: System, a: Action, id: nat)
    requires ClientOk(s) && AttemptOk(s) && RetriesOk(s) && Enabled(s, a) && MayEnd(a) && id < |s.calls|
    ensures id < |Step(s, a).calls| && RetriedOk(Step(s, a), id)
  {
    hide ClientOk, Header, Word, Valid, C.PongOk;
    KindOfCall(s);
    assert RetriedOk(s, id);
  }

  lemma MoveKeepsRetried(s: System, a: Action, id: nat)
    requires ClientOk(s) && AttemptOk(s) && RetriesOk(s) && Enabled(s, a) && !MayEnd(a) && id < |s.calls|
    ensures id < |Step(s, a).calls| && RetriedOk(Step(s, a), id)
  {
    hide ClientOk, MsgFor, Header, Word, Valid, C.RequestFrame, C.PingFrame, C.PongOk, Ended,
         Connection.ClientSends, Connection.ClientReads, ServerDoes, Connection.ServerReads, Connection.ServerSends;
    if !s.client.at.Idle? {
      KindOfCall(s);
    }
    assert RetriedOk(s, id);
  }

  lemma NewCallRetried(s: System, e: Event)
    requires RetriesOk(s) && Enabled(s, Starts(e))
    ensures RetriedOk(Step(s, Starts(e)), |s.calls|)
  {
    hide Header, C.RequestFrame, C.PingFrame;
  }

  lemma StepKeepsRetries(s: System, a: Action)
    requires ClientOk(s) && AttemptOk(s) && RetriesOk(s) && Enabled(s, a)
    ensures RetriesOk(Step(s, a))
  {
    hide ClientOk, RetriedOk, MsgFor, Header, Word, Valid, C.RequestFrame, C.PingFrame, C.PongOk;
    var s' := Step(s, a);
    forall id | 0 <= id < |s'.calls|
      ensures RetriedOk(s', id)
    {
      if id < |s.calls| {
        if MayEnd(a) {
          EndKeepsRetried(s, a, id);
        } else {
          MoveKeepsRetried(s, a, id);
        }
      } else {
        NewCallRetried(s, a.e);
      }
    }
  }

  lemma {:induction false} RunKeepsRetries(s: System, actions: seq<Action>)
    requires Inv(s) && RetriesOk(s) && Runs(s, actions)
    ensures RetriesOk(Run(s, actions))
    decreases |actions|
  {
    hide Step, Enabled, ClientOk, Linked, ConnsOk, CallsOk, TxSilenced, AttemptOk, TidyOk, RetriesOk;
    if actions != [] {
      StepKeepsRetries(s, actions[0]);
      StepKeeps(s, actions[0]);
      RunKeepsRetries(Step(s, actions[0]), actions[1..]);
    }
  }

  /**
   Exactly which calls are tried again. In every run, a transaction whose first attempt has
   ended in a send or a receive that failed for good has a second attempt, or was refused a
   new connection, or is reconnecting; and no other call is or does any of these, in
   particular no `Sync`.
   */
  lemma RetriedExactly(actions: seq<Action>, id: nat)
    requires Runs(START, actions) && id < |Run(START, actions).calls|
    ensures var s := Run(START, actions);
            var rec := s.calls[id];
            && 1 <= |rec.attempts| <= 2
            && (rec.msg.isRequest && rec.attempts[0].why in {ERR_TX, ERR_RX} <==>
                || |rec.attempts| == 2
                || id in s.refused
                || (id == |s.calls| - 1 && s.client.at.Reconnecting?))
  {
    StartInv();
    Reachable(actions);
    RunKeepsRetries(START, actions);
    var s := Run(START, actions);
    assert AttemptsOk(s.calls[id], id, |s.conns|);
    assert RetriedOk(s, id);
  }
}
