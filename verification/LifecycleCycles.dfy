/**
 That the lifecycle goes round: from any state in which BLE is down the callbacks of the right
 generation lead through enabling, advertising and a connection and back, a hidden stack can be
 restarted, and a reset or a failure shows the error it was given.
 */
module LifecycleCycles {
  import opened Lifecycle
  import opened LifecycleRuns

  /** BLE is down and nothing is in progress. */
  ghost predicate Down(m: Machine) {
    m.view.desired.Hidden? && (m.view.observed.Uninitialized? || m.view.observed.Idle?) && !m.view.recovery
  }

  /** Enabled, synchronised, advertising: each step is accepted once the one before has been. */
  lemma GoesUp(m: Machine)
    requires Down(m)
    ensures BeginEnable(m).0.Accepted?
    ensures var e := BeginEnable(m).1;
      && e.gen == Successor(m.gen) && e.error.None? && !e.used && e.view.desired.Exposed? && e.view.observed.Enabling?
      && var s := CompleteSync(e, e.gen);
         && s.0 && s.1.view.ready && s.1.gen == e.gen
         && var a := CompleteAdvertising(s.1, e.gen);
            a.0 && a.1.view == View(Exposed, Advertising, true, true, false, false) && a.1.gen == e.gen
  {
  }

  /** An advertising stack connects, and only the handle that has connected disconnects, back to enabling. */
  lemma ConnectsAndDisconnects(m: Machine, handle: nat, other: nat, expected: bool)
    requires m.view.desired.Exposed? && m.view.observed.Advertising?
    ensures var c := ObserveConnect(m, m.gen, handle);
      && c.0 && c.1.view == View(Exposed, Connected, true, false, true, false)
      && var d := ObserveDisconnect(c.1, m.gen, other, expected);
         && (d.0 <==> other == handle)
         && (if other == handle then
               d.1.view == View(Exposed, Enabling, true, false, false, false) && d.1.gen == Successor(m.gen)
               && d.1.handle == NO_CONNECTION
             else d.1 == c.1)
  {
  }

  /** BLE is up. */
  ghost predicate Up(m: Machine) {
    m.view.desired.Exposed? && (m.view.observed.Advertising? || m.view.observed.Connected?)
  }

  /**
   In every run a request is accepted exactly from the other side, needless exactly on its own, and
   busy in between, in a recovery and in a fault; unless it is accepted nothing changes.
   */
  lemma RequestsAreAnswered(actions: seq<Action>)
    ensures var m := After(actions);
      && (BeginEnable(m).0.Accepted? <==> Down(m)) && (BeginEnable(m).0.NoOp? <==> Up(m))
      && (!BeginEnable(m).0.Accepted? ==> BeginEnable(m).1 == m)
      && (BeginDisable(m).0.Accepted? <==> Up(m)) && (BeginDisable(m).0.NoOp? <==> Down(m))
      && (!BeginDisable(m).0.Accepted? ==> BeginDisable(m).1 == m)
  {
    AfterInv(actions);
  }

  /** The handle of the connection that was last accepted. */
  ghost function LastConnected(actions: seq<Action>): nat {
    if actions == [] then NO_CONNECTION
    else
      var front, a := actions[..|actions| - 1], actions[|actions| - 1];
      if a.ActConnect? && ObserveConnect(After(front), a.gen, a.handle).0 then a.handle else LastConnected(front)
  }

  /** In every run, while connected, a disconnect is believed exactly for that handle, in the current generation. */
  lemma {:induction false} ConnectedHandle(actions: seq<Action>)
    ensures After(actions).view.observed.Connected? ==> After(actions).handle == LastConnected(actions)
  {
    hide Act, ObserveConnect, Inv;
    if actions != [] {
      var front, a := actions[..|actions| - 1], actions[|actions| - 1];
      AfterInv(front);
      ConnectedHandle(front);
      HandleStep(After(front), a);
      assert After(actions) == Act(After(front), a);
      var connects := a.ActConnect? && ObserveConnect(After(front), a.gen, a.handle).0;
      assert LastConnected(actions) == if connects then a.handle else LastConnected(front);
    } else {
      assert After(actions) == Boot && LastConnected(actions) == NO_CONNECTION;
    }
  }

  /** Only an accepted connect connects, with its handle, and a connection keeps it. */
  lemma HandleStep(m: Machine, a: Action)
    requires Inv(m)
    ensures var m' := Act(m, a);
      m'.view.observed.Connected? ==>
        if a.ActConnect? && ObserveConnect(m, a.gen, a.handle).0 then m'.handle == a.handle
        else m.view.observed.Connected? && m'.handle == m.handle
  {
  }

  lemma DisconnectNeedsHandle(actions: seq<Action>, gen: nat, handle: nat, expected: bool)
    requires After(actions).view.observed.Connected?
    ensures ObserveDisconnect(After(actions), gen, handle, expected).0 <==>
            gen == After(actions).gen && handle == LastConnected(actions)
    ensures var m' := After(actions + [ActDisconnect(gen, handle, expected)]);
      if gen == After(actions).gen && handle == LastConnected(actions) then m'.view.observed.Enabling?
      else m' == After(actions)
  {
    AfterInv(actions);
    ConnectedHandle(actions);
    assert (actions + [ActDisconnect(gen, handle, expected)])[..|actions|] == actions;
  }

  /** Disabled from advertising or from a connection: hidden at once, and down when the callbacks have come. */
  lemma GoesDown(m: Machine)
    requires m.view.desired.Exposed? && (m.view.observed.Advertising? || m.view.observed.Connected?) && !m.view.recovery
    ensures BeginDisable(m).0.Accepted?
    ensures var d := BeginDisable(m).1;
      && d.view.desired.Hidden? && d.view.observed.Disabling? && d.gen == Successor(m.gen) && d.handle == m.handle
      && d.error.None?
      && var x := ObserveDisconnect(d, d.gen, m.handle, true);
         && x.0 && x.1 == d.(handle := NO_CONNECTION)
         && var i := CompleteDisable(x.1, d.gen);
            i.0 && Down(i.1) && i.1.view.observed.Idle? && !i.1.view.advertising && !i.1.view.connected
  {
  }

  /** A hidden ready stack is restarted under a new generation and is ready again, with its reset recovery renewed. */
  lemma RestartsHidden(m: Machine)
    requires m.view == View(Hidden, Idle, true, false, false, false) && m.gen != LAST_GENERATION
    ensures var r := BeginHiddenRestart(m);
      && r.0 && r.1.gen == m.gen + 1 && r.1.view.observed.Disabling? && r.1.error.None?
      && var i := BeginHiddenInitialization(r.1, r.1.gen);
         && i.0 && i.1.view.observed.Enabling? && !i.1.used
         && var s := CompleteHiddenSync(i.1, r.1.gen);
            s.0 && s.1.view == View(Hidden, Idle, true, false, false, false) && s.1.gen == m.gen + 1
  {
  }

  /** The first reset since a renewal recovers, the next one is a fault; both show their reason. */
  lemma ResetsRecoverOnce(m: Machine, reason: int, again: int)
    requires !m.view.recovery && !m.view.observed.Fault? && !m.used
    ensures var r := BeginResetRecovery(m, m.gen, reason);
      && r.0 && r.1.gen == Successor(m.gen) && r.1.handle == NO_CONNECTION
      && r.1.error == Some(LastError(RuntimeOperation, reason))
      && r.1.view.observed == (if m.view.desired.Exposed? then Enabling else Idle)
      && r.1.view.desired == m.view.desired && !r.1.view.ready && !r.1.view.connected && !r.1.view.recovery
      && var f := BeginResetRecovery(r.1, r.1.gen, again);
         && !f.0 && f.1.view == View(m.view.desired, Fault, false, false, false, true)
         && f.1.error == Some(LastError(RuntimeOperation, again))
  {
  }

  /** A failure of the current generation is shown as it was reported. */
  lemma FailureIsShown(actions: seq<Action>, operation: Operation, code: int, more: seq<Action>)
    ensures var failed := actions + [ActFailed(After(actions).gen, operation, code)];
      && After(failed).view.observed.Fault? && After(failed).error == Some(LastError(operation, code))
      && After(failed + more).view.observed.Fault?
  {
    var failed := actions + [ActFailed(After(actions).gen, operation, code)];
    assert failed[..|actions|] == actions;
    FaultIsAbsorbing(failed, more);
  }
}
