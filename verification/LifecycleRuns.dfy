/**
 The lifecycle over whole runs, and the host's check of its snapshots
 (validate_ble_exposure in tools/qualification_harness/core.py).
 */
module LifecycleRuns {
  import opened Lifecycle

  datatype Action =
    | ActEnable | ActDisable | ActHiddenRestart
    | ActHiddenInitialization(gen: nat) | ActHiddenSync(gen: nat) | ActSync(gen: nat) | ActAdvertising(gen: nat)
    | ActConnect(gen: nat, handle: nat) | ActDisconnect(gen: nat, handle: nat, expected: bool)
    | ActDisabled(gen: nat) | ActResetRecovery(gen: nat, reason: int)
    | ActFailed(gen: nat, operation: Operation, code: int)

  function Act(m: Machine, a: Action): Machine {
    match a
    case ActEnable => BeginEnable(m).1
    case ActDisable => BeginDisable(m).1
    case ActHiddenRestart => BeginHiddenRestart(m).1
    case ActHiddenInitialization(gen) => BeginHiddenInitialization(m, gen).1
    case ActHiddenSync(gen) => CompleteHiddenSync(m, gen).1
    case ActSync(gen) => CompleteSync(m, gen).1
    case ActAdvertising(gen) => CompleteAdvertising(m, gen).1
    case ActConnect(gen, handle) => ObserveConnect(m, gen, handle).1
    case ActDisconnect(gen, handle, expected) => ObserveDisconnect(m, gen, handle, expected).1
    case ActDisabled(gen) => CompleteDisable(m, gen).1
    case ActResetRecovery(gen, reason) => BeginResetRecovery(m, gen, reason).1
    case ActFailed(gen, operation, code) => CompleteFault(m, gen, operation, code)
  }

  function After(actions: seq<Action>): Machine {
    if actions == [] then Boot else Act(After(actions[..|actions| - 1]), actions[|actions| - 1])
  }

  /** The generation a callback carries. */
  function GenerationOf(a: Action): Option<nat> {
    match a
    case ActEnable | ActDisable | ActHiddenRestart => None
    case ActHiddenInitialization(gen) => Some(gen)
    case ActHiddenSync(gen) => Some(gen)
    case ActSync(gen) => Some(gen)
    case ActAdvertising(gen) => Some(gen)
    case ActConnect(gen, _) => Some(gen)
    case ActDisconnect(gen, _, _) => Some(gen)
    case ActDisabled(gen) => Some(gen)
    case ActResetRecovery(gen, _) => Some(gen)
    case ActFailed(gen, _, _) => Some(gen)
  }

  // ---------------------------------------------------------------- the host's check

  /** validate_ble_exposure on the packed view and the last error. */
  predicate HostAccepts(v: View, error: Option<LastError>) {
    && !(v.advertising && v.connected)
    && (v.observed.Enabling? || v.observed.Advertising? || v.observed.Connected? ==> v.desired.Exposed?)
    && (v.observed.Uninitialized? || v.observed.Idle? || v.observed.Disabling? ==> v.desired.Hidden?)
    && (v.observed.Uninitialized? ==> !v.ready && !v.advertising && !v.connected)
    && (v.observed.Advertising? ==> v.desired.Exposed? && v.ready && v.advertising && !v.connected)
    && (v.observed.Connected? ==> v.desired.Exposed? && v.ready && !v.advertising && v.connected)
    && ((v.observed.Idle? || v.observed.Uninitialized?) && v.desired.Hidden? ==> !v.advertising && !v.connected)
    && (v.observed.Fault? <==> v.recovery)
    && (v.observed.Fault? ==> !v.advertising && !v.connected && error.Some?)
  }

  /** The state of a hidden initialisation, which the host's check has no room for. */
  predicate HiddenEnabling(v: View) { v.desired.Hidden? && v.observed.Enabling? }

  ghost predicate Inv(m: Machine) {
    && (HiddenEnabling(m.view) ==> !m.view.ready && !m.view.advertising && !m.view.connected && !m.view.recovery)
    && (!HiddenEnabling(m.view) ==> HostAccepts(m.view, m.error))
    && (m.view.observed.Enabling? ==> !m.view.advertising && !m.view.connected)
  }

  lemma ActKeepsInv(m: Machine, a: Action)
    requires Inv(m)
    ensures Inv(Act(m, a))
  {
  }

  lemma {:induction false} AfterInv(actions: seq<Action>)
    ensures Inv(After(actions))
  {
    hide Inv, Act;
    if actions == [] {
      BootInv();
    } else {
      AfterInv(actions[..|actions| - 1]);
      ActKeepsInv(After(actions[..|actions| - 1]), actions[|actions| - 1]);
    }
  }

  lemma BootInv()
    ensures Inv(Boot)
  {
  }

  /** Of all snapshots that can be reached the host accepts exactly those that are not hidden and enabling. */
  lemma HostAcceptsExactly(actions: seq<Action>)
    ensures HostAccepts(After(actions).view, After(actions).error) <==> !HiddenEnabling(After(actions).view)
  {
    AfterInv(actions);
  }

  /** The exception does occur: after a hidden restart, while the stack initialises. */
  lemma HiddenEnablingIsReached()
    ensures exists actions :: HiddenEnabling(After(actions).view)
  {
    var a: seq<Action> := [ActEnable];
    var b := a + [ActAdvertising(1)];
    var c := b + [ActDisable];
    var d := c + [ActHiddenInitialization(2)];
    assert a[..0] == [] && b[..1] == a && c[..2] == b && d[..3] == c;
    assert After(a) == Act(After([]), ActEnable);
    assert After(b) == Act(After(a), ActAdvertising(1));
    assert After(c) == Act(After(b), ActDisable);
    assert HiddenEnabling(After(d).view);
  }

  // ---------------------------------------------------------------- the graph of the lifecycle

  /** The moves between observed states while the intent stays exposed. */
  predicate ExposedMove(a: Observed, b: Observed) {
    || (b.Enabling? && (a.Enabling? || a.Advertising? || a.Connected?))   // sync, disconnect, reset recovery
    || (b.Advertising? && (a.Enabling? || a.Advertising?))
    || (b.Connected? && a.Advertising?)
    || b.Fault?
  }

  /** And while it stays hidden. */
  predicate HiddenMove(a: Observed, b: Observed) {
    || (b.Disabling? && a.Idle?)                                          // hidden restart
    || (b.Enabling? && a.Disabling?)                                      // hidden initialisation
    || (b.Idle? && (a.Uninitialized? || a.Enabling? || a.Idle? || a.Disabling?))
    || b.Fault?
  }

  /** The intent changes only by enabling what is down and by disabling what is up. */
  predicate Move(v: View, v': View) {
    if v.desired == v'.desired then
      v == v'
      || (if v.desired.Exposed? then ExposedMove(v.observed, v'.observed) else HiddenMove(v.observed, v'.observed))
    else if v'.desired.Exposed? then (v.observed.Uninitialized? || v.observed.Idle?) && v'.observed.Enabling?
    else (v.observed.Advertising? || v.observed.Connected?) && v'.observed.Disabling?
  }

  /**
   In every run the lifecycle moves along its graph.  It changes intent only with a new
   generation, and an action that is refused or out of date leaves the view alone.
   */
  lemma MovesAlongTheGraph(actions: seq<Action>, a: Action)
    ensures var m, m' := After(actions), Act(After(actions), a);
      && Move(m.view, m'.view)
      && (m'.view.desired != m.view.desired ==> m'.gen == Successor(m.gen))
      && (m'.gen == m.gen || m'.gen == Successor(m.gen))
      && (m'.gen != m.gen ==> m'.view.observed.Enabling? || m'.view.observed.Disabling?
                              || m'.view.observed.Idle? || m'.view.observed.Fault?)
  {
    AfterInv(actions);
    ActMoves(After(actions), a);
  }

  lemma ActMoves(m: Machine, a: Action)
    requires Inv(m)
    ensures var m' := Act(m, a);
      && Move(m.view, m'.view)
      && (m'.view.desired != m.view.desired ==> m'.gen == Successor(m.gen))
      && (m'.gen == m.gen || m'.gen == Successor(m.gen))
      && (m'.gen != m.gen ==> m'.view.observed.Enabling? || m'.view.observed.Disabling?
                              || m'.view.observed.Idle? || m'.view.observed.Fault?)
  {
  }

  // ---------------------------------------------------------------- late callbacks

  /** How often the generation changes in `more`, after `actions`. */
  function Changes(actions: seq<Action>, more: seq<Action>): nat {
    if more == [] then 0
    else
      var m := After(actions + more[..|more| - 1]);
      Changes(actions, more[..|more| - 1]) + if Act(m, more[|more| - 1]).gen != m.gen then 1 else 0
  }

  /** The generation counts its changes, in 32 bits. */
  lemma {:induction false} GenerationCounts(actions: seq<Action>, more: seq<Action>)
    requires After(actions).gen <= LAST_GENERATION
    ensures After(actions + more).gen == (After(actions).gen + Changes(actions, more)) % (LAST_GENERATION + 1)
  {
    hide Act;
    if more == [] {
      assert actions + more == actions;
    } else {
      var front := more[..|more| - 1];
      GenerationCounts(actions, front);
      assert (actions + more)[..|actions + more| - 1] == actions + front;
      MovesAlongTheGraph(actions + front, more[|more| - 1]);
    }
  }

  /**
   A callback that was issued in the generation of an earlier moment and comes after any further
   actions changes nothing, if the generation has changed since, unless it has run through all
   32-bit values.
   */
  lemma StaleChangesNothing(actions: seq<Action>, more: seq<Action>, a: Action)
    requires GenerationOf(a) == Some(After(actions).gen)
    requires Changes(actions, more) % (LAST_GENERATION + 1) != 0
    ensures Act(After(actions + more), a) == After(actions + more)
  {
    hide Act, After, Changes;
    GenerationIsSmall(actions);
    GenerationCounts(actions, more);
    OtherGeneration(After(actions).gen, Changes(actions, more));
    FencedByGeneration(After(actions + more), a);
  }

  lemma GenerationIsSmall(actions: seq<Action>)
    ensures After(actions).gen <= LAST_GENERATION
  {
    hide Act, Changes;
    assert [] + actions == actions;
    GenerationCounts([], actions);
  }

  lemma OtherGeneration(gen: nat, changes: nat)
    requires gen <= LAST_GENERATION && changes % (LAST_GENERATION + 1) != 0
    ensures (gen + changes) % (LAST_GENERATION + 1) != gen
  {
  }

  lemma FencedByGeneration(m: Machine, a: Action)
    requires GenerationOf(a).Some? && GenerationOf(a).value != m.gen
    ensures Act(m, a) == m
  {
  }

  // ---------------------------------------------------------------- faults

  /** Once in Fault, always in Fault: the view, the generation and the error's presence stay. */
  lemma {:induction false} FaultIsAbsorbing(actions: seq<Action>, more: seq<Action>)
    requires After(actions).view.observed.Fault?
    ensures After(actions + more).view == After(actions).view
    ensures After(actions + more).gen == After(actions).gen && After(actions + more).error.Some?
  {
    AfterInv(actions);
    if more == [] {
      assert actions + more == actions;
    } else {
      var n := |more| - 1;
      FaultIsAbsorbing(actions, more[..n]);
      assert (actions + more)[..|actions| + n] == actions + more[..n];
    }
  }

  /**
   A status reader loads the packed state first and the error later: what it puts together is
   still acceptable, whatever happened in between.
   */
  lemma LateErrorIsAccepted(actions: seq<Action>, more: seq<Action>)
    requires !HiddenEnabling(After(actions).view)
    ensures HostAccepts(After(actions).view, After(actions + more).error)
  {
    AfterInv(actions);
    if After(actions).view.observed.Fault? { FaultIsAbsorbing(actions, more); }
  }

  // ---------------------------------------------------------------- reset recovery

  /** The action renews the one reset recovery: an accepted enable, or a hidden initialisation. */
  predicate Renews(m: Machine, a: Action) {
    (a.ActEnable? && BeginEnable(m).0.Accepted?)
    || (a.ActHiddenInitialization? && BeginHiddenInitialization(m, a.gen).0)
  }

  predicate Recovers(m: Machine, a: Action) { a.ActResetRecovery? && BeginResetRecovery(m, a.gen, a.reason).0 }

  /** Successful reset recoveries since the last renewal, or since boot. */
  function Recoveries(actions: seq<Action>): nat {
    if actions == [] then 0
    else
      var front, a := actions[..|actions| - 1], actions[|actions| - 1];
      if Renews(After(front), a) then 0
      else Recoveries(front) + if Recovers(After(front), a) then 1 else 0
  }

  /** At most one reset recovery succeeds for each accepted enable or hidden initialisation; a second one is a fault. */
  lemma {:induction false} OneRecovery(actions: seq<Action>)
    ensures Recoveries(actions) <= 1
    ensures Recoveries(actions) == 1 ==> After(actions).used
  {
    hide Act, Renews, Recovers;
    if actions != [] {
      OneRecovery(actions[..|actions| - 1]);
      RecoveryStep(After(actions[..|actions| - 1]), actions[|actions| - 1]);
    }
  }

  lemma RecoveryStep(m: Machine, a: Action)
    ensures Recovers(m, a) ==> !m.used && Act(m, a).used
    ensures m.used && !Renews(m, a) ==> Act(m, a).used
  {
  }

  lemma SecondRecoveryFaults(actions: seq<Action>, gen: nat, reason: int)
    requires var m := After(actions); gen == m.gen && !m.view.observed.Fault? && Recoveries(actions) == 1
    ensures After(actions + [ActResetRecovery(gen, reason)]).view.observed.Fault?
  {
    AfterInv(actions);
    OneRecovery(actions);
    var s := actions + [ActResetRecovery(gen, reason)];
    assert s[..|s| - 1] == actions;
  }
}
