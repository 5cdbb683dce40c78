/**
 The BLE lifecycle (ble_lifecycle.cpp): enable, disable, hidden restart, reset recovery and fault,
 fenced by a generation.  Mutation is serialised by the caller, as the source says.
 */
module Lifecycle {

  datatype Option<T> = None | Some(value: T)

  datatype Desired = Hidden | Exposed

  datatype Observed = Uninitialized | Enabling | Idle | Advertising | Connected | Disabling | Fault

  datatype Operation = EnableOperation | DisableOperation | RuntimeOperation

  datatype LastError = LastError(operation: Operation, code: int)

  /** The fields packed into state_. */
  datatype View = View(
    desired: Desired, observed: Observed, ready: bool, advertising: bool, connected: bool, recovery: bool)

  const NO_CONNECTION := 0xffff
  const LAST_GENERATION := 0xffff_ffff

  function Successor(gen: nat): nat { if gen == LAST_GENERATION then 0 else gen + 1 }

  // ---------------------------------------------------------------- the packed byte

  function ObservedNumber(o: Observed): bv8 {
    match o
    case Uninitialized => 0
    case Enabling => 1
    case Idle => 2
    case Advertising => 3
    case Connected => 4
    case Disabling => 5
    case Fault => 6
  }

  function ObservedOf(n: bv8): Observed {
    if n == 0 then Uninitialized else if n == 1 then Enabling else if n == 2 then Idle
    else if n == 3 then Advertising else if n == 4 then Connected else if n == 5 then Disabling else Fault
  }

  function Pack(v: View): bv8 {
    (ObservedNumber(v.observed) << 5) | (if v.desired.Exposed? then 1 else 0) | (if v.ready then 2 else 0)
    | (if v.advertising then 4 else 0) | (if v.connected then 8 else 0) | (if v.recovery then 16 else 0)
  }

  function Unpack(b: bv8): View {
    View(if b & 1 != 0 then Exposed else Hidden, ObservedOf(b >> 5), b & 2 != 0, b & 4 != 0, b & 8 != 0, b & 16 != 0)
  }

  /** What is published is what a snapshot reads. */
  lemma UnpackPack(v: View)
    ensures Unpack(Pack(v)) == v
  {
  }

  // ---------------------------------------------------------------- the transitions

  datatype Machine = Machine(view: View, gen: nat, handle: nat, error: Option<LastError>, used: bool)

  const Boot: Machine := Machine(View(Hidden, Uninitialized, false, false, false, false), 0, NO_CONNECTION, None, false)

  datatype Result = Accepted | NoOp | Busy

  predicate Blocked(v: View) { v.recovery || v.observed.Fault? || v.observed.Enabling? || v.observed.Disabling? }

  function Publish(m: Machine, observed: Observed, ready: bool, advertising: bool, connected: bool): Machine {
    m.(view := View(m.view.desired, observed, ready, advertising, connected, false))
  }

  function BeginEnable(m: Machine): (Result, Machine) {
    var v := m.view;
    if Blocked(v) then (Busy, m)
    else if v.desired.Exposed? && (v.observed.Advertising? || v.observed.Connected?) then (NoOp, m)
    else if !v.desired.Hidden? || (!v.observed.Uninitialized? && !v.observed.Idle?) then (Busy, m)
    else (Accepted, m.(view := View(Exposed, Enabling, v.ready, false, false, false), gen := Successor(m.gen),
                       error := None, used := false))
  }

  function BeginDisable(m: Machine): (Result, Machine) {
    var v := m.view;
    if Blocked(v) then (Busy, m)
    else if v.desired.Hidden? && (v.observed.Uninitialized? || v.observed.Idle?) then (NoOp, m)
    else if !v.desired.Exposed? then (Busy, m)
    else (Accepted, m.(view := View(Hidden, Disabling, v.ready, v.advertising, v.connected, false),
                       gen := Successor(m.gen), error := None))
  }

  function BeginHiddenRestart(m: Machine): (bool, Machine) {
    if m.view != View(Hidden, Idle, true, false, false, false) || m.gen == LAST_GENERATION then (false, m)
    else (true, Publish(m, Disabling, false, false, false).(gen := Successor(m.gen), error := None))
  }

  function BeginHiddenInitialization(m: Machine, gen: nat): (bool, Machine) {
    var v := m.view;
    if m.gen != gen || v.recovery || !v.desired.Hidden? || !v.observed.Disabling? then (false, m)
    else (true, Publish(m, Enabling, false, false, false).(used := false))
  }

  function CompleteHiddenSync(m: Machine, gen: nat): (bool, Machine) {
    var v := m.view;
    if m.gen != gen || v.recovery || !v.desired.Hidden? || (!v.observed.Enabling? && !(v.observed.Idle? && m.used))
    then (false, m)
    else (true, Publish(m, Idle, true, false, false))
  }

  function CompleteSync(m: Machine, gen: nat): (bool, Machine) {
    if m.gen != gen || !m.view.desired.Exposed? || !m.view.observed.Enabling? then (false, m)
    else (true, Publish(m, Enabling, true, false, false))
  }

  function CompleteAdvertising(m: Machine, gen: nat): (bool, Machine) {
    var v := m.view;
    if m.gen != gen || !v.desired.Exposed? || (!v.observed.Enabling? && !v.observed.Advertising?) then (false, m)
    else (true, Publish(m, Advertising, true, true, false))
  }

  function ObserveConnect(m: Machine, gen: nat, handle: nat): (bool, Machine) {
    if m.gen != gen || !m.view.desired.Exposed? || !m.view.observed.Advertising? then (false, m)
    else (true, Publish(m, Connected, true, false, true).(handle := handle))
  }

  function ObserveDisconnect(m: Machine, gen: nat, handle: nat, expected: bool): (bool, Machine) {
    var v := m.view;
    if m.gen != gen || m.handle != handle then (false, m)
    else
      var m' := m.(handle := NO_CONNECTION);
      if expected && v.desired.Hidden? && v.observed.Disabling? then (true, m')
      else if !v.desired.Exposed? || !v.observed.Connected? then (false, m')
      else (true, Publish(m', Enabling, true, false, false).(gen := Successor(m.gen)))
  }

  function CompleteDisable(m: Machine, gen: nat): (bool, Machine) {
    if m.gen != gen || !m.view.desired.Hidden? || !m.view.observed.Disabling? then (false, m)
    else (true, Publish(m, Idle, m.view.ready, false, false).(handle := NO_CONNECTION))
  }

  function BeginResetRecovery(m: Machine, gen: nat, reason: int): (bool, Machine) {
    var v := m.view;
    if m.gen != gen || v.recovery || v.observed.Fault? then (false, m)
    else
      var m' := m.(gen := Successor(m.gen), handle := NO_CONNECTION,
                   error := Some(LastError(RuntimeOperation, reason)), used := true);
      if !m.used then (true, Publish(m', if v.desired.Exposed? then Enabling else Idle, false, false, false))
      else (false, m'.(view := View(v.desired, Fault, false, false, false, true)))
  }

  function CompleteFault(m: Machine, gen: nat, operation: Operation, code: int): Machine {
    if m.gen != gen then m
    else m.(view := View(m.view.desired, Fault, m.view.ready, false, false, true), handle := NO_CONNECTION,
            error := Some(LastError(operation, code)))
  }

  // ---------------------------------------------------------------- the object

  class StateMachine {
    var generation: nat
    var connectionHandle: nat
    var errorCode: int
    var errorOperation: Operation
    var errorPresent: bool
    var state: bv8
    var resetRecoveryUsed: bool

    ghost function Value(): Machine
      reads this
    {
      Machine(Unpack(state), generation, connectionHandle,
              if errorPresent then Some(LastError(errorOperation, errorCode)) else None, resetRecoveryUsed)
    }

    constructor ()
      ensures Value() == Boot
    {
      generation, connectionHandle := 0, NO_CONNECTION;
      errorCode, errorOperation, errorPresent := 0, RuntimeOperation, false;
      state, resetRecoveryUsed := Pack(Boot.view), false;
      UnpackPack(Boot.view);
    }

    method PublishView(v: View)
      modifies `state
      ensures Unpack(state) == v
    {
      state := Pack(v);
      UnpackPack(v);
    }

    method ClearError()
      modifies `errorCode, `errorOperation, `errorPresent
      ensures !errorPresent
    {
      errorCode, errorOperation, errorPresent := 0, RuntimeOperation, false;
    }

    method SetError(operation: Operation, code: int)
      modifies `errorCode, `errorOperation, `errorPresent
      ensures errorPresent && errorOperation == operation && errorCode == code
    {
      errorCode, errorOperation, errorPresent := code, operation, true;
    }

    method Enable() returns (r: Result)
      modifies this
      ensures (r, Value()) == BeginEnable(old(Value()))
    {
      hide Unpack;
      var v := Unpack(state);
      if v.recovery || v.observed.Fault? || v.observed.Enabling? || v.observed.Disabling? {
        return Busy;
      }
      if v.desired.Exposed? && (v.observed.Advertising? || v.observed.Connected?) {
        return NoOp;
      }
      if !v.desired.Hidden? || (!v.observed.Uninitialized? && !v.observed.Idle?) {
        return Busy;
      }
      generation := Successor(generation);
      ClearError();
      resetRecoveryUsed := false;
      PublishView(View(Exposed, Enabling, v.ready, false, false, false));
      return Accepted;
    }

    method Disable() returns (r: Result)
      modifies this
      ensures (r, Value()) == BeginDisable(old(Value()))
    {
      hide Unpack;
      var v := Unpack(state);
      if v.recovery || v.observed.Fault? || v.observed.Enabling? || v.observed.Disabling? {
        return Busy;
      }
      if v.desired.Hidden? && (v.observed.Uninitialized? || v.observed.Idle?) {
        return NoOp;
      }
      if !v.desired.Exposed? {
        return Busy;
      }
      generation := Successor(generation);
      ClearError();
      PublishView(View(Hidden, Disabling, v.ready, v.advertising, v.connected, false));
      return Accepted;
    }

    method HiddenRestart() returns (ok: bool)
      modifies this
      ensures (ok, Value()) == BeginHiddenRestart(old(Value()))
    {
      hide Unpack;
      var v := Unpack(state);
      if !v.desired.Hidden? || !v.observed.Idle? || !v.ready || v.connected || v.advertising || v.recovery
         || generation == LAST_GENERATION
      {
        return false;
      }
      generation := Successor(generation);
      ClearError();
      PublishView(View(Hidden, Disabling, false, false, false, false));
      return true;
    }

    method HiddenInitialization(gen: nat) returns (ok: bool)
      modifies this
      ensures (ok, Value()) == BeginHiddenInitialization(old(Value()), gen)
    {
      hide Unpack;
      var v := Unpack(state);
      if generation != gen || v.recovery || !v.desired.Hidden? || !v.observed.Disabling? {
        return false;
      }
      resetRecoveryUsed := false;
      PublishView(View(Hidden, Enabling, false, false, false, false));
      return true;
    }

    method HiddenSync(gen: nat) returns (ok: bool)
      modifies this
      ensures (ok, Value()) == CompleteHiddenSync(old(Value()), gen)
    {
      hide Unpack;
      var v := Unpack(state);
      if generation != gen || v.recovery || !v.desired.Hidden?
         || (!v.observed.Enabling? && !(v.observed.Idle? && resetRecoveryUsed))
      {
        return false;
      }
      PublishView(View(Hidden, Idle, true, false, false, false));
      return true;
    }

    method Sync(gen: nat) returns (ok: bool)
      modifies this
      ensures (ok, Value()) == CompleteSync(old(Value()), gen)
    {
      hide Unpack;
      var v := Unpack(state);
      if gen != generation || !v.desired.Exposed? || !v.observed.Enabling? {
        return false;
      }
      PublishView(View(v.desired, v.observed, true, false, false, false));
      return true;
    }

    method AdvertisingStarted(gen: nat) returns (ok: bool)
      modifies this
      ensures (ok, Value()) == CompleteAdvertising(old(Value()), gen)
    {
      hide Unpack;
      var v := Unpack(state);
      if gen != generation || !v.desired.Exposed? || (!v.observed.Enabling? && !v.observed.Advertising?) {
        return false;
      }
      PublishView(View(v.desired, Advertising, true, true, false, false));
      return true;
    }

    method Connect(gen: nat, handle: nat) returns (ok: bool)
      modifies this
      ensures (ok, Value()) == ObserveConnect(old(Value()), gen, handle)
    {
      hide Unpack;
      var v := Unpack(state);
      if gen != generation || !v.desired.Exposed? || !v.observed.Advertising? {
        return false;
      }
      connectionHandle := handle;
      PublishView(View(v.desired, Connected, true, false, true, false));
      return true;
    }

    method Disconnect(gen: nat, handle: nat, expected: bool) returns (ok: bool)
      modifies this
      ensures (ok, Value()) == ObserveDisconnect(old(Value()), gen, handle, expected)
    {
      hide Unpack;
      var v := Unpack(state);
      if gen != generation || connectionHandle != handle {
        return false;
      }
      connectionHandle := NO_CONNECTION;
      if expected && v.desired.Hidden? && v.observed.Disabling? {
        return true;
      }
      if !v.desired.Exposed? || !v.observed.Connected? {
        return false;
      }
      generation := Successor(generation);
      PublishView(View(v.desired, Enabling, true, false, false, false));
      return true;
    }

    method Disabled(gen: nat) returns (ok: bool)
      modifies this
      ensures (ok, Value()) == CompleteDisable(old(Value()), gen)
    {
      hide Unpack;
      var v := Unpack(state);
      if gen != generation || !v.desired.Hidden? || !v.observed.Disabling? {
        return false;
      }
      connectionHandle := NO_CONNECTION;
      PublishView(View(v.desired, Idle, v.ready, false, false, false));
      return true;
    }

    method ResetRecovery(gen: nat, reason: int) returns (ok: bool)
      modifies this
      ensures (ok, Value()) == BeginResetRecovery(old(Value()), gen, reason)
    {
      hide Unpack;
      var v := Unpack(state);
      if gen != generation || v.recovery || v.observed.Fault? {
        return false;
      }
      generation := Successor(generation);
      connectionHandle := NO_CONNECTION;
      SetError(RuntimeOperation, reason);
      var usedBefore := resetRecoveryUsed;
      resetRecoveryUsed := true;
      if !usedBefore {
        PublishView(View(v.desired, if v.desired.Exposed? then Enabling else Idle, false, false, false, false));
        return true;
      }
      PublishView(View(v.desired, Fault, false, false, false, true));
      return false;
    }

    method Failed(gen: nat, operation: Operation, code: int)
      modifies this
      ensures Value() == CompleteFault(old(Value()), gen, operation, code)
    {
      hide Unpack;
      var v := Unpack(state);
      if gen != generation {
        return;
      }
      SetError(operation, code);
      connectionHandle := NO_CONNECTION;
      PublishView(View(v.desired, Fault, v.ready, false, false, true));
    }
  }
}
