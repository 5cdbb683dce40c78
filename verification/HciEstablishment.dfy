/**
 Who owns a controller connection between its Connection Complete and its registration in the
 host (ble_transport.cpp, lines 181-194, 1784-1894 and 1966-2061): the controller's ingress
 task records an establishment under a fresh id, the host's resolver clears it again.  One step
 is one atomic access.  Two more tasks stop, retire and reopen the record (lines 1115-1116,
 1153-1176, 1427-1433 and 1992-2001), each in the code's order and at any point: the lifecycle's
 worker and the host's reset callback.
 */
module HciEstablishment {

  const NONE := 0
  const RESERVED := 0xffff_ffff_ffff_ffff
  const NO_CONNECTION := 0xffff

  datatype Record = Record(stack: nat, gen: nat, handle: nat)

  datatype Shared = Shared(
    enabled: bool,            // hci_ingress_enabled_
    epoch: nat,               // hci_ingress_epoch_
    stack: nat,               // stack_incarnation_
    gen: nat,                 // generation_
    id: nat,                  // hci_establishment_id_: NONE, RESERVED, or an id
    est: Record,              // hci_establishment_stack_, _generation_, _handle_
    owner: nat,               // hci_establishment_disconnect_owner_
    next: nat,                // next_hci_establishment_id_
    born: map<nat, Record>,   // aux: what each published id was published with
    signals: nat)             // aux: lifecycle hand-off failures reported

  // ---------------------------------------------------------------- the ingress task

  /** A controller event, as far as observe_hci_ingress tells them apart. */
  datatype HciEvent = Connected(handle: nat) | Disconnected | OtherEvent

  datatype IngressAt =
    | IngressIdle
    | LoadEpoch | LoadEnabled | CompareEpoch | Dispatch
    | LoadCurrent | SameStack | SameGeneration | SameHandle | LoadOwner
    | Allocate | Reserve | StillEnabled | StillEpoch | Unreserve
    | StoreStack | StoreGeneration | StoreHandle | StoreOwner | Publish
    | RecheckEnabled | RecheckEpoch | WithdrawId | WithdrawOwner
    | IngressDone

  datatype Outcome = NoOutcome | Ignored | Wakeup | Duplicate | Signalled | Recorded | Withdrawn

  datatype Ingress = Ingress(
    at: IngressAt, event: HciEvent, epoch: nat, current: nat, duplicate: bool, minted: nat, outcome: Outcome)

  function Finish(i: Ingress, outcome: Outcome): Ingress { i.(at := IngressDone, outcome := outcome) }

  function Signal(i: Ingress, sh: Shared): (Ingress, Shared) {
    (Finish(i, Signalled), sh.(signals := sh.signals + 1))
  }

  /** The decision once current_id, the duplicate check and the owner are known. */
  function Decide(i: Ingress, sh: Shared, replacing: bool): (Ingress, Shared) {
    if i.duplicate && !replacing then (Finish(i, Duplicate), sh)
    else if !replacing then Signal(i, sh)
    else (i.(at := Allocate), sh)
  }

  function EntryStep(i: Ingress, sh: Shared, event: HciEvent): (Ingress, Shared) {
    match i.at
    case IngressIdle => (i.(at := LoadEpoch, event := event, duplicate := false, outcome := NoOutcome), sh)
    case LoadEpoch => (i.(at := LoadEnabled, epoch := sh.epoch), sh)
    case LoadEnabled => (if sh.enabled then i.(at := CompareEpoch) else Finish(i, Ignored), sh)
    case CompareEpoch => (if sh.epoch == i.epoch then i.(at := Dispatch) else Finish(i, Ignored), sh)
    case Dispatch =>
      (match i.event
       case Connected(_) => i.(at := LoadCurrent)
       case Disconnected => Finish(i, if sh.id != NONE && sh.id != RESERVED then Wakeup else Ignored)
       case OtherEvent => Finish(i, Ignored), sh)
    case LoadCurrent =>
      if sh.id == NONE then (i.(at := Allocate, current := NONE), sh)
      else if sh.id == RESERVED then Decide(i.(current := sh.id), sh, false)
      else (i.(at := SameStack, current := sh.id), sh)
    case SameStack => (i.(at := if sh.est.stack == sh.stack then SameGeneration else LoadOwner), sh)
    case SameGeneration => (i.(at := if sh.est.gen == sh.gen then SameHandle else LoadOwner), sh)
    case SameHandle =>
      (i.(at := LoadOwner, duplicate := i.event.Connected? && sh.est.handle == i.event.handle), sh)
    case LoadOwner => Decide(i, sh, sh.owner == i.current)
    case _ => (i, sh)
  }

  function RecordStep(i: Ingress, sh: Shared): (Ingress, Shared) {
    match i.at
    case Allocate =>
      if sh.next == 0 || sh.next == RESERVED then Signal(i, sh)
      else (i.(at := Reserve, minted := sh.next), sh.(next := sh.next + 1))
    case Reserve =>
      if sh.id == i.current then (i.(at := StillEnabled), sh.(id := RESERVED)) else Signal(i, sh)
    case StillEnabled => (i.(at := if sh.enabled then StillEpoch else Unreserve), sh)
    case StillEpoch => (i.(at := if sh.epoch == i.epoch then StoreStack else Unreserve), sh)
    case Unreserve => (Finish(i, Withdrawn), if sh.id == RESERVED then sh.(id := NONE) else sh)
    case StoreStack => (i.(at := StoreGeneration), sh.(est := sh.est.(stack := sh.stack)))
    case StoreGeneration => (i.(at := StoreHandle), sh.(est := sh.est.(gen := sh.gen)))
    case StoreHandle =>
      (i.(at := StoreOwner), if i.event.Connected? then sh.(est := sh.est.(handle := i.event.handle)) else sh)
    case StoreOwner => (i.(at := Publish), sh.(owner := NONE))
    case Publish => (i.(at := RecheckEnabled), sh.(id := i.minted, born := sh.born[i.minted := sh.est]))
    case RecheckEnabled => (i.(at := if sh.enabled then RecheckEpoch else WithdrawId), sh)
    case RecheckEpoch => (if sh.epoch == i.epoch then Finish(i, Recorded) else i.(at := WithdrawId), sh)
    case WithdrawId =>
      if sh.id == i.minted then (i.(at := WithdrawOwner), sh.(id := NONE)) else (Finish(i, Withdrawn), sh)
    case WithdrawOwner => (Finish(i, Withdrawn), if sh.owner == i.minted then sh.(owner := NONE) else sh)
    case IngressDone => (i.(at := IngressIdle), sh)
    case _ => (i, sh)
  }

  predicate Entering(at: IngressAt) {
    at.IngressIdle? || at.LoadEpoch? || at.LoadEnabled? || at.CompareEpoch? || at.Dispatch? || at.LoadCurrent?
    || at.SameStack? || at.SameGeneration? || at.SameHandle? || at.LoadOwner?
  }

  function IngressStep(i: Ingress, sh: Shared, event: HciEvent): (Ingress, Shared) {
    if Entering(i.at) then EntryStep(i, sh, event) else RecordStep(i, sh)
  }

  // ---------------------------------------------------------------- the resolver

  datatype ProbeResult = ProbeAbsent | ProbeSent | ProbeError

  datatype ResolverAt =
    | ResolverIdle
    | ReadStack | ReadGeneration | ReadHandle | Current
    | OwnsId | OwnsStack | OwnsGeneration | OwnsHandle
    | LookUp | ClaimProbe | Probe
    | StillOwnsId | StillOwnsStack | StillOwnsGeneration | StillOwnsHandle | StillOwner
    | ResolveId | ResolveOwner

  datatype Resolver = Resolver(at: ResolverAt, id: nat, seen: Record, registered: bool)

  function GiveUp(r: Resolver, sh: Shared): (Resolver, Shared) {
    (r.(at := ResolverIdle), sh.(signals := sh.signals + 1))
  }

  /** `registered` and `hidden` are what the host and the executor say, `probe` what the controller answers. */
  datatype Answers = Answers(registered: bool, hidden: bool, probe: ProbeResult)

  function ReadStep(r: Resolver, sh: Shared): (Resolver, Shared) {
    match r.at
    case ResolverIdle =>
      if sh.id == NONE || sh.id == RESERVED then (r, sh)
      else (r.(at := ReadStack, id := sh.id, registered := false), sh)
    case ReadStack => (r.(at := ReadGeneration, seen := r.seen.(stack := sh.est.stack)), sh)
    case ReadGeneration => (r.(at := ReadHandle, seen := r.seen.(gen := sh.est.gen)), sh)
    case ReadHandle => (r.(at := Current, seen := r.seen.(handle := sh.est.handle)), sh)
    case Current =>
      if r.seen.stack != sh.stack || r.seen.gen != sh.gen then GiveUp(r, sh) else (r.(at := OwnsId), sh)
    case OwnsId => if sh.id == r.id then (r.(at := OwnsStack), sh) else GiveUp(r, sh)
    case OwnsStack => if sh.est.stack == r.seen.stack then (r.(at := OwnsGeneration), sh) else GiveUp(r, sh)
    case OwnsGeneration => if sh.est.gen == r.seen.gen then (r.(at := OwnsHandle), sh) else GiveUp(r, sh)
    case OwnsHandle => if sh.est.handle == r.seen.handle then (r.(at := LookUp), sh) else GiveUp(r, sh)
    case _ => (r, sh)
  }

  function ProbeStep(r: Resolver, sh: Shared, answers: Answers): (Resolver, Shared) {
    match r.at
    case LookUp =>
      (if answers.registered then r.(at := ResolveId, registered := true) else r.(at := ClaimProbe), sh)
    case ClaimProbe =>
      if sh.owner == NONE then (r.(at := Probe), sh.(owner := r.id))
      else if sh.owner == r.id then (r.(at := Probe), sh)
      else GiveUp(r, sh)
    case Probe =>
      (match answers.probe
       case ProbeAbsent => (r.(at := StillOwnsId), sh)
       case ProbeError => GiveUp(r, sh)
       case ProbeSent => if answers.hidden then (r.(at := ResolverIdle), sh) else GiveUp(r, sh))
    case StillOwnsId => (r.(at := if sh.id == r.id then StillOwnsStack else ResolverIdle), sh)
    case StillOwnsStack => (r.(at := if sh.est.stack == r.seen.stack then StillOwnsGeneration else ResolverIdle), sh)
    case StillOwnsGeneration => (r.(at := if sh.est.gen == r.seen.gen then StillOwnsHandle else ResolverIdle), sh)
    case StillOwnsHandle => (r.(at := if sh.est.handle == r.seen.handle then StillOwner else ResolverIdle), sh)
    case StillOwner => (r.(at := if sh.owner == r.id then ResolveId else ResolverIdle), sh)
    case ResolveId =>
      if sh.id == r.id then (r.(at := ResolveOwner), sh.(id := NONE)) else (r.(at := ResolverIdle), sh)
    case ResolveOwner => (r.(at := ResolverIdle), if sh.owner == r.id then sh.(owner := NONE) else sh)
    case _ => (r, sh)
  }

  predicate Reading(at: ResolverAt) {
    at.ResolverIdle? || at.ReadStack? || at.ReadGeneration? || at.ReadHandle? || at.Current?
    || at.OwnsId? || at.OwnsStack? || at.OwnsGeneration? || at.OwnsHandle?
  }

  function ResolverStep(r: Resolver, sh: Shared, answers: Answers): (Resolver, Shared) {
    if Reading(r.at) then ReadStep(r, sh) else ProbeStep(r, sh, answers)
  }

  // ---------------------------------------------------------------- the lifecycle's tasks

  datatype ManagerAt =
    | ManagerIdle
    | StopCheck | Fence | NextEpoch | StopRecheck
    | ClearId | ClearOwner | ClearStack | ClearGeneration | ClearHandle
    | Reopen

  /** `retiring` tells a retirement from a begin_stop; `reopen` says whether ingress is enabled afterwards. */
  datatype Manager = Manager(at: ManagerAt, retiring: bool, reopen: bool)

  /**
   What an idle task turns to: retire_hci_establishment, reopened by initialisation and by a
   reset outside a stop; begin_stop, refused or not; another stack; another generation.
   */
  datatype Order = Retire(reopen: bool) | BeginStop(refused: bool) | SetStack(stack: nat) | SetGeneration(gen: nat)

  function ManagerStep(m: Manager, sh: Shared, order: Order): (Manager, Shared) {
    match m.at
    case ManagerIdle =>
      (match order
       case Retire(reopen) => (Manager(Fence, true, reopen), sh)
       case BeginStop(refused) => (Manager(StopCheck, false, refused), sh)
       case SetStack(stack) => (m, sh.(stack := stack))
       case SetGeneration(gen) => (m, sh.(gen := gen)))
    case StopCheck => (m.(at := if sh.id != NONE then ManagerIdle else Fence), sh)
    case Fence => (m.(at := NextEpoch), sh.(enabled := false))
    case NextEpoch => (m.(at := if m.retiring then ClearId else StopRecheck), sh.(epoch := sh.epoch + 1))
    case StopRecheck => (m.(at := if sh.id != NONE || m.reopen then Reopen else ManagerIdle), sh)
    case ClearId => (m.(at := ClearOwner), sh.(id := NONE))
    case ClearOwner => (m.(at := ClearStack), sh.(owner := NONE))
    case ClearStack => (m.(at := ClearGeneration), sh.(est := sh.est.(stack := 0)))
    case ClearGeneration => (m.(at := ClearHandle), sh.(est := sh.est.(gen := 0)))
    case ClearHandle =>
      (m.(at := if m.reopen then Reopen else ManagerIdle), sh.(est := sh.est.(handle := NO_CONNECTION)))
    case Reopen => (m.(at := ManagerIdle), sh.(enabled := true))
  }

  // ---------------------------------------------------------------- runs

  /** The ingress task, the resolver, the lifecycle's worker and the host's reset callback. */
  datatype World = World(i: Ingress, r: Resolver, worker: Manager, reset: Manager, sh: Shared)

  datatype Event =
    | IngressMoves(event: HciEvent)
    | ResolverMoves(answers: Answers)
    | WorkerMoves(order: Order)
    | ResetMoves(order: Order)

  const NoRecord: Record := Record(0, 0, NO_CONNECTION)

  const InitWorld: World := World(
    Ingress(IngressIdle, OtherEvent, 0, NONE, false, 0, NoOutcome),
    Resolver(ResolverIdle, NONE, NoRecord, false),
    Manager(ManagerIdle, false, false), Manager(ManagerIdle, false, false),
    Shared(false, 0, 0, 0, NONE, NoRecord, NONE, 1, map[], 0))

  function Next(w: World, e: Event): World {
    match e
    case IngressMoves(event) => var (i, sh) := IngressStep(w.i, w.sh, event); w.(i := i, sh := sh)
    case ResolverMoves(answers) => var (r, sh) := ResolverStep(w.r, w.sh, answers); w.(r := r, sh := sh)
    case WorkerMoves(order) => var (m, sh) := ManagerStep(w.worker, w.sh, order); w.(worker := m, sh := sh)
    case ResetMoves(order) => var (m, sh) := ManagerStep(w.reset, w.sh, order); w.(reset := m, sh := sh)
  }

  predicate IsRun(run: seq<World>, events: seq<Event>) {
    && |run| == |events| + 1 && run[0] == InitWorld
    && forall k :: 0 <= k < |events| ==> run[k + 1] == Next(run[k], events[k])
  }
}
