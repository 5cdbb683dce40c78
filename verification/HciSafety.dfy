/**
 Over every run: an id is published once, and a probe only ever clears the establishment it was
 made for.
 */
module HciSafety {
  import opened HciEstablishment

  ghost predicate IsId(id: nat) { id != NONE && id != RESERVED }

  /** A field is what it was published with, or has been reset by the lifecycle task. */
  ghost predicate FieldsOf(est: Record, born: Record) {
    && (est.stack == born.stack || est.stack == 0)
    && (est.gen == born.gen || est.gen == 0)
    && (est.handle == born.handle || est.handle == NO_CONNECTION)
  }

  ghost predicate HasFresh(at: IngressAt) {
    at.Reserve? || at.StillEnabled? || at.StillEpoch? || at.Unreserve? || at.StoreStack? || at.StoreGeneration?
    || at.StoreHandle? || at.StoreOwner? || at.Publish?
  }

  /** The ingress task writes the fields only while nothing is recorded. */
  ghost predicate Writing(at: IngressAt) {
    at.StillEnabled? || at.StillEpoch? || at.Unreserve?
    || at.StoreStack? || at.StoreGeneration? || at.StoreHandle? || at.StoreOwner? || at.Publish?
  }

  ghost predicate HasPublished(at: IngressAt) {
    at.RecheckEnabled? || at.RecheckEpoch? || at.WithdrawId? || at.WithdrawOwner?
  }

  ghost predicate Examining(at: IngressAt) {
    at.SameStack? || at.SameGeneration? || at.SameHandle? || at.LoadOwner?
  }

  ghost predicate IngressOk(i: Ingress, sh: Shared) {
    && (HasFresh(i.at) ==> i.event.Connected? && 0 < i.minted < RESERVED && i.minted < sh.next && i.minted !in sh.born)
    && (Writing(i.at) ==> sh.id == RESERVED || sh.id == NONE)
    && (!Writing(i.at) ==> sh.id != RESERVED)
    && (i.at.StoreOwner? || i.at.Publish? ==> HandleOf(sh.est.handle, Record(0, 0, i.event.handle)))
    && (HasPublished(i.at) ==> i.minted in sh.born && i.event.Connected?)
    && (Examining(i.at) || i.at.LoadCurrent? || i.at.Allocate? ==> i.event.Connected?)
    && (i.at.IngressDone? && i.outcome.Duplicate? ==> i.duplicate)
    && (i.at.Allocate? || i.at.Reserve? ==> i.current != RESERVED)
    && (Examining(i.at) ==> IsId(i.current))
  }

  ghost predicate Busy(at: ResolverAt) { !at.ResolverIdle? && !at.ResolveOwner? }

  ghost predicate HasHandle(at: ResolverAt) {
    Busy(at) && !at.ReadStack? && !at.ReadGeneration? && !at.ReadHandle?
  }

  ghost predicate Verified(at: ResolverAt) { HasHandle(at) && !at.Current? && !at.OwnsId? }

  ghost predicate ResolverOk(r: Resolver, sh: Shared) {
    && (Busy(r.at) ==> IsId(r.id) && r.id in sh.born)
    && (HasHandle(r.at) && sh.id == r.id ==> HandleOf(r.seen.handle, sh.born[r.id]))
    && (Verified(r.at) ==> HandleOf(r.seen.handle, sh.born[r.id]))
  }

  ghost predicate HandleOf(handle: nat, born: Record) { handle == born.handle || handle == NO_CONNECTION }

  ghost predicate SharedOk(sh: Shared) {
    && (forall id :: id in sh.born ==> 0 < id < RESERVED && id < sh.next)
    && sh.next <= RESERVED && sh.next > 0
    && (IsId(sh.id) ==> sh.id in sh.born && FieldsOf(sh.est, sh.born[sh.id]))
  }

  ghost predicate Inv(w: World) { SharedOk(w.sh) && IngressOk(w.i, w.sh) && ResolverOk(w.r, w.sh) }

  lemma EntryKept(w: World, event: HciEvent)
    requires Inv(w) && Entering(w.i.at)
    ensures var (i, sh) := EntryStep(w.i, w.sh, event); Inv(w.(i := i, sh := sh))
  {
    hide HandleOf, FieldsOf;
  }

  lemma StoreKept(w: World)
    requires Inv(w) && (w.i.at.StoreStack? || w.i.at.StoreGeneration? || w.i.at.StoreHandle? || w.i.at.StoreOwner?)
    ensures var (i, sh) := RecordStep(w.i, w.sh); Inv(w.(i := i, sh := sh))
  {
  }

  lemma RecordKept(w: World)
    requires Inv(w) && !Entering(w.i.at) && !w.i.at.Publish?
    requires !w.i.at.StoreStack? && !w.i.at.StoreGeneration? && !w.i.at.StoreHandle? && !w.i.at.StoreOwner?
    ensures var (i, sh) := RecordStep(w.i, w.sh); Inv(w.(i := i, sh := sh))
  {
    hide HandleOf, FieldsOf;
  }

  lemma PublishKept(w: World)
    requires Inv(w) && w.i.at.Publish?
    ensures var (i, sh) := RecordStep(w.i, w.sh); Inv(w.(i := i, sh := sh))
  {
    hide HandleOf;
  }

  lemma IngressKept(w: World, event: HciEvent)
    requires Inv(w)
    ensures var (i, sh) := IngressStep(w.i, w.sh, event); Inv(w.(i := i, sh := sh))
  {
    hide Inv, EntryStep, RecordStep;
    if Entering(w.i.at) {
      EntryKept(w, event);
    } else if w.i.at.Publish? {
      PublishKept(w);
    } else if w.i.at.StoreStack? || w.i.at.StoreGeneration? || w.i.at.StoreHandle? || w.i.at.StoreOwner? {
      StoreKept(w);
    } else {
      RecordKept(w);
    }
  }

  lemma ReadKept(w: World)
    requires Inv(w) && Reading(w.r.at)
    ensures var (r, sh) := ReadStep(w.r, w.sh); Inv(w.(r := r, sh := sh))
  {
  }

  lemma ProbeKept(w: World, answers: Answers)
    requires Inv(w) && !Reading(w.r.at)
    ensures var (r, sh) := ProbeStep(w.r, w.sh, answers); Inv(w.(r := r, sh := sh))
  {
    hide HandleOf, FieldsOf;
  }

  lemma ResolverKept(w: World, answers: Answers)
    requires Inv(w)
    ensures var (r, sh) := ResolverStep(w.r, w.sh, answers); Inv(w.(r := r, sh := sh))
  {
    hide Inv, ReadStep, ProbeStep;
    if Reading(w.r.at) { ReadKept(w); } else { ProbeKept(w, answers); }
  }

  /** Inv holds of the record, whatever the managers are at. */
  lemma ManagerKept(w: World, m: Manager, order: Order)
    requires Inv(w)
    ensures Inv(w.(sh := ManagerStep(m, w.sh, order).1))
  {
  }

  lemma {:induction false} RunInv(run: seq<World>, events: seq<Event>, k: nat)
    requires IsRun(run, events) && k < |run|
    ensures Inv(run[k])
  {
    if k > 0 {
      RunInv(run, events, k - 1);
      var w, e := run[k - 1], events[k - 1];
      hide IngressStep, ResolverStep, ManagerStep, SharedOk, IngressOk, ResolverOk;
      match e
      case IngressMoves(event) => IngressKept(w, event);
      case ResolverMoves(answers) => ResolverKept(w, answers);
      case WorkerMoves(order) => ManagerKept(w, w.worker, order);
      case ResetMoves(order) => ManagerKept(w, w.reset, order);
    }
  }

  /** A published id that is not current never becomes current again. */
  lemma IdNeverReturns(w: World, e: Event, id: nat)
    requires Inv(w) && id in w.sh.born && w.sh.id != id
    ensures id in Next(w, e).sh.born && Next(w, e).sh.id != id && Next(w, e).sh.born[id] == w.sh.born[id]
  {
    hide IngressStep, ResolverStep, ManagerStep, ResolverOk;
    match e
    case IngressMoves(event) => IngressIds(w, event, id);
    case ResolverMoves(answers) => OnlyIngressPublishes(w, answers);
    case WorkerMoves(order) => ManagersOnlyClear(w.worker, w.sh, order);
    case ResetMoves(order) => ManagersOnlyClear(w.reset, w.sh, order);
  }

  lemma IngressIds(w: World, event: HciEvent, id: nat)
    requires SharedOk(w.sh) && IngressOk(w.i, w.sh) && id in w.sh.born && w.sh.id != id
    ensures var sh := IngressStep(w.i, w.sh, event).1; id in sh.born && sh.id != id && sh.born[id] == w.sh.born[id]
  {
    hide FieldsOf, HandleOf;
  }

  lemma OnlyIngressPublishes(w: World, answers: Answers)
    ensures var sh := ResolverStep(w.r, w.sh, answers).1; sh.born == w.sh.born && (sh.id == w.sh.id || sh.id == NONE)
  {
  }

  lemma ManagersOnlyClear(m: Manager, sh: Shared, order: Order)
    ensures var sh' := ManagerStep(m, sh, order).1; sh'.born == sh.born && (sh'.id == sh.id || sh'.id == NONE)
  {
  }

  /** An id is current for one stretch of the run. */
  lemma {:induction false} CurrentForOneStretch(run: seq<World>, events: seq<Event>, i: nat, k: nat, j: nat, id: nat)
    requires IsRun(run, events) && i <= k <= j < |run| && IsId(id)
    requires run[i].sh.id == id && run[j].sh.id == id
    ensures run[k].sh.id == id
    decreases j - k
  {
    if run[k].sh.id != id {
      Published(run, events, i, k, id);
      NeverReturns(run, events, k, j, id);
    }
  }

  lemma PublishedStays(w: World, e: Event, id: nat)
    requires id in w.sh.born
    ensures id in Next(w, e).sh.born
  {
  }

  lemma {:induction false} Published(run: seq<World>, events: seq<Event>, i: nat, k: nat, id: nat)
    requires IsRun(run, events) && i <= k < |run| && IsId(id) && run[i].sh.id == id
    ensures id in run[k].sh.born
    decreases k
  {
    hide Next;
    RunInv(run, events, i);
    if i < k {
      Published(run, events, i, k - 1, id);
      PublishedStays(run[k - 1], events[k - 1], id);
    }
  }

  lemma {:induction false} NeverReturns(run: seq<World>, events: seq<Event>, k: nat, j: nat, id: nat)
    requires IsRun(run, events) && k <= j < |run| && id in run[k].sh.born && run[k].sh.id != id
    ensures id in run[j].sh.born && run[j].sh.id != id
    decreases j
  {
    hide Next, Inv;
    if k < j {
      NeverReturns(run, events, k, j - 1, id);
      RunInv(run, events, j - 1);
      IdNeverReturns(run[j - 1], events[j - 1], id);
    }
  }

  // ---------------------------------------------------------------- the resolver

  /** The resolver works from its read at run[i] to run[j] without going idle. */
  ghost predicate Resolves(run: seq<World>, events: seq<Event>, i: nat, j: nat) {
    && |run| == |events| + 1 && i < j < |run|
    && events[i].ResolverMoves? && run[i].r.at.ResolverIdle?
    && (forall k :: i < k <= j ==> !run[k].r.at.ResolverIdle?)
  }

  lemma ResolverIdStep(w: World, e: Event)
    ensures var r := Next(w, e).r;
      && (!w.r.at.ResolverIdle? ==> r.id == w.r.id)
      && (w.r.at.ResolverIdle? && !r.at.ResolverIdle? ==> e.ResolverMoves? && r.id == w.sh.id && IsId(w.sh.id))
  {
  }

  lemma {:induction false} ResolverKeepsId(run: seq<World>, events: seq<Event>, i: nat, j: nat)
    requires IsRun(run, events) && Resolves(run, events, i, j)
    ensures run[j].r.id == run[i].sh.id && IsId(run[i].sh.id)
    decreases j
  {
    hide Next;
    ResolverIdStep(run[j - 1], events[j - 1]);
    if i + 1 < j { ResolverKeepsId(run, events, i, j - 1); }
  }

  /**
   When the resolver clears an establishment, it is the one it read at the start of its call,
   and that one was current at every moment since: during the lookup and the probe no successor
   was recorded, whatever handle it has.
   */
  lemma ClearsOnlyWhatItRead(run: seq<World>, events: seq<Event>, i: nat, j: nat, k: nat)
    requires IsRun(run, events) && Resolves(run, events, i, j) && j < |events| && i <= k <= j
    requires events[j].ResolverMoves? && run[j + 1].sh.id != run[j].sh.id
    ensures run[j].sh.id == run[i].sh.id && run[j + 1].sh.id == NONE
    ensures run[k].sh.id == run[i].sh.id
  {
    ResolverKeepsId(run, events, i, j);
    CurrentForOneStretch(run, events, i, k, j, run[i].sh.id);
  }

  /** The probe is made on the handle its establishment was published with (or on none, after a reset). */
  lemma ProbesItsOwnHandle(run: seq<World>, events: seq<Event>, i: nat, j: nat)
    requires IsRun(run, events) && Resolves(run, events, i, j) && run[j].r.at.Probe?
    ensures run[i].sh.id in run[j].sh.born
    ensures HandleOf(run[j].r.seen.handle, run[j].sh.born[run[i].sh.id])
  {
    ResolverKeepsId(run, events, i, j);
    RunInv(run, events, j);
  }
}
