/**
 Why the resolver clears an establishment, in every run, and what each task does on its own: the
 resolver for each answer of the controller, the ingress task for each state of the record, and
 the lifecycle for a retirement and a stop.
 */
module HciProgress {
  import opened HciEstablishment
  import opened HciSafety

  // ---------------------------------------------------------------- why an establishment is cleared

  /** The resolver's step from run[k] finds the handle registered, or its probe finds it unknown. */
  ghost predicate FindsReason(run: seq<World>, events: seq<Event>, k: nat) {
    && k < |events| && k < |run| && events[k].ResolverMoves?
    && ((run[k].r.at.LookUp? && events[k].answers.registered)
        || (run[k].r.at.Probe? && events[k].answers.probe.ProbeAbsent?))
  }

  predicate Convinced(at: ResolverAt) {
    at.StillOwnsId? || at.StillOwnsStack? || at.StillOwnsGeneration? || at.StillOwnsHandle? || at.StillOwner?
    || at.ResolveId? || at.ResolveOwner?
  }

  lemma ConvincedStep(w: World, e: Event)
    requires Convinced(Next(w, e).r.at) && !Convinced(w.r.at)
    ensures e.ResolverMoves?
    ensures (w.r.at.LookUp? && e.answers.registered) || (w.r.at.Probe? && e.answers.probe.ProbeAbsent?)
  {
  }

  lemma {:induction false} ConvincedBy(run: seq<World>, events: seq<Event>, i: nat, j: nat, k: nat) returns (m: nat)
    requires IsRun(run, events) && Resolves(run, events, i, j) && i < k <= j && Convinced(run[k].r.at)
    ensures i < m < k && FindsReason(run, events, m)
    decreases k
  {
    hide Next;
    if Convinced(run[k - 1].r.at) {
      m := ConvincedBy(run, events, i, j, k - 1);
    } else {
      ConvincedStep(run[k - 1], events[k - 1]);
      m := k - 1;
    }
  }

  lemma ClearingStep(w: World, e: Event)
    requires e.ResolverMoves? && Next(w, e).sh.id != w.sh.id
    ensures w.r.at.ResolveId?
  {
  }

  /**
   The resolver clears an establishment only if in the same call the host knew the connection, or
   the controller answered the probe that it does not.
   */
  lemma ClearedForAReason(run: seq<World>, events: seq<Event>, i: nat, j: nat) returns (m: nat)
    requires IsRun(run, events) && Resolves(run, events, i, j) && j < |events|
    requires events[j].ResolverMoves? && run[j + 1].sh.id != run[j].sh.id
    ensures i < m < j && FindsReason(run, events, m)
  {
    ClearingStep(run[j], events[j]);
    m := ConvincedBy(run, events, i, j, j);
  }

  // ---------------------------------------------------------------- the resolver alone

  ghost function Resolve(s: (Resolver, Shared), answers: Answers): (Resolver, Shared) {
    ResolverStep(s.0, s.1, answers)
  }

  ghost function Resolving(r: Resolver, sh: Shared, answers: Answers, k: nat): (Resolver, Shared) {
    if k == 0 then (r, sh) else Resolve(Resolving(r, sh, answers, k - 1), answers)
  }

  lemma {:induction false} ResolvingJoins(r: Resolver, sh: Shared, answers: Answers, a: nat, b: nat)
    ensures var s := Resolving(r, sh, answers, a); Resolving(s.0, s.1, answers, b) == Resolving(r, sh, answers, a + b)
  {
    hide ResolverStep;
    if b > 0 { ResolvingJoins(r, sh, answers, a, b - 1); }
  }

  lemma ResolvingSteps(r: Resolver, sh: Shared, answers: Answers)
    ensures Resolving(r, sh, answers, 1) == ResolverStep(r, sh, answers)
    ensures Resolving(r, sh, answers, 2) == Resolve(Resolving(r, sh, answers, 1), answers)
    ensures Resolving(r, sh, answers, 3) == Resolve(Resolving(r, sh, answers, 2), answers)
    ensures Resolving(r, sh, answers, 4) == Resolve(Resolving(r, sh, answers, 3), answers)
    ensures Resolving(r, sh, answers, 5) == Resolve(Resolving(r, sh, answers, 4), answers)
    ensures Resolving(r, sh, answers, 6) == Resolve(Resolving(r, sh, answers, 5), answers)
    ensures Resolving(r, sh, answers, 7) == Resolve(Resolving(r, sh, answers, 6), answers)
  {
  }

  lemma Reads(r: Resolver, sh: Shared, answers: Answers)
    requires r.at.ResolverIdle? && IsId(sh.id)
    ensures Resolving(r, sh, answers, 4) == (Resolver(Current, sh.id, sh.est, false), sh)
  {
    hide ProbeStep;
    ResolvingSteps(r, sh, answers);
  }

  lemma Verifies(r: Resolver, sh: Shared, answers: Answers)
    requires r.at.Current? && IsId(sh.id) && r.id == sh.id && r.seen == sh.est
    requires sh.est.stack == sh.stack && sh.est.gen == sh.gen
    ensures Resolving(r, sh, answers, 5) == (r.(at := LookUp), sh)
  {
    hide ProbeStep;
    ResolvingSteps(r, sh, answers);
  }

  lemma LooksUp(r: Resolver, sh: Shared, answers: Answers)
    requires r.at.ResolverIdle? && IsId(sh.id) && sh.est.stack == sh.stack && sh.est.gen == sh.gen
    ensures Resolving(r, sh, answers, 9) == (Resolver(LookUp, sh.id, sh.est, false), sh)
  {
    hide ResolverStep;
    Reads(r, sh, answers);
    var s := Resolving(r, sh, answers, 4);
    Verifies(s.0, s.1, answers);
    ResolvingJoins(r, sh, answers, 4, 5);
  }

  /** An establishment of another stack or generation is reported and kept. */
  lemma OutdatedIsReported(r: Resolver, sh: Shared, answers: Answers)
    requires r.at.ResolverIdle? && IsId(sh.id) && (sh.est.stack != sh.stack || sh.est.gen != sh.gen)
    ensures var (r', sh') := Resolving(r, sh, answers, 5);
      r'.at.ResolverIdle? && sh' == sh.(signals := sh.signals + 1)
  {
    hide ResolverStep;
    Reads(r, sh, answers);
    var s := Resolving(r, sh, answers, 4);
    GivesUp(s.0, s.1, answers);
    ResolvingJoins(r, sh, answers, 4, 1);
  }

  lemma GivesUp(r: Resolver, sh: Shared, answers: Answers)
    requires r.at.Current? && (r.seen.stack != sh.stack || r.seen.gen != sh.gen)
    ensures Resolving(r, sh, answers, 1) == (r.(at := ResolverIdle), sh.(signals := sh.signals + 1))
  {
    hide ProbeStep;
    ResolvingSteps(r, sh, answers);
  }

  lemma Clears(r: Resolver, sh: Shared, answers: Answers)
    requires r.at.ResolveId? && sh.id == r.id
    ensures var (r', sh') := Resolving(r, sh, answers, 2);
      r'.at.ResolverIdle? && sh' == sh.(id := NONE, owner := if sh.owner == r.id then NONE else sh.owner)
  {
    hide ReadStep;
    ResolvingSteps(r, sh, answers);
  }

  lemma FindsRegistered(r: Resolver, sh: Shared, answers: Answers)
    requires r.at.LookUp? && answers.registered
    ensures Resolving(r, sh, answers, 1) == (r.(at := ResolveId, registered := true), sh)
  {
    hide ReadStep;
    ResolvingSteps(r, sh, answers);
  }

  /** A connection that the host knows is cleared, and nothing is reported. */
  lemma RegisteredIsCleared(r: Resolver, sh: Shared, answers: Answers)
    requires r.at.ResolverIdle? && IsId(sh.id) && sh.est.stack == sh.stack && sh.est.gen == sh.gen
    requires answers.registered
    ensures var (r', sh') := Resolving(r, sh, answers, 12);
      r'.at.ResolverIdle? && sh' == sh.(id := NONE, owner := if sh.owner == sh.id then NONE else sh.owner)
  {
    hide ResolverStep;
    LooksUp(r, sh, answers);
    var s := Resolving(r, sh, answers, 9);
    FindsRegistered(s.0, s.1, answers);
    ResolvingJoins(r, sh, answers, 9, 1);
    var q := Resolving(r, sh, answers, 10);
    Clears(q.0, q.1, answers);
    ResolvingJoins(r, sh, answers, 10, 2);
  }

  lemma ClaimsProbe(r: Resolver, sh: Shared, answers: Answers)
    requires r.at.LookUp? && !answers.registered && (sh.owner == NONE || sh.owner == r.id)
    ensures Resolving(r, sh, answers, 2) == (r.(at := Probe), sh.(owner := r.id))
  {
    hide ReadStep;
    ResolvingSteps(r, sh, answers);
  }

  lemma ReachesProbe(r: Resolver, sh: Shared, answers: Answers)
    requires r.at.ResolverIdle? && IsId(sh.id) && sh.est.stack == sh.stack && sh.est.gen == sh.gen
    requires !answers.registered && (sh.owner == NONE || sh.owner == sh.id)
    ensures Resolving(r, sh, answers, 11) == (Resolver(Probe, sh.id, sh.est, false), sh.(owner := sh.id))
  {
    hide ResolverStep;
    LooksUp(r, sh, answers);
    var s := Resolving(r, sh, answers, 9);
    ClaimsProbe(s.0, s.1, answers);
    ResolvingJoins(r, sh, answers, 9, 2);
  }

  lemma VerifiesAgain(r: Resolver, sh: Shared, answers: Answers)
    requires r.at.Probe? && answers.probe.ProbeAbsent?
    requires sh.id == r.id && sh.est == r.seen && sh.owner == r.id
    ensures Resolving(r, sh, answers, 6) == (r.(at := ResolveId), sh)
  {
    hide ReadStep;
    ResolvingSteps(r, sh, answers);
  }

  /** One that the controller does not know is cleared, with the claim of its probe, and nothing is reported. */
  lemma AbsentIsCleared(r: Resolver, sh: Shared, answers: Answers)
    requires r.at.ResolverIdle? && IsId(sh.id) && sh.est.stack == sh.stack && sh.est.gen == sh.gen
    requires !answers.registered && (sh.owner == NONE || sh.owner == sh.id) && answers.probe.ProbeAbsent?
    ensures var (r', sh') := Resolving(r, sh, answers, 19);
      r'.at.ResolverIdle? && sh' == sh.(id := NONE, owner := NONE)
  {
    hide ResolverStep;
    ReachesProbe(r, sh, answers);
    var s := Resolving(r, sh, answers, 11);
    VerifiesAgain(s.0, s.1, answers);
    ResolvingJoins(r, sh, answers, 11, 6);
    var q := Resolving(r, sh, answers, 17);
    Clears(q.0, q.1, answers);
    ResolvingJoins(r, sh, answers, 17, 2);
  }

  lemma ProbeAnswered(r: Resolver, sh: Shared, answers: Answers)
    requires r.at.Probe? && !answers.probe.ProbeAbsent?
    ensures Resolving(r, sh, answers, 1) == (
              r.(at := ResolverIdle),
              if answers.probe.ProbeSent? && answers.hidden then sh else sh.(signals := sh.signals + 1))
  {
    hide ReadStep;
    ResolvingSteps(r, sh, answers);
  }

  /**
   One that the controller still has is kept, with the claim of its probe: silently if the
   disconnect was sent and the executor wants to be hidden, reported if not, or if the probe failed.
   */
  lemma OthersAreKept(r: Resolver, sh: Shared, answers: Answers)
    requires r.at.ResolverIdle? && IsId(sh.id) && sh.est.stack == sh.stack && sh.est.gen == sh.gen
    requires !answers.registered && (sh.owner == NONE || sh.owner == sh.id) && !answers.probe.ProbeAbsent?
    ensures var (r', sh') := Resolving(r, sh, answers, 12);
      && r'.at.ResolverIdle? && sh' == sh.(owner := sh.id, signals := sh'.signals)
      && sh'.signals == sh.signals + if answers.probe.ProbeSent? && answers.hidden then 0 else 1
  {
    hide ResolverStep;
    ReachesProbe(r, sh, answers);
    var s := Resolving(r, sh, answers, 11);
    ProbeAnswered(s.0, s.1, answers);
    ResolvingJoins(r, sh, answers, 11, 1);
  }

  /** An establishment whose probe another id has claimed is reported and kept. */
  lemma ForeignProbeIsReported(r: Resolver, sh: Shared, answers: Answers)
    requires r.at.LookUp? && !answers.registered && sh.owner != NONE && sh.owner != r.id
    ensures var (r', sh') := Resolving(r, sh, answers, 2); r'.at.ResolverIdle? && sh' == sh.(signals := sh.signals + 1)
  {
    hide ReadStep;
    ResolvingSteps(r, sh, answers);
  }

  // ---------------------------------------------------------------- the ingress task alone

  ghost function Observe(s: (Ingress, Shared), e: HciEvent): (Ingress, Shared) { IngressStep(s.0, s.1, e) }

  ghost function Observing(i: Ingress, sh: Shared, e: HciEvent, k: nat): (Ingress, Shared) {
    if k == 0 then (i, sh) else Observe(Observing(i, sh, e, k - 1), e)
  }

  lemma {:induction false} ObservingJoins(i: Ingress, sh: Shared, e: HciEvent, a: nat, b: nat)
    ensures var s := Observing(i, sh, e, a); Observing(s.0, s.1, e, b) == Observing(i, sh, e, a + b)
  {
    hide IngressStep;
    if b > 0 { ObservingJoins(i, sh, e, a, b - 1); }
  }

  lemma ObservingSteps(i: Ingress, sh: Shared, e: HciEvent)
    ensures Observing(i, sh, e, 1) == IngressStep(i, sh, e)
    ensures Observing(i, sh, e, 2) == Observe(Observing(i, sh, e, 1), e)
    ensures Observing(i, sh, e, 3) == Observe(Observing(i, sh, e, 2), e)
    ensures Observing(i, sh, e, 4) == Observe(Observing(i, sh, e, 3), e)
    ensures Observing(i, sh, e, 5) == Observe(Observing(i, sh, e, 4), e)
    ensures Observing(i, sh, e, 6) == Observe(Observing(i, sh, e, 5), e)
  {
  }

  /** With ingress closed every event is ignored. */
  lemma ClosedIsIgnored(i: Ingress, sh: Shared, e: HciEvent)
    requires i.at.IngressIdle? && !sh.enabled
    ensures var (i', sh') := Observing(i, sh, e, 3); i'.at.IngressDone? && i'.outcome.Ignored? && sh' == sh
  {
    hide RecordStep;
    ObservingSteps(i, sh, e);
  }

  /** A Disconnect Complete wakes the resolver exactly if there is something to resolve, and changes nothing. */
  lemma DisconnectWakes(i: Ingress, sh: Shared)
    requires i.at.IngressIdle? && sh.enabled
    ensures var (i', sh') := Observing(i, sh, Disconnected, 5);
      i'.at.IngressDone? && sh' == sh && i'.outcome == if IsId(sh.id) then Wakeup else Ignored
  {
    hide RecordStep;
    ObservingSteps(i, sh, Disconnected);
  }

  lemma Arrives(i: Ingress, sh: Shared, handle: nat)
    requires i.at.IngressIdle? && sh.enabled
    ensures var (i', sh') := Observing(i, sh, Connected(handle), 5);
      i'.at.LoadCurrent? && i'.event == Connected(handle) && i'.epoch == sh.epoch && !i'.duplicate && sh' == sh
  {
    hide RecordStep;
    ObservingSteps(i, sh, Connected(handle));
  }

  /** The same connection again, which nobody probes. */
  ghost predicate Known(sh: Shared, handle: nat) { sh.est == Record(sh.stack, sh.gen, handle) }

  lemma Examines(i: Ingress, sh: Shared, handle: nat) returns (k: nat)
    requires i.at.LoadCurrent? && i.event == Connected(handle) && !i.duplicate && sh.id != RESERVED
    ensures var (i', sh') := Observing(i, sh, Connected(handle), k);
      && i'.event == i.event && i'.epoch == i.epoch
      && (if sh.id == NONE || sh.owner == sh.id then i'.at.Allocate? && i'.current == sh.id && sh' == sh
          else if Known(sh, handle) then i'.at.IngressDone? && i'.outcome.Duplicate? && sh' == sh
          else i'.at.IngressDone? && i'.outcome.Signalled? && sh' == sh.(signals := sh.signals + 1))
  {
    hide RecordStep;
    ObservingSteps(i, sh, Connected(handle));
    k := if sh.id == NONE then 1 else if sh.est.stack != sh.stack then 3 else if sh.est.gen != sh.gen then 4 else 5;
  }

  lemma Reserves(i: Ingress, sh: Shared, handle: nat)
    requires i.at.Allocate? && i.event == Connected(handle) && sh.enabled && i.epoch == sh.epoch && i.current == sh.id
    requires sh.next != 0 && sh.next != RESERVED
    ensures Observing(i, sh, Connected(handle), 4)
            == (i.(at := StoreStack, minted := sh.next), sh.(next := sh.next + 1, id := RESERVED))
  {
    hide EntryStep;
    ObservingSteps(i, sh, Connected(handle));
  }

  lemma Stores(i: Ingress, sh: Shared, handle: nat)
    requires i.at.StoreStack? && i.event == Connected(handle)
    ensures Observing(i, sh, Connected(handle), 4)
            == (i.(at := Publish), sh.(est := Record(sh.stack, sh.gen, handle), owner := NONE))
  {
    hide EntryStep;
    ObservingSteps(i, sh, Connected(handle));
  }

  lemma Publishes(i: Ingress, sh: Shared, handle: nat)
    requires i.at.Publish? && i.event == Connected(handle) && sh.enabled && i.epoch == sh.epoch
    ensures var (i', sh') := Observing(i, sh, Connected(handle), 3);
      && i'.at.IngressDone? && i'.outcome.Recorded?
      && sh' == sh.(id := i.minted, born := sh.born[i.minted := sh.est])
  {
    hide EntryStep;
    ObservingSteps(i, sh, Connected(handle));
  }

  lemma Records(i: Ingress, sh: Shared, handle: nat)
    requires i.at.Allocate? && i.event == Connected(handle) && sh.enabled && i.epoch == sh.epoch && i.current == sh.id
    requires sh.next != 0 && sh.next != RESERVED
    ensures var (i', sh') := Observing(i, sh, Connected(handle), 11);
      && i'.at.IngressDone? && i'.outcome.Recorded? && sh'.signals == sh.signals
      && sh'.id == sh.next && sh'.next == sh.next + 1 && sh'.owner == NONE
      && sh'.est == Record(sh.stack, sh.gen, handle)
  {
    hide IngressStep;
    var e := Connected(handle);
    Reserves(i, sh, handle);
    var s := Observing(i, sh, e, 4);
    Stores(s.0, s.1, handle);
    ObservingJoins(i, sh, e, 4, 4);
    var q := Observing(i, sh, e, 8);
    Publishes(q.0, q.1, handle);
    ObservingJoins(i, sh, e, 8, 3);
  }

  /**
   A Connection Complete on its own: recorded under the next id if nothing is recorded, or what is
   has been probed; a duplicate if it is what is recorded; else reported.
   */
  lemma ConnectsAlone(i: Ingress, sh: Shared, handle: nat) returns (k: nat)
    requires i.at.IngressIdle? && sh.enabled && sh.id != RESERVED && sh.next != 0 && sh.next != RESERVED
    ensures var (i', sh') := Observing(i, sh, Connected(handle), k);
      && i'.at.IngressDone?
      && (if sh.id == NONE || sh.owner == sh.id then
            && i'.outcome.Recorded? && sh'.signals == sh.signals
            && sh'.id == sh.next && sh'.next == sh.next + 1 && sh'.owner == NONE
            && sh'.est == Record(sh.stack, sh.gen, handle)
          else if Known(sh, handle) then i'.outcome.Duplicate? && sh' == sh
          else i'.outcome.Signalled? && sh' == sh.(signals := sh.signals + 1))
  {
    hide IngressStep;
    var e := Connected(handle);
    Arrives(i, sh, handle);
    var s := Observing(i, sh, e, 5);
    var m := Examines(s.0, s.1, handle);
    ObservingJoins(i, sh, e, 5, m);
    k := 5 + m;
    if sh.id == NONE || sh.owner == sh.id {
      var q := Observing(i, sh, e, k);
      Records(q.0, q.1, handle);
      ObservingJoins(i, sh, e, k, 11);
      k := k + 11;
    }
  }

  // ---------------------------------------------------------------- the lifecycle alone

  ghost function Manage(s: (Manager, Shared), order: Order): (Manager, Shared) { ManagerStep(s.0, s.1, order) }

  ghost function Managing(m: Manager, sh: Shared, order: Order, k: nat): (Manager, Shared) {
    if k == 0 then (m, sh) else Manage(Managing(m, sh, order, k - 1), order)
  }

  lemma {:induction false} ManagingJoins(m: Manager, sh: Shared, order: Order, a: nat, b: nat)
    ensures var s := Managing(m, sh, order, a); Managing(s.0, s.1, order, b) == Managing(m, sh, order, a + b)
  {
    hide ManagerStep;
    if b > 0 { ManagingJoins(m, sh, order, a, b - 1); }
  }

  lemma ManagingSteps(m: Manager, sh: Shared, order: Order)
    ensures Managing(m, sh, order, 1) == ManagerStep(m, sh, order)
    ensures Managing(m, sh, order, 2) == Manage(Managing(m, sh, order, 1), order)
    ensures Managing(m, sh, order, 3) == Manage(Managing(m, sh, order, 2), order)
    ensures Managing(m, sh, order, 4) == Manage(Managing(m, sh, order, 3), order)
    ensures Managing(m, sh, order, 5) == Manage(Managing(m, sh, order, 4), order)
    ensures Managing(m, sh, order, 6) == Manage(Managing(m, sh, order, 5), order)
  {
  }

  lemma Fences(m: Manager, sh: Shared, reopen: bool)
    requires m.at.ManagerIdle?
    ensures Managing(m, sh, Retire(reopen), 4)
            == (Manager(ClearOwner, true, reopen), sh.(enabled := false, epoch := sh.epoch + 1, id := NONE))
  {
    ManagingSteps(m, sh, Retire(reopen));
  }

  lemma ClearsRecord(m: Manager, sh: Shared, order: Order)
    requires m.at.ClearOwner?
    ensures Managing(m, sh, order, if m.reopen then 5 else 4)
            == (m.(at := ManagerIdle), sh.(owner := NONE, est := NoRecord, enabled := m.reopen || sh.enabled))
  {
    ManagingSteps(m, sh, order);
  }

  /** A retirement clears the record under a new epoch; ingress is open afterwards if it is to be reopened. */
  lemma RetiresAlone(m: Manager, sh: Shared, reopen: bool)
    requires m.at.ManagerIdle?
    ensures var (m', sh') := Managing(m, sh, Retire(reopen), if reopen then 9 else 8);
      && m'.at.ManagerIdle?
      && sh' == sh.(enabled := reopen, epoch := sh.epoch + 1, id := NONE, owner := NONE, est := NoRecord)
  {
    hide ManagerStep;
    Fences(m, sh, reopen);
    var s := Managing(m, sh, Retire(reopen), 4);
    ClearsRecord(s.0, s.1, Retire(reopen));
    ManagingJoins(m, sh, Retire(reopen), 4, if reopen then 5 else 4);
  }

  /** begin_stop closes ingress under a new epoch exactly if nothing is recorded and it is not refused. */
  lemma StopsAlone(m: Manager, sh: Shared, refused: bool) returns (k: nat)
    requires m.at.ManagerIdle?
    ensures var (m', sh') := Managing(m, sh, BeginStop(refused), k);
      && m'.at.ManagerIdle?
      && sh' == (if sh.id != NONE then sh else sh.(enabled := refused, epoch := sh.epoch + 1))
  {
    ManagingSteps(m, sh, BeginStop(refused));
    k := if sh.id != NONE then 2 else if refused then 6 else 5;
  }
}
