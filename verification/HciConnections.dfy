/**
 Over every run: no Connection Complete is lost while ingress stays enabled in one epoch.  What is
 recorded is the connection's own handle under the current stack and generation, unless a
 retirement is still clearing the record; that takes two lifecycle tasks at once.
 */
module HciConnections {
  import opened HciEstablishment
  import opened HciSafety

  /** One Connection Complete on `handle`, from its arrival to its outcome. */
  ghost predicate Observes(run: seq<World>, events: seq<Event>, i: nat, j: nat, handle: nat) {
    && |run| == |events| + 1 && i < j < |run|
    && events[i] == IngressMoves(Connected(handle)) && run[i].i.at.IngressIdle?
    && (forall k :: i < k < j ==> !run[k].i.at.IngressDone?) && run[j].i.at.IngressDone?
  }

  ghost predicate SteadyIngress(run: seq<World>, i: nat, j: nat) {
    forall k :: i <= k <= j && k < |run| ==> run[k].sh.enabled && run[k].sh.epoch == run[i].sh.epoch
  }

  /** The observation is on its way, or over with one of the three outcomes. */
  ghost predicate OnItsWay(o: Ingress, epoch: nat) {
    && (o.at.LoadEpoch? || o.epoch == epoch)
    && !o.at.IngressIdle? && !o.at.Unreserve? && !o.at.WithdrawId? && !o.at.WithdrawOwner?
    && (o.at.IngressDone? ==> o.outcome.Recorded? || o.outcome.Duplicate? || o.outcome.Signalled?)
  }

  lemma SteadyStep(w: World, e: Event)
    requires OnItsWay(w.i, w.sh.epoch) && w.sh.enabled && w.i.event.Connected? && !w.i.at.IngressDone?
    ensures OnItsWay(Next(w, e).i, w.sh.epoch) && Next(w, e).i.event == w.i.event
  {
  }

  /** With ingress steady, the exits that give up silently are not taken. */
  lemma {:induction false} ObservationGoesOn(
    run: seq<World>, events: seq<Event>, i: nat, j: nat, k: nat, handle: nat)
    requires IsRun(run, events) && Observes(run, events, i, j, handle) && SteadyIngress(run, i, j) && i < k <= j
    ensures run[k].i.event == Connected(handle) && OnItsWay(run[k].i, run[i].sh.epoch)
    decreases k
  {
    hide Next;
    if i + 1 < k {
      ObservationGoesOn(run, events, i, j, k - 1, handle);
      SteadyStep(run[k - 1], events[k - 1]);
    } else {
      ExamineStep(run[i], events[i]);
    }
  }

  /** The step from run[p] publishes a new establishment. */
  ghost predicate Publishes(run: seq<World>, events: seq<Event>, p: nat) {
    && p < |events| && p + 1 < |run|
    && run[p].i.at.Publish? && events[p].IngressMoves?
    && run[p].i.minted !in run[p].sh.born
    && run[p + 1].sh.id == run[p].i.minted
    && run[p + 1].sh.born == run[p].sh.born[run[p].i.minted := run[p].sh.est]
  }

  /** Past its publication, or recorded. */
  ghost predicate PastPublication(i: Ingress) {
    i.at.RecheckEnabled? || i.at.RecheckEpoch? || (i.at.IngressDone? && i.outcome.Recorded?)
  }

  lemma PublishStep(w: World, e: Event)
    requires Inv(w)
    ensures var w' := Next(w, e);
      && (w.i.at.Publish? && e.IngressMoves? ==>
            && w.i.minted !in w.sh.born && w'.sh.id == w.i.minted
            && w'.sh.born == w.sh.born[w.i.minted := w.sh.est])
      && (PastPublication(w'.i) && !(w.i.at.Publish? && e.IngressMoves?) ==> PastPublication(w.i))
      && (w.i.at.IngressIdle? && PastPublication(w'.i) ==> false)
  {
  }

  /** An observation past its publication has published in this very call. */
  lemma {:induction false} RecordedMeansPublished(run: seq<World>, events: seq<Event>, i: nat, j: nat, k: nat,
                                                  handle: nat)
    returns (p: nat)
    requires IsRun(run, events) && Observes(run, events, i, j, handle) && i < k <= j
    requires PastPublication(run[k].i)
    ensures i < p < k && Publishes(run, events, p)
    decreases k
  {
    hide Next;
    RunInv(run, events, k - 1);
    PublishStep(run[k - 1], events[k - 1]);
    if run[k - 1].i.at.Publish? && events[k - 1].IngressMoves? {
      p := k - 1;
    } else {
      p := RecordedMeansPublished(run, events, i, j, k - 1, handle);
    }
  }

  /** The step from run[p] finds the recorded handle, generation or stack to be the current one. */
  ghost predicate FindsHandle(run: seq<World>, events: seq<Event>, p: nat, handle: nat) {
    p < |events| && p < |run| && events[p].IngressMoves?
    && run[p].i.at.SameHandle? && run[p].sh.est.handle == handle
  }

  ghost predicate FindsGeneration(run: seq<World>, events: seq<Event>, p: nat) {
    p < |events| && p < |run| && events[p].IngressMoves?
    && run[p].i.at.SameGeneration? && run[p].sh.est.gen == run[p].sh.gen
  }

  ghost predicate FindsStack(run: seq<World>, events: seq<Event>, p: nat) {
    p < |events| && p < |run| && events[p].IngressMoves?
    && run[p].i.at.SameStack? && run[p].sh.est.stack == run[p].sh.stack
  }

  lemma ExamineStep(w: World, e: Event)
    ensures var w' := Next(w, e);
      && (w'.i.duplicate && !w.i.duplicate ==>
            e.IngressMoves? && w.i.at.SameHandle? && w.i.event == Connected(w.sh.est.handle))
      && (w'.i.at.SameHandle? && !w.i.at.SameHandle? ==>
            e.IngressMoves? && w.i.at.SameGeneration? && w.sh.est.gen == w.sh.gen)
      && (w'.i.at.SameGeneration? && !w.i.at.SameGeneration? ==>
            e.IngressMoves? && w.i.at.SameStack? && w.sh.est.stack == w.sh.stack)
      && (w.i.at.IngressIdle? && e.IngressMoves? ==> !w'.i.duplicate && w'.i.at.LoadEpoch?)
      && (!w.i.at.IngressIdle? && !w.i.at.IngressDone? ==> !w'.i.at.IngressIdle?)
      && w'.i.event == if w.i.at.IngressIdle? && e.IngressMoves? then e.event else w.i.event
  {
  }

  /** An observation that calls its event a duplicate has found its handle recorded. */
  lemma {:induction false} DuplicateMeansSameHandle(
    run: seq<World>, events: seq<Event>, i: nat, j: nat, k: nat, handle: nat)
    returns (p: nat)
    requires IsRun(run, events) && Observes(run, events, i, j, handle) && i < k <= j
    requires run[k].i.event == Connected(handle) && run[k].i.duplicate
    ensures i < p < k && FindsHandle(run, events, p, handle)
    decreases k
  {
    hide Next;
    ExamineStep(run[k - 1], events[k - 1]);
    if run[k - 1].i.duplicate && i < k - 1 {
      BusyThroughout(run, events, i, j, k - 1, handle);
      p := DuplicateMeansSameHandle(run, events, i, j, k - 1, handle);
    } else {
      p := k - 1;
    }
  }

  lemma {:induction false} BusyThroughout(
    run: seq<World>, events: seq<Event>, i: nat, j: nat, k: nat, handle: nat)
    requires IsRun(run, events) && Observes(run, events, i, j, handle) && i < k <= j
    ensures !run[k].i.at.IngressIdle? && run[k].i.event == Connected(handle)
    decreases k
  {
    hide Next;
    ExamineStep(run[k - 1], events[k - 1]);
    if i + 1 < k { BusyThroughout(run, events, i, j, k - 1, handle); }
  }

  lemma {:induction false} SameHandleMeansSameGeneration(
    run: seq<World>, events: seq<Event>, i: nat, j: nat, k: nat, handle: nat)
    returns (p: nat)
    requires IsRun(run, events) && Observes(run, events, i, j, handle) && i < k <= j && run[k].i.at.SameHandle?
    ensures i < p < k && FindsGeneration(run, events, p)
    decreases k
  {
    hide Next;
    ExamineStep(run[k - 1], events[k - 1]);
    if run[k - 1].i.at.SameHandle? {
      p := SameHandleMeansSameGeneration(run, events, i, j, k - 1, handle);
    } else {
      p := k - 1;
    }
  }

  lemma {:induction false} SameGenerationMeansSameStack(
    run: seq<World>, events: seq<Event>, i: nat, j: nat, k: nat, handle: nat)
    returns (p: nat)
    requires IsRun(run, events) && Observes(run, events, i, j, handle) && i < k <= j && run[k].i.at.SameGeneration?
    ensures i < p < k && FindsStack(run, events, p)
    decreases k
  {
    hide Next;
    ExamineStep(run[k - 1], events[k - 1]);
    if run[k - 1].i.at.SameGeneration? {
      p := SameGenerationMeansSameStack(run, events, i, j, k - 1, handle);
    } else {
      p := k - 1;
    }
  }

  lemma EntrySignals(i: Ingress, sh: Shared, event: HciEvent)
    requires Entering(i.at)
    ensures var (i', sh') := EntryStep(i, sh, event);
      && sh.signals <= sh'.signals
      && (i'.outcome.Signalled? && !i.outcome.Signalled? ==> sh.signals < sh'.signals)
      && (i.at.IngressIdle? ==> !i'.outcome.Signalled?)
  {
  }

  lemma RecordSignals(i: Ingress, sh: Shared)
    ensures var (i', sh') := RecordStep(i, sh);
      && sh.signals <= sh'.signals
      && (i'.outcome.Signalled? && !i.outcome.Signalled? ==> sh.signals < sh'.signals)
  {
  }

  lemma ResolverSignals(r: Resolver, sh: Shared, answers: Answers)
    ensures sh.signals <= ResolverStep(r, sh, answers).1.signals
  {
  }

  lemma SignalStep(w: World, e: Event)
    ensures var w' := Next(w, e);
      && w.sh.signals <= w'.sh.signals
      && (w'.i.outcome.Signalled? && !w.i.outcome.Signalled? ==> w.sh.signals < w'.sh.signals)
      && (w.i.at.IngressIdle? && e.IngressMoves? ==> !w'.i.outcome.Signalled?)
  {
    hide EntryStep, RecordStep, ResolverStep;
    match e
    case IngressMoves(event) =>
      if Entering(w.i.at) { EntrySignals(w.i, w.sh, event); } else { RecordSignals(w.i, w.sh); }
    case ResolverMoves(answers) => ResolverSignals(w.r, w.sh, answers);
    case WorkerMoves(_) =>
    case ResetMoves(_) =>
  }

  lemma {:induction false} SignalsGrow(run: seq<World>, events: seq<Event>, i: nat, j: nat)
    requires IsRun(run, events) && i <= j < |run|
    ensures run[i].sh.signals <= run[j].sh.signals
    decreases j
  {
    hide Next;
    if i < j {
      SignalsGrow(run, events, i, j - 1);
      SignalStep(run[j - 1], events[j - 1]);
    }
  }

  lemma {:induction false} SignalledMeansReported(
    run: seq<World>, events: seq<Event>, i: nat, j: nat, k: nat, handle: nat)
    requires IsRun(run, events) && Observes(run, events, i, j, handle) && i < k <= j
    requires run[k].i.outcome.Signalled?
    ensures run[i].sh.signals < run[k].sh.signals
    decreases k
  {
    hide Next;
    SignalsGrow(run, events, i, k - 1);
    SignalStep(run[k - 1], events[k - 1]);
    if i + 1 < k && run[k - 1].i.outcome.Signalled? {
      SignalledMeansReported(run, events, i, j, k - 1, handle);
    }
  }

  // ---------------------------------------------------------------- what is recorded

  ghost predicate ClearsStack(w: World, e: Event) {
    (e.WorkerMoves? && w.worker.at.ClearStack?) || (e.ResetMoves? && w.reset.at.ClearStack?)
  }

  ghost predicate ClearsGeneration(w: World, e: Event) {
    (e.WorkerMoves? && w.worker.at.ClearGeneration?) || (e.ResetMoves? && w.reset.at.ClearGeneration?)
  }

  ghost predicate ClearsHandle(w: World, e: Event) {
    (e.WorkerMoves? && w.worker.at.ClearHandle?) || (e.ResetMoves? && w.reset.at.ClearHandle?)
  }

  /** A retirement clears that field between run[a] and run[p]. */
  ghost predicate StackCleared(run: seq<World>, events: seq<Event>, a: nat, p: nat) {
    exists q :: a <= q < p && q < |events| && q < |run| && ClearsStack(run[q], events[q])
  }

  ghost predicate GenerationCleared(run: seq<World>, events: seq<Event>, a: nat, p: nat) {
    exists q :: a <= q < p && q < |events| && q < |run| && ClearsGeneration(run[q], events[q])
  }

  ghost predicate HandleCleared(run: seq<World>, events: seq<Event>, a: nat, p: nat) {
    exists q :: a <= q < p && q < |events| && q < |run| && ClearsHandle(run[q], events[q])
  }

  /** Past the store of the stack, the generation, the handle. */
  predicate PastStack(at: IngressAt) { at.StoreGeneration? || PastGeneration(at) }

  predicate PastGeneration(at: IngressAt) { at.StoreHandle? || PastHandle(at) }

  predicate PastHandle(at: IngressAt) { at.StoreOwner? || at.Publish? }

  lemma EntryNotPast(i: Ingress, sh: Shared, event: HciEvent)
    requires Entering(i.at)
    ensures !PastStack(EntryStep(i, sh, event).0.at)
  {
  }

  lemma ManagerFillStep(m: Manager, sh: Shared, order: Order)
    ensures var est := ManagerStep(m, sh, order).1.est;
      && est.stack == (if m.at.ClearStack? then 0 else sh.est.stack)
      && est.gen == (if m.at.ClearGeneration? then 0 else sh.est.gen)
      && est.handle == (if m.at.ClearHandle? then NO_CONNECTION else sh.est.handle)
  {
  }

  lemma ResolverFillStep(r: Resolver, sh: Shared, answers: Answers)
    ensures ResolverStep(r, sh, answers).1.est == sh.est
  {
  }

  /** What one step does to the record of an observation that is filling it. */
  lemma FillStep(w: World, e: Event)
    requires PastStack(Next(w, e).i.at)
    ensures var w' := Next(w, e);
      && w'.i.event == w.i.event
      && w'.sh.est.stack ==
         (if e.IngressMoves? && w.i.at.StoreStack? then w.sh.stack
          else if ClearsStack(w, e) then 0 else w.sh.est.stack)
      && w'.sh.est.gen ==
         (if e.IngressMoves? && w.i.at.StoreGeneration? then w.sh.gen
          else if ClearsGeneration(w, e) then 0 else w.sh.est.gen)
      && w'.sh.est.handle ==
         (if e.IngressMoves? && w.i.at.StoreHandle? && w.i.event.Connected? then w.i.event.handle
          else if ClearsHandle(w, e) then NO_CONNECTION else w.sh.est.handle)
      && (PastStack(w.i.at) || (e.IngressMoves? && w.i.at.StoreStack?))
      && (PastGeneration(w'.i.at) ==> PastGeneration(w.i.at) || (e.IngressMoves? && w.i.at.StoreGeneration?))
      && (PastHandle(w'.i.at) ==> PastHandle(w.i.at) || (e.IngressMoves? && w.i.at.StoreHandle?))
      && (e.IngressMoves? && PastHandle(w'.i.at) ==> !w.i.at.StoreGeneration?)
      && (e.IngressMoves? && w.i.at.StoreStack? ==> !PastGeneration(w'.i.at))
  {
    hide EntryStep, ResolverStep, ManagerStep;
    match e
    case IngressMoves(event) => if Entering(w.i.at) { EntryNotPast(w.i, w.sh, event); }
    case ResolverMoves(answers) => ResolverFillStep(w.r, w.sh, answers);
    case WorkerMoves(order) => ManagerFillStep(w.worker, w.sh, order);
    case ResetMoves(order) => ManagerFillStep(w.reset, w.sh, order);
  }

  lemma {:induction false} StackStored(run: seq<World>, events: seq<Event>, i: nat, k: nat) returns (a: nat)
    requires IsRun(run, events) && i < k < |run| && PastStack(run[k].i.at) && run[i].i.at.IngressIdle?
    ensures i < a < k && events[a].IngressMoves? && run[a].i.at.StoreStack?
    ensures run[k].sh.est.stack == if StackCleared(run, events, a, k) then 0 else run[a].sh.stack
    decreases k
  {
    hide Next;
    FillStep(run[k - 1], events[k - 1]);
    if events[k - 1].IngressMoves? && run[k - 1].i.at.StoreStack? {
      a := k - 1;
    } else {
      a := StackStored(run, events, i, k - 1);
    }
  }

  lemma {:induction false} GenerationStored(run: seq<World>, events: seq<Event>, i: nat, k: nat) returns (b: nat)
    requires IsRun(run, events) && i < k < |run| && PastGeneration(run[k].i.at) && run[i].i.at.IngressIdle?
    ensures i < b < k && events[b].IngressMoves? && run[b].i.at.StoreGeneration?
    ensures run[k].sh.est.gen == if GenerationCleared(run, events, b, k) then 0 else run[b].sh.gen
    decreases k
  {
    hide Next;
    FillStep(run[k - 1], events[k - 1]);
    if events[k - 1].IngressMoves? && run[k - 1].i.at.StoreGeneration? {
      b := k - 1;
    } else {
      b := GenerationStored(run, events, i, k - 1);
    }
  }

  lemma {:induction false} HandleStored(run: seq<World>, events: seq<Event>, i: nat, k: nat, handle: nat)
    returns (c: nat)
    requires IsRun(run, events) && i < k < |run| && PastHandle(run[k].i.at) && run[i].i.at.IngressIdle?
    requires run[k].i.event == Connected(handle)
    ensures i < c < k && events[c].IngressMoves? && run[c].i.at.StoreHandle?
    ensures run[k].sh.est.handle == if HandleCleared(run, events, c, k) then NO_CONNECTION else handle
    decreases k
  {
    hide Next;
    FillStep(run[k - 1], events[k - 1]);
    if events[k - 1].IngressMoves? && run[k - 1].i.at.StoreHandle? {
      c := k - 1;
    } else {
      c := HandleStored(run, events, i, k - 1, handle);
    }
  }

  /**
   The observation publishes at p what was current when it stored the stack at a, the generation
   at b and its handle at c, but for what a retirement cleared in between.
   */
  ghost predicate Records(run: seq<World>, events: seq<Event>, p: nat, a: nat, b: nat, c: nat, handle: nat) {
    && Publishes(run, events, p) && a < p && b < p && c < p
    && events[a].IngressMoves? && run[a].i.at.StoreStack?
    && events[b].IngressMoves? && run[b].i.at.StoreGeneration?
    && events[c].IngressMoves? && run[c].i.at.StoreHandle?
    && run[p].sh.est == Record(
         if StackCleared(run, events, a, p) then 0 else run[a].sh.stack,
         if GenerationCleared(run, events, b, p) then 0 else run[b].sh.gen,
         if HandleCleared(run, events, c, p) then NO_CONNECTION else handle)
  }

  /** The same without any clearing: the connection's own handle, the current stack and generation. */
  ghost predicate RecordsWhole(run: seq<World>, events: seq<Event>, p: nat, a: nat, b: nat, c: nat, handle: nat) {
    && Records(run, events, p, a, b, c, handle)
    && run[p].sh.est == Record(run[a].sh.stack, run[b].sh.gen, handle)
  }

  // ---------------------------------------------------------------- one lifecycle task at a time

  /** Up to run[j] the worker and the reset callback are never both at work. */
  ghost predicate OneAtATime(run: seq<World>, j: nat) {
    forall k :: 0 <= k <= j && k < |run| ==> run[k].worker.at.ManagerIdle? || run[k].reset.at.ManagerIdle?
  }

  ghost predicate HasFenced(at: ManagerAt) { !at.ManagerIdle? && !at.StopCheck? && !at.Fence? }

  lemma FencedStep(w: World, e: Event)
    requires HasFenced(w.worker.at) || HasFenced(w.reset.at) ==> !w.sh.enabled
    requires w.worker.at.ManagerIdle? || w.reset.at.ManagerIdle?
    ensures var w' := Next(w, e);
      (w'.worker.at.ManagerIdle? || w'.reset.at.ManagerIdle?) && (HasFenced(w'.worker.at) || HasFenced(w'.reset.at))
      ==> !w'.sh.enabled
  {
  }

  /** Then ingress is closed for as long as one of them may still clear the record. */
  lemma {:induction false} ClosedWhileFenced(run: seq<World>, events: seq<Event>, k: nat)
    requires IsRun(run, events) && k < |run| && OneAtATime(run, k)
    ensures HasFenced(run[k].worker.at) || HasFenced(run[k].reset.at) ==> !run[k].sh.enabled
  {
    hide Next;
    if k > 0 {
      ClosedWhileFenced(run, events, k - 1);
      FencedStep(run[k - 1], events[k - 1]);
    }
  }

  /** So while ingress is steady nothing is cleared. */
  lemma NothingCleared(run: seq<World>, events: seq<Event>, i: nat, j: nat, q: nat)
    requires IsRun(run, events) && SteadyIngress(run, i, j) && OneAtATime(run, j)
    requires i <= q < j && j < |run|
    ensures !ClearsStack(run[q], events[q]) && !ClearsGeneration(run[q], events[q])
    ensures !ClearsHandle(run[q], events[q])
  {
    ClosedWhileFenced(run, events, q);
  }

  // ---------------------------------------------------------------- the result

  /**
   While ingress stays enabled in one epoch, a successful peripheral Connection Complete is
   recorded under a new id, or it is found recorded already, with the current stack, the current
   generation and its handle, or a lifecycle hand-off failure is reported.  What is recorded is
   its own handle under the stack and generation that were current, but for what was cleared.
   */
  lemma ConnectionIsNeverLost(run: seq<World>, events: seq<Event>, i: nat, j: nat, handle: nat)
    requires IsRun(run, events) && Observes(run, events, i, j, handle) && SteadyIngress(run, i, j)
    ensures var o := run[j].i.outcome;
      || (o.Recorded? && exists p, a, b, c ::
            i < p < j && i < a && i < b && i < c && Records(run, events, p, a, b, c, handle))
      || (o.Duplicate? && exists a, b, c ::
            && i < a < b < c < j
            && FindsStack(run, events, a) && FindsGeneration(run, events, b) && FindsHandle(run, events, c, handle))
      || (o.Signalled? && run[i].sh.signals < run[j].sh.signals)
  {
    ObservationGoesOn(run, events, i, j, j, handle);
    var o := run[j].i.outcome;
    if o.Recorded? {
      var p, a, b, c := RecordedAs(run, events, i, j, handle);
    } else if o.Duplicate? {
      RunInv(run, events, j);
      var c := DuplicateMeansSameHandle(run, events, i, j, j, handle);
      var b := SameHandleMeansSameGeneration(run, events, i, j, c, handle);
      var a := SameGenerationMeansSameStack(run, events, i, j, b, handle);
    } else {
      SignalledMeansReported(run, events, i, j, j, handle);
    }
  }

  lemma RecordedAs(run: seq<World>, events: seq<Event>, i: nat, j: nat, handle: nat)
    returns (p: nat, a: nat, b: nat, c: nat)
    requires IsRun(run, events) && Observes(run, events, i, j, handle) && run[j].i.outcome.Recorded?
    ensures i < p < j && i < a && i < b && i < c && Records(run, events, p, a, b, c, handle)
  {
    p := RecordedMeansPublished(run, events, i, j, j, handle);
    BusyThroughout(run, events, i, j, p, handle);
    a := StackStored(run, events, i, p);
    b := GenerationStored(run, events, i, p);
    c := HandleStored(run, events, i, p, handle);
  }

  /** If the lifecycle's tasks work one at a time, nothing is cleared: the whole record is the connection's. */
  lemma RecordedWhole(run: seq<World>, events: seq<Event>, i: nat, j: nat, handle: nat)
    requires IsRun(run, events) && Observes(run, events, i, j, handle) && SteadyIngress(run, i, j)
    requires OneAtATime(run, j) && run[j].i.outcome.Recorded?
    ensures exists p, a, b, c ::
      i < p < j && i < a && i < b && i < c && RecordsWhole(run, events, p, a, b, c, handle)
  {
    var p, a, b, c := RecordedAs(run, events, i, j, handle);
    forall q: nat | i <= q < p
      ensures !ClearsStack(run[q], events[q]) && !ClearsGeneration(run[q], events[q])
      ensures !ClearsHandle(run[q], events[q])
    {
      NothingCleared(run, events, i, j, q);
    }
    assert RecordsWhole(run, events, p, a, b, c, handle);
  }
}
