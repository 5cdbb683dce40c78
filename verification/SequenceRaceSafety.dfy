/**
 Every interleaving of the control task and the worker: terminal words are final, a completed
 sequence has sent exactly the reports of its plan, and a sequence that did not complete is
 cleaned up by exactly one of the two tasks.
 */
module SequenceRaceSafety {
  import opened SequenceKeys
  import opened SequenceParser
  import opened SequenceStatus
  import opened SequenceRace

  // ---------------------------------------------------------------- what a plan sends

  ghost function StateAfter(p: Plan, n: nat): Hid
    requires n <= |p.ops|
  {
    if Simulated(p.initial, p.ops[..n]).Some? then Simulated(p.initial, p.ops[..n]).value else p.initial
  }

  /** The reports of the first n operations: one for each report operation, of the state it leads to. */
  ghost function Reports(p: Plan, n: nat): seq<Report>
    requires n <= |p.ops|
  {
    if n == 0 then []
    else if IsHid(p.ops[n - 1]) then Reports(p, n - 1) + [ReportOf(p.ops[n - 1], StateAfter(p, n))]
    else Reports(p, n - 1)
  }

  /** In a good plan no transition fails, so the result that run() ignores is always true. */
  lemma TransitionsSucceed(p: Plan, n: nat)
    requires Good(p) && n < |p.ops|
    ensures Transition(p.ops[n], StateAfter(p, n)) == Some(StateAfter(p, n + 1))
  {
    FailureLasts(p.initial, p.ops, n + 1);
    FailureLasts(p.initial, p.ops, n);
    assert p.ops[..n + 1][..n] == p.ops[..n];
  }

  lemma PlainOperation(p: Plan, n: nat)
    requires Good(p) && n < |p.ops| && !IsHid(p.ops[n])
    ensures StateAfter(p, n + 1) == StateAfter(p, n) && Reports(p, n + 1) == Reports(p, n)
  {
    TransitionsSucceed(p, n);
  }

  lemma ReportNext(p: Plan, n: nat)
    requires n < |p.ops| && IsHid(p.ops[n])
    ensures Reports(p, n + 1) == Reports(p, n) + [ReportOf(p.ops[n], StateAfter(p, n + 1))]
  {
  }

  // ---------------------------------------------------------------- invariant

  ghost predicate Numbered(g: Gens, gen: nat) { g.next == 0 || gen < g.next }

  ghost predicate Aborting(at: ControlAt) {
    at.AbortCheck? || at.AbortCancel? || at.AbortRecheck? || at.AbortRevoke? || at.AbortStatus?
    || at.RetireSwap?
  }

  /** Who has the sequence of the reserved generation: the control task, or the worker, or it is waiting. */
  ghost predicate Phase(c: Control, w: Worker, sh: Shared) {
    var g := sh.g;
    && Numbered(g, g.reserved) && Numbered(g, sh.run.gen) && Numbered(g, c.gen)
    && (c.at.StartReserve? || c.at.StartAdmit? || c.at.StartFlag? || c.at.StartWithdraw? || c.at.StartLife? ==>
          sh.run.gen < c.gen)
    && (if Starting(c.at) then
          && c.gen != 0 && g.reserved == c.gen && g.runnable == 0 && w.at.WorkerIdle?
          && (!c.at.StartAdmit? ==> Good(sh.plan))
          && (c.at.StartLife? || c.at.StartPublish? ==> g.status == 0)
          && (c.at.StartPublish? || c.at.StartRunnable? ==>
                sh.run == Run(c.gen, false, [], 0, false) && sh.life == Fresh)
          && (c.at.StartRunnable? ==> g.status == c.gen)
          && (c.at.StartAdmit? || c.at.StartFlag? || c.at.StartWithdraw? ==> StatusKnown(sh))
          && (c.at.StartAdmit? || c.at.StartFlag? || c.at.StartWithdraw? ==> Settled(sh))
        else
          && StatusKnown(sh)
          && (g.reserved == 0 ==> g.runnable == 0 && w.at.WorkerIdle? && Settled(sh))
          && (g.reserved != 0 ==>
                && sh.run.gen == g.reserved && Good(sh.plan)
                && (if w.at.WorkerIdle? then g.runnable == g.reserved else g.runnable == 0 && w.gen == g.reserved)))
    && (c.at.StartReserve? || Aborting(c.at) ==> c.gen != 0)
    && (c.at.AbortLife? || c.at.ReleaseLife? ==> c.gen != 0 && g.status == c.gen)
  }

  /** status_generation_ is 0 or the generation of the word. */
  ghost predicate StatusKnown(sh: Shared) { sh.g.status == 0 || sh.g.status == sh.run.gen }

  /** Between sequences: what can still be asked about the last one is over. */
  ghost predicate Settled(sh: Shared) { sh.g.status == sh.run.gen != 0 ==> Terminal(sh.life.state) }

  /** What always holds of the word and of the history of its sequence. */
  ghost predicate LifeOk(sh: Shared) {
    var life, run := sh.life, sh.run;
    && (life.state.Accepted? ==> life == Fresh)
    && (life.state.Running? ==> life == RunningLife(life.executed))
    && (life.owned <==> run.won) && (life.owned ==> life.state.Aborted?)
    && (life.state.Accepted? ==> !run.started)
  }

  /** The counts of the word, for a plan of n operations. */
  ghost predicate Bounded(life: Life, n: nat) {
    && life.executed <= n
    && (life.state.Completed? <==> life.executed == n && !life.failed)
    && (!life.state.Completed? ==> life.executed < n && life.failedToken < n)
    && (life.state.Completed? ==> life.failedToken == 0)
  }

  /** The worker has left its loop; `published` is what it has read. */
  ghost predicate Decided(w: Worker, sh: Shared) {
    w.published == sh.life && (Terminal(sh.life.state) || sh.g.status != w.gen)
  }

  ghost predicate Waiting(sh: Shared) {
    && !sh.run.started && sh.run.sent == [] && sh.run.releases == 0
    && (sh.life == Fresh || sh.life.state.Aborted?)
    && sh.life.executed == 0 && Bounded(sh.life, |sh.plan.ops|)
  }

  /** How far the worker is: operation `index` of the plan, with or without its report sent. */
  ghost predicate Looping(w: Worker, sh: Shared, sent: nat, executed: nat) {
    && w.index < |sh.plan.ops| && sent <= |sh.plan.ops|
    && w.executed == executed
    && sh.run.started && sh.run.releases == 0
    && sh.run.sent == Reports(sh.plan, sent) && w.hid == StateAfter(sh.plan, sent)
    && (sh.life == RunningLife(w.index) || (sh.life.state.Aborted? && sh.life.executed == w.index))
    && Bounded(sh.life, |sh.plan.ops|)
    && w.final.Completed?
  }

  /** The current report operation has been applied to hid and not been accepted yet. */
  ghost predicate InReport(w: Worker, sh: Shared) {
    && w.index < |sh.plan.ops| && IsHid(sh.plan.ops[w.index])
    && w.executed == w.index
    && sh.run.started && sh.run.releases == 0
    && sh.run.sent == Reports(sh.plan, w.index) && w.hid == StateAfter(sh.plan, w.index + 1)
    && (sh.life == RunningLife(w.index) || (sh.life.state.Aborted? && sh.life.executed == w.index))
    && Bounded(sh.life, |sh.plan.ops|)
    && w.final.Completed?
  }

  /** The reports sent so far are a part of the plan's, and the word counts no more than is done. */
  ghost predicate Stopped(w: Worker, sh: Shared) {
    && sh.run.started && sh.run.releases == 0
    && (exists n :: 0 <= n <= |sh.plan.ops| && sh.run.sent == Reports(sh.plan, n))
    && Bounded(sh.life, |sh.plan.ops|)
    && !sh.life.state.Accepted?
    && (sh.life.state.Completed? ==> sh.run.sent == Reports(sh.plan, |sh.plan.ops|))
  }

  ghost predicate CleanedUp(w: Worker, sh: Shared) {
    && Bounded(sh.life, |sh.plan.ops|)
    && (exists n :: 0 <= n <= |sh.plan.ops| && sh.run.sent == Reports(sh.plan, n))
    && (sh.life.state.Completed? ==> sh.run.sent == Reports(sh.plan, |sh.plan.ops|))
    && (!sh.run.started ==> sh.run.sent == [] && !sh.life.state.Completed?)
  }

  ghost predicate WorkerOk(w: Worker, sh: Shared) {
    match w.at
    case WorkerIdle => true
    case RunCheck => Waiting(sh)
    case RunBegin => Waiting(sh)
    case RunLost => Waiting(sh) && w.published == sh.life && sh.life.state.Aborted?
    case LoopFlag | LoopCanceled | LoopAuthority | LoopDeadline | Execute => Looping(w, sh, w.index, w.index)
    case WaitDelay | AfterFlag | AfterCanceled | AfterAuthority | AfterDeadline =>
      Looping(w, sh, w.index + 1, w.index)
    case Reporting | WaitRetry => InReport(w, sh)
    case FailFlag | FailCanceled | FailAuthority => InReport(w, sh) || Looping(w, sh, w.index + 1, w.index)
    case ProgressStatus | ProgressLife =>
      Looping(w, sh, w.index + 1, w.index + 1) && w.index + 1 < |sh.plan.ops|
    case DoneStatus | DoneLife => Looping(w, sh, w.index + 1, w.index + 1) && w.index + 1 == |sh.plan.ops|
    case FinalCheck | FinalStatus | FinalLife =>
      && Stopped(w, sh)
      && (w.final.Completed? ==> Terminal(sh.life.state) || (sh.g.status != w.gen && !w.at.FinalLife?))
      && (!w.final.Completed? ==> Terminal(w.final) && w.executed < |sh.plan.ops| && w.failedToken < |sh.plan.ops|)
    case CleanupRead => Stopped(w, sh) && (Terminal(sh.life.state) || sh.g.status != w.gen)
    case CleanupRelease =>
      && CleanedUp(w, sh) && Decided(w, sh) && sh.run.releases == 0
      && !sh.life.state.Completed? && !sh.life.owned
    case CleanupEnd | CleanupFree =>
      && CleanedUp(w, sh) && (sh.run.started ==> Decided(w, sh)) && (Terminal(sh.life.state) || sh.g.status != w.gen)
      && sh.run.releases <= 1
      && (sh.run.releases == 1 ==> !sh.life.state.Completed? && !sh.life.owned)
      && (sh.run.started && !sh.life.state.Completed? && !sh.life.owned ==> sh.run.releases == 1)
  }

  /** The promise about a sequence the worker is done with. */
  ghost predicate Outcome(f: Finished) {
    var n := |f.plan.ops|;
    && (f.life.state.Completed? ==>
          && f.life.executed == n && f.run.sent == Reports(f.plan, n)
          && f.run.releases == 0 && !f.run.won)
    && (f.run.started && !f.life.state.Completed? ==>
          (f.run.releases == 1 && !f.run.won) || (f.run.releases == 0 && f.run.won))
    && (f.run.sent != [] ==> f.run.started)
    && (exists k :: 0 <= k <= n && f.run.sent == Reports(f.plan, k))
    && (f.run.won <==> f.life.state.Aborted? && f.life.owned)
  }

  /** What abort_for_release has found out, until it has returned. */
  ghost predicate Answer(c: Control, sh: Shared) {
    match c.at
    case ReleaseNothing => c.gen == 0
    case ReleaseStatus => c.gen != 0
    case ReleaseCancel | ReleaseRevoke | ReleaseFlag =>
      c.gen != 0 && sh.g.status == c.gen && sh.run.gen == c.gen && sh.life.owned
    case ReleaseDone =>
      && (c.gen == 0 ==> c.ok)
      && (c.gen != 0 ==> (c.ok <==> sh.g.status == c.gen && (sh.life.state.Completed? || sh.life.owned)))
      && (c.gen != 0 && sh.g.status == c.gen ==> Terminal(sh.life.state))
    case _ => true
  }

  ghost predicate Inv(s: World) {
    && Answer(s.c, s.sh)
    && Phase(s.c, s.w, s.sh) && LifeOk(s.sh)
    && WorkerOk(s.w, s.sh)
    && (s.w.at.WorkerIdle? && s.sh.g.runnable != 0 ==> Waiting(s.sh))
    && forall i :: 0 <= i < |s.sh.past| ==> Outcome(s.sh.past[i])
  }

  // ---------------------------------------------------------------- the control task's steps

  lemma CallKept(s: World, call: Call)
    requires Inv(s) && s.c.at.ControlIdle?
    ensures var (c, sh) := CallStep(s.c, s.sh, call); Inv(World(c, s.w, sh))
  {
    hide Good, Reports, StateAfter, Outcome;
  }

  lemma StartKept(s: World, admitted: Option<Plan>)
    requires Inv(s) && (s.c.at.StartReserve? || Starting(s.c.at))
    ensures var (c, sh) := StartStep(s.c, s.sh, admitted); Inv(World(c, s.w, sh))
  {
    hide Simulated, Reports, StateAfter, Outcome;
  }

  /** The cancellation flags are no part of what the worker knows. */
  lemma FlagsDoNotMatter(w: Worker, sh: Shared, sh': Shared)
    requires WorkerOk(w, sh)
    requires sh'.life == sh.life && sh'.run == sh.run && sh'.plan == sh.plan && sh'.g.status == sh.g.status
    ensures WorkerOk(w, sh')
  {
    hide Reports, StateAfter;
  }

  lemma AbortKept(s: World)
    requires Inv(s) && !s.c.at.StartReserve? && !Starting(s.c.at) && !Releasing(s.c.at)
    requires !s.c.at.AbortLife? && !s.c.at.RetireSwap?
    ensures var (c, sh) := AbortStep(s.c, s.sh); Inv(World(c, s.w, sh))
  {
    hide Good, Reports, StateAfter, Outcome, Bounded, WorkerOk;
    FlagsDoNotMatter(s.w, s.sh, AbortStep(s.c, s.sh).1);
  }

  lemma RetireSwapKept(s: World)
    requires Inv(s) && s.c.at.RetireSwap?
    ensures var (c, sh) := AbortStep(s.c, s.sh); Inv(World(c, s.w, sh))
  {
    hide Good, Reports, StateAfter, Outcome, Bounded;
  }

  lemma AbortLifeKept(s: World)
    requires Inv(s) && s.c.at.AbortLife?
    ensures var (c, sh) := AbortStep(s.c, s.sh); Inv(World(c, s.w, sh))
  {
    hide Good, Reports, StateAfter, Outcome;
  }

  lemma ReleaseKept(s: World)
    requires Inv(s) && Releasing(s.c.at)
    ensures var (c, sh) := ReleaseStep(s.c, s.sh); Inv(World(c, s.w, sh))
  {
    hide Good, Reports, StateAfter;
  }

  // ---------------------------------------------------------------- the worker's steps

  lemma BeginKept(s: World)
    requires Inv(s) && Beginning(s.w.at)
    ensures var (w, sh) := BeginStep(s.w, s.sh); Inv(World(s.c, w, sh))
  {
    hide Outcome;
    assert s.sh.plan.ops[..0] == [];
    assert Reports(s.sh.plan, 0) == [];
  }

  /** A step of the worker that stays in its run and leaves the shared fields alone. */
  lemma PhaseKept(c: Control, w: Worker, w': Worker, sh: Shared)
    requires Phase(c, w, sh) && !w.at.WorkerIdle? && !w'.at.WorkerIdle? && w'.gen == w.gen
    ensures Phase(c, w', sh)
  {
    hide Good;
  }

  lemma CheckKept(s: World, input: Input)
    requires Inv(s) && Checking(s.w.at)
    ensures Inv(World(s.c, CheckStep(s.w, s.sh, input), s.sh))
  {
    hide Good, Reports, StateAfter, Outcome, Bounded;
  }

  lemma ExecuteKept(s: World, input: Input)
    requires Inv(s) && s.w.at.Execute?
    ensures var (w, sh) := OperationStep(s.w, s.sh, input); Inv(World(s.c, w, sh))
  {
    hide Good, StateAfter, Reports, Transition, Outcome, Phase, Answer, LifeOk;
    GoodPlan(s);
    var (w, sh) := OperationStep(s.w, s.sh, input);
    PhaseKept(s.c, s.w, w, s.sh);
    TransitionsSucceed(s.sh.plan, s.w.index);
    if !IsHid(s.sh.plan.ops[s.w.index]) { PlainOperation(s.sh.plan, s.w.index); }
  }

  /** The plan the worker runs is one that can be carried out. */
  lemma GoodPlan(s: World)
    requires Inv(s) && !s.w.at.WorkerIdle?
    ensures Good(s.sh.plan)
  {
    hide WorkerOk, Outcome;
  }

  lemma ReportingKept(s: World, input: Input)
    requires Inv(s) && s.w.at.Reporting?
    ensures var (w, sh) := OperationStep(s.w, s.sh, input); Inv(World(s.c, w, sh))
  {
    hide Good, StateAfter, Reports, Transition, Outcome;
    ReportNext(s.sh.plan, s.w.index);
  }

  lemma WaitingKept(s: World, input: Input)
    requires Inv(s) && (s.w.at.WaitRetry? || s.w.at.WaitDelay?)
    ensures var (w, sh) := OperationStep(s.w, s.sh, input); Inv(World(s.c, w, sh))
  {
    PhaseKept(s.c, s.w, OperationStep(s.w, s.sh, input).0, s.sh);
    hide Good, StateAfter, Reports, Transition, Outcome, Phase, Answer, LifeOk;
  }

  lemma PublishKept(s: World)
    requires Inv(s) && Publishing(s.w.at)
    ensures var (w, sh) := PublishStep(s.w, s.sh); Inv(World(s.c, w, sh))
  {
    hide Good, Reports, StateAfter;
  }

  lemma CleanupKept(s: World)
    requires Inv(s) && Cleaning(s.w.at)
    ensures var (w, sh) := CleanupStep(s.w, s.sh); Inv(World(s.c, w, sh))
  {
    hide Good, Reports, StateAfter;
  }

  lemma NextKept(s: World, e: Event)
    requires Inv(s)
    ensures Inv(Next(s, e))
  {
    hide Inv, CallStep, StartStep, AbortStep, ReleaseStep, BeginStep, CheckStep, OperationStep, PublishStep;
    hide CleanupStep;
    match e
    case ControlMoves(call, admitted) =>
      if s.c.at.ControlIdle? { CallKept(s, call); }
      else if s.c.at.StartReserve? || Starting(s.c.at) { StartKept(s, admitted); }
      else if Releasing(s.c.at) { ReleaseKept(s); }
      else if s.c.at.AbortLife? { AbortLifeKept(s); }
      else if s.c.at.RetireSwap? { RetireSwapKept(s); }
      else { AbortKept(s); }
    case WorkerMoves(input) =>
      if Beginning(s.w.at) { BeginKept(s); }
      else if Checking(s.w.at) { CheckKept(s, input); }
      else if s.w.at.Execute? { ExecuteKept(s, input); }
      else if s.w.at.Reporting? { ReportingKept(s, input); }
      else if Operating(s.w.at) { WaitingKept(s, input); }
      else if Publishing(s.w.at) { PublishKept(s); }
      else { CleanupKept(s); }
  }

  /** Every world of every run satisfies the invariant. */
  lemma {:induction false} RunInv(run: seq<World>, events: seq<Event>, i: nat)
    requires IsRun(run, events) && i < |run|
    ensures Inv(run[i])
  {
    if i > 0 {
      hide Inv, Next;
      RunInv(run, events, i - 1);
      NextKept(run[i - 1], events[i - 1]);
    }
  }

  // ---------------------------------------------------------------- whole runs

  /** While its sequence is the current one, a terminal word never changes. */
  lemma {:induction false} TerminalIsFinal(run: seq<World>, events: seq<Event>, i: nat, j: nat)
    requires IsRun(run, events) && i <= j < |run|
    requires Terminal(run[i].sh.life.state) && run[j].sh.run.gen == run[i].sh.run.gen
    ensures run[j].sh.life == run[i].sh.life
    decreases j
  {
    hide Inv, Next;
    if i < j {
      GenerationsGrow(run, events, i, j - 1);
      GenerationsGrow(run, events, j - 1, j);
      TerminalIsFinal(run, events, i, j - 1);
      RunInv(run, events, j - 1);
      TerminalStep(run[j - 1], events[j - 1]);
    }
  }

  lemma TerminalStep(s: World, e: Event)
    requires Inv(s) && Terminal(s.sh.life.state) && Next(s, e).sh.run.gen == s.sh.run.gen
    ensures Next(s, e).sh.life == s.sh.life
  {
    hide Good, Reports, StateAfter, Outcome, Transition;
  }

  lemma {:induction false} GenerationsGrow(run: seq<World>, events: seq<Event>, i: nat, j: nat)
    requires IsRun(run, events) && i <= j < |run|
    ensures run[i].sh.run.gen <= run[j].sh.run.gen
    decreases j
  {
    hide Inv, Next;
    if i < j {
      GenerationsGrow(run, events, i, j - 1);
      RunInv(run, events, j - 1);
      GenerationStep(run[j - 1], events[j - 1]);
    }
  }

  lemma GenerationStep(s: World, e: Event)
    requires Inv(s)
    ensures s.sh.run.gen <= Next(s, e).sh.run.gen
  {
    hide Good, Reports, StateAfter, Outcome, Transition, WorkerOk;
  }

  /**
   A sequence that completes has executed every operation and sent exactly the plan's reports,
   and no one cleans up after it; one that started and did not complete is cleaned up by exactly
   one of the worker's safety release and a release-owned abort.
   */
  lemma EverySequenceEndsWell(run: seq<World>, events: seq<Event>, i: nat, k: nat)
    requires IsRun(run, events) && i < |run| && k < |run[i].sh.past|
    ensures var f := run[i].sh.past[k];
      && (f.life.state.Completed? ==>
            f.life.executed == |f.plan.ops| && f.run.sent == Reports(f.plan, |f.plan.ops|)
            && f.run.releases == 0 && !f.run.won)
      && (f.run.sent != [] && !f.life.state.Completed? ==>
            (f.run.releases == 1 && !f.run.won) || (f.run.releases == 0 && f.run.won))
  {
    RunInv(run, events, i);
  }

  /** What is published as completed is complete at that very moment, and what runs has not reached the end. */
  lemma WordFits(run: seq<World>, events: seq<Event>, i: nat)
    requires IsRun(run, events) && i < |run| && run[i].sh.run.gen == run[i].sh.g.reserved != 0
    requires !Starting(run[i].c.at)
    ensures var life, n := run[i].sh.life, |run[i].sh.plan.ops|;
      && 1 <= n <= 64
      && (life.state.Completed? ==> life.executed == n && run[i].sh.run.sent == Reports(run[i].sh.plan, n))
      && (!life.state.Completed? ==> life.executed < n)
      && life.executed < 128 && life.failedToken < 64
  {
    RunInv(run, events, i);
  }

  /**
   abort_for_release answers true exactly if there is no sequence, or the current one is completed
   or aborted by a release; otherwise the sequence is retired, failed, or aborted by someone else.
   */
  lemma ReleaseAnswersRight(run: seq<World>, events: seq<Event>, i: nat)
    requires IsRun(run, events) && i < |run| && run[i].c.at.ReleaseDone?
    ensures var c, sh := run[i].c, run[i].sh;
      c.ok <==> c.gen == 0 || (sh.g.status == c.gen && (sh.life.state.Completed? || sh.run.won))
    ensures var c, sh := run[i].c, run[i].sh;
      !c.ok ==> sh.g.status != c.gen || sh.life.state.Failed? || (sh.life.state.Aborted? && !sh.run.won)
  {
    RunInv(run, events, i);
  }

  /** A sequence is won by a release only in abort_for_release, at the swap of the word. */
  lemma OnlyReleaseWins(s: World, e: Event)
    requires !s.sh.run.won && Next(s, e).sh.run.won
    ensures s.c.at.ReleaseLife? && Next(s, e).c.at.ReleaseCancel? && Next(s, e).sh.life.owned
  {
  }

  ghost predicate Winning(at: ControlAt) { at.ReleaseCancel? || at.ReleaseRevoke? || at.ReleaseFlag? }

  lemma WinningStep(s: World, e: Event)
    requires Winning(s.c.at)
    ensures var c := Next(s, e).c; Winning(c.at) || (c.at.ReleaseDone? && c.ok)
  {
  }

  /** And the abort_for_release that wins answers true. */
  lemma {:induction false} WinningReleaseAnswersTrue(run: seq<World>, events: seq<Event>, i: nat, j: nat)
    requires IsRun(run, events) && i < j < |run| && run[i].c.at.ReleaseCancel?
    requires forall k :: i < k < j ==> !run[k].c.at.ReleaseDone?
    ensures if run[j].c.at.ReleaseDone? then run[j].c.ok else Winning(run[j].c.at)
    decreases j
  {
    hide Next;
    if i + 1 < j { WinningReleaseAnswersTrue(run, events, i, j - 1); }
    WinningStep(run[j - 1], events[j - 1]);
  }

  /** What parse accepts, run() can carry out. */
  lemma AcceptedPlansAreGood(code: string, p: Plan)
    requires Accepts(code, p.initial, p.ops)
    ensures Good(p)
    ensures forall n :: 0 <= n < |p.ops| ==> Transition(p.ops[n], StateAfter(p, n)).Some?
  {
    forall n | 0 <= n < |p.ops| ensures Transition(p.ops[n], StateAfter(p, n)).Some? { TransitionsSucceed(p, n); }
  }

  /** n halved k times. */
  function Half(n: nat, k: nat): nat { if k == 0 then n else Half(n, k - 1) / 2 }

  predicate Bit(n: nat, k: nat) { Half(n, k) % 2 == 1 }

  function FromBits(b7: bool, b6: bool, b5: bool, b4: bool, b3: bool, b2: bool, b1: bool, b0: bool): bv8 {
    (if b7 then 128 else 0) | (if b6 then 64 else 0) | (if b5 then 32 else 0) | (if b4 then 16 else 0)
    | (if b3 then 8 else 0) | (if b2 then 4 else 0) | (if b1 then 2 else 0) | (if b0 then 1 else 0)
  }

  /** A small number as a byte. */
  function Byte(n: nat): bv8 {
    FromBits(Bit(n, 7), Bit(n, 6), Bit(n, 5), Bit(n, 4), Bit(n, 3), Bit(n, 2), Bit(n, 1), Bit(n, 0))
  }

  lemma BitsRead(b7: bool, b6: bool, b5: bool, b4: bool, b3: bool, b2: bool, b1: bool, b0: bool)
    ensures var b := FromBits(b7, b6, b5, b4, b3, b2, b1, b0);
      && (b & 128 != 0 <==> b7) && (b & 64 != 0 <==> b6) && (b & 32 != 0 <==> b5) && (b & 16 != 0 <==> b4)
      && (b & 8 != 0 <==> b3) && (b & 4 != 0 <==> b2) && (b & 2 != 0 <==> b1) && (b & 1 != 0 <==> b0)
      && (b < 128 <==> !b7) && (b < 64 <==> !b7 && !b6)
  {
  }

  lemma BytesTell(a: nat, b: nat)
    requires Byte(a) == Byte(b)
    ensures Bit(a, 7) == Bit(b, 7) && Bit(a, 6) == Bit(b, 6) && Bit(a, 5) == Bit(b, 5) && Bit(a, 4) == Bit(b, 4)
    ensures Bit(a, 3) == Bit(b, 3) && Bit(a, 2) == Bit(b, 2) && Bit(a, 1) == Bit(b, 1) && Bit(a, 0) == Bit(b, 0)
  {
    hide FromBits, Bit;
    BitsRead(Bit(a, 7), Bit(a, 6), Bit(a, 5), Bit(a, 4), Bit(a, 3), Bit(a, 2), Bit(a, 1), Bit(a, 0));
    BitsRead(Bit(b, 7), Bit(b, 6), Bit(b, 5), Bit(b, 4), Bit(b, 3), Bit(b, 2), Bit(b, 1), Bit(b, 0));
  }

  lemma BytesDiffer(a: nat, b: nat)
    requires a < 256 && b < 256 && Byte(a) == Byte(b)
    ensures a == b
  {
    hide Byte, Bit;
    BytesTell(a, b);
    EighthHalf(a);
    EighthHalf(b);
    SameHalf(a, b, 0, 8);
  }

  lemma {:induction false} SameHalf(a: nat, b: nat, k: nat, n: nat)
    requires k <= n && Half(a, n) == Half(b, n) && forall m :: k <= m < n ==> Bit(a, m) == Bit(b, m)
    ensures Half(a, k) == Half(b, k)
    decreases n - k
  {
    if k < n {
      SameHalf(a, b, k + 1, n);
      Halves(Half(a, k));
      Halves(Half(b, k));
      assert Bit(a, k) == Bit(b, k);
    }
  }

  lemma Halves(x: nat)
    ensures x == x / 2 * 2 + x % 2 && (x % 2 == 0 || x % 2 == 1)
  {
  }

  lemma EighthHalf(a: nat)
    requires a < 256
    ensures Half(a, 8) == 0 && (a < 128 ==> Half(a, 7) == 0) && (a < 64 ==> Half(a, 6) == 0)
  {
    assert Half(a, 1) == a / 2;
    assert Half(a, 2) == Half(a, 1) / 2;
    assert Half(a, 3) == Half(a, 2) / 2;
    assert Half(a, 4) == Half(a, 3) / 2;
    assert Half(a, 5) == Half(a, 4) / 2;
    assert Half(a, 6) == Half(a, 5) / 2;
    assert Half(a, 7) == Half(a, 6) / 2;
  }

  lemma ByteBelow(a: nat)
    requires a < 256
    ensures a < 128 ==> Byte(a) < 128
    ensures a < 64 ==> Byte(a) < 64
  {
    hide FromBits;
    EighthHalf(a);
    BitsRead(Bit(a, 7), Bit(a, 6), Bit(a, 5), Bit(a, 4), Bit(a, 3), Bit(a, 2), Bit(a, 1), Bit(a, 0));
  }

  function Packed(life: Life): Word {
    Word(life.state, Byte(life.executed), life.failed, Byte(life.failedToken), life.code, life.owned)
  }

  /** In every world of a sequence, two packed words are equal exactly if they mean the same. */
  lemma PackingLosesNothing(a: Life, b: Life)
    requires a.executed < 128 && a.failedToken < 64 && b.executed < 128 && b.failedToken < 64
    ensures Decode(Encode(Packed(a))) == Packed(a)
    ensures Encode(Packed(a)) == Encode(Packed(b)) ==> a == b
  {
    hide Encode, Decode, Byte;
    ByteBelow(a.executed);
    ByteBelow(b.executed);
    ByteBelow(a.failedToken);
    ByteBelow(b.failedToken);
    DecodeEncode(Packed(a));
    DecodeEncode(Packed(b));
    if Encode(Packed(a)) == Encode(Packed(b)) {
      BytesDiffer(a.executed, b.executed);
      BytesDiffer(a.failedToken, b.failedToken);
    }
  }
}
