/**
 Each task of the sequence controller on its own: a start starts, an undisturbed sequence
 completes, and every reason to stop ends it with its own state, code and token.
 */
module SequenceProgress {
  import opened SequenceKeys
  import opened SequenceParser
  import opened SequenceStatus
  import opened SequenceRace
  import opened SequenceRaceSafety

  // ---------------------------------------------------------------- the control task

  ghost function One(s: (Control, Shared), call: Call, admitted: Option<Plan>): (Control, Shared) {
    ControlStep(s.0, s.1, call, admitted)
  }

  ghost function Steps(c: Control, sh: Shared, call: Call, admitted: Option<Plan>, k: nat): (Control, Shared) {
    if k == 0 then (c, sh) else One(Steps(c, sh, call, admitted, k - 1), call, admitted)
  }

  lemma {:induction false} StepsJoin(c: Control, sh: Shared, call: Call, admitted: Option<Plan>, a: nat, b: nat)
    ensures var s := Steps(c, sh, call, admitted, a);
      Steps(s.0, s.1, call, admitted, b) == Steps(c, sh, call, admitted, a + b)
  {
    hide ControlStep;
    if b > 0 { StepsJoin(c, sh, call, admitted, a, b - 1); }
  }

  lemma FirstSteps(c: Control, sh: Shared, call: Call, admitted: Option<Plan>)
    ensures Steps(c, sh, call, admitted, 1) == ControlStep(c, sh, call, admitted)
    ensures Steps(c, sh, call, admitted, 2) == One(Steps(c, sh, call, admitted, 1), call, admitted)
    ensures Steps(c, sh, call, admitted, 3) == One(Steps(c, sh, call, admitted, 2), call, admitted)
    ensures Steps(c, sh, call, admitted, 4) == One(Steps(c, sh, call, admitted, 3), call, admitted)
  {
  }

  lemma Admits(c: Control, sh: Shared, owner: nat, plan: Plan)
    requires c.at.ControlIdle? && owner != 0 && sh.g.next != 0 && sh.g.reserved == 0 && Good(plan)
    ensures Steps(c, sh, CallStart(owner), Some(plan), 4) == (
              Control(StartWithdraw, sh.g.next, owner, false),
              sh.(g := sh.g.(next := Allocate(sh.g.next), reserved := sh.g.next), plan := plan,
                  cancelRequested := sh.g.canceled == sh.g.next))
  {
    hide AbortStep, ReleaseStep;
    FirstSteps(c, sh, CallStart(owner), Some(plan));
  }

  lemma Publishes(c: Control, sh: Shared, call: Call, admitted: Option<Plan>)
    requires c.at.StartWithdraw?
    ensures Steps(c, sh, call, admitted, 4) == (
              c.(at := ControlIdle, ok := true),
              sh.(g := sh.g.(status := c.gen, runnable := c.gen, owner := c.owner), life := Fresh,
                  run := Run(c.gen, false, [], 0, false)))
  {
    hide CallStep, AbortStep, ReleaseStep;
    FirstSteps(c, sh, call, admitted);
  }

  /** A start with a plan that is admitted: the worker finds a fresh sequence of that plan under a new generation. */
  lemma StartsAlone(c: Control, sh: Shared, owner: nat, plan: Plan)
    requires c.at.ControlIdle? && owner != 0 && sh.g.next != 0 && sh.g.reserved == 0 && Good(plan)
    ensures var (c', sh') := Steps(c, sh, CallStart(owner), Some(plan), 8);
      var gen := sh.g.next;
      && c'.at.ControlIdle? && c'.ok
      && sh'.g.reserved == gen && sh'.g.status == gen && sh'.g.runnable == gen && sh'.g.owner == owner
      && sh'.g.next == (if gen == LAST_GENERATION then 0 else gen + 1)
      && sh'.plan == plan && sh'.life == Fresh && (sh'.cancelRequested <==> sh.g.canceled == gen)
      && sh'.run == Run(gen, false, [], 0, false)
  {
    hide ControlStep;
    Admits(c, sh, owner, plan);
    var s := Steps(c, sh, CallStart(owner), Some(plan), 4);
    Publishes(s.0, s.1, CallStart(owner), Some(plan));
    StepsJoin(c, sh, CallStart(owner), Some(plan), 4, 4);
  }

  /** While a sequence is reserved another start is refused, and nothing of that sequence changes. */
  lemma StartIsBusy(c: Control, sh: Shared, owner: nat, admitted: Option<Plan>)
    requires c.at.ControlIdle? && owner != 0 && sh.g.next != 0 && sh.g.reserved != 0
    ensures var (c', sh') := Steps(c, sh, CallStart(owner), admitted, 2);
      c'.at.ControlIdle? && !c'.ok && sh' == sh.(g := sh.g.(next := sh'.g.next))
  {
    FirstSteps(c, sh, CallStart(owner), admitted);
  }

  /** A plan that is not admitted leaves no reservation and the last sequence's word. */
  lemma StartIsRefused(c: Control, sh: Shared, owner: nat)
    requires c.at.ControlIdle? && owner != 0 && sh.g.next != 0 && sh.g.reserved == 0
    ensures var (c', sh') := Steps(c, sh, CallStart(owner), None, 3);
      c'.at.ControlIdle? && !c'.ok && sh' == sh.(g := sh.g.(next := sh'.g.next))
  {
    FirstSteps(c, sh, CallStart(owner), None);
  }

  /** Without an owner, or once the generations are used up, nothing happens at all. */
  lemma StartIsNotReady(c: Control, sh: Shared, owner: nat, admitted: Option<Plan>)
    requires c.at.ControlIdle? && (owner == 0 || sh.g.next == 0)
    ensures Steps(c, sh, CallStart(owner), admitted, 1) == (c.(ok := false), sh)
  {
    FirstSteps(c, sh, CallStart(owner), admitted);
  }

  /** abort_generation, past its first look. */
  lemma Cancels(c: Control, sh: Shared, call: Call)
    requires c.at.AbortRevoke?
    ensures var life := if sh.g.status == c.gen && Live(sh.life) then AbortedLife(sh.life.executed, false) else sh.life;
      Steps(c, sh, call, None, if sh.g.status == c.gen then 4 else 3)
      == (c.(at := ControlIdle), sh.(life := life, cancelRequested := true))
  {
    hide CallStep, StartStep, ReleaseStep;
    FirstSteps(c, sh, call, None);
  }

  lemma CancelsFirst(c: Control, sh: Shared)
    requires c.at.ControlIdle? && sh.g.reserved != 0
    ensures Steps(c, sh, CallAbort, None, 4)
            == (c.(at := AbortRevoke, gen := sh.g.reserved), sh.(g := sh.g.(canceled := sh.g.reserved)))
  {
    hide StartStep, ReleaseStep;
    FirstSteps(c, sh, CallAbort, None);
  }

  /**
   abort() of the current sequence: its generation is canceled and the worker is told; its word,
   if it is still accepted or running, is aborted at the token it has reached, and not for a release.
   */
  lemma AbortsAlone(c: Control, sh: Shared)
    requires c.at.ControlIdle? && sh.g.reserved != 0 && sh.g.status == sh.g.reserved
    ensures var (c', sh') := Steps(c, sh, CallAbort, None, 8);
      && c'.at.ControlIdle? && sh'.cancelRequested && sh'.g == sh.g.(canceled := sh.g.reserved)
      && sh'.plan == sh.plan && sh'.run == sh.run
      && (if sh.life.state.Accepted? || sh.life.state.Running? then
            sh'.life == Life(Aborted, sh.life.executed, true, sh.life.executed, SequenceAborted, false)
          else sh'.life == sh.life)
  {
    hide ControlStep;
    CancelsFirst(c, sh);
    var s := Steps(c, sh, CallAbort, None, 4);
    Cancels(s.0, s.1, CallAbort);
    StepsJoin(c, sh, CallAbort, None, 4, 4);
  }

  /** Without a sequence abort() only raises the flag. */
  lemma AbortsNothing(c: Control, sh: Shared)
    requires c.at.ControlIdle? && sh.g.reserved == 0
    ensures var (c', sh') := Steps(c, sh, CallAbort, None, 2); c'.at.ControlIdle? && sh' == sh.(cancelRequested := true)
  {
    FirstSteps(c, sh, CallAbort, None);
  }

  lemma Wins(c: Control, sh: Shared)
    requires c.at.ControlIdle? && sh.g.reserved != 0 && sh.g.status == sh.g.reserved && Live(sh.life)
    ensures Steps(c, sh, CallAbortForRelease, None, 3)
            == (c.(at := ReleaseCancel, gen := sh.g.reserved),
                sh.(life := AbortedLife(sh.life.executed, true), run := sh.run.(won := true)))
  {
    hide StartStep, AbortStep;
    FirstSteps(c, sh, CallAbortForRelease, None);
  }

  lemma TellsWorker(c: Control, sh: Shared)
    requires c.at.ReleaseCancel?
    ensures Steps(c, sh, CallAbortForRelease, None, 3)
            == (c.(at := ReleaseDone, ok := true), sh.(g := sh.g.(canceled := c.gen), cancelRequested := true))
  {
    hide CallStep, StartStep, AbortStep;
    FirstSteps(c, sh, CallAbortForRelease, None);
  }

  /** abort_for_release() of a running sequence wins it: the word is release-owned, and the answer is true. */
  lemma ReleasesAlone(c: Control, sh: Shared)
    requires c.at.ControlIdle? && sh.g.reserved != 0 && sh.g.status == sh.g.reserved
    requires sh.life.state.Accepted? || sh.life.state.Running?
    ensures var (c', sh') := Steps(c, sh, CallAbortForRelease, None, 6);
      && c'.at.ReleaseDone? && c'.ok && sh'.cancelRequested && sh'.g == sh.g.(canceled := sh.g.reserved)
      && sh'.life == Life(Aborted, sh.life.executed, true, sh.life.executed, SequenceAborted, true)
  {
    hide ControlStep;
    Wins(c, sh);
    var s := Steps(c, sh, CallAbortForRelease, None, 3);
    TellsWorker(s.0, s.1);
    StepsJoin(c, sh, CallAbortForRelease, None, 3, 3);
  }

  lemma Withdraws(c: Control, sh: Shared, owner: nat)
    requires c.at.ControlIdle? && owner != 0 && sh.g.status != 0 && sh.g.owner == owner
    ensures var gen := sh.g.status;
      if sh.g.reserved != gen then
        Steps(c, sh, CallRetireOwner(owner), None, 3)
        == (c.(at := ControlIdle, gen := gen), sh.(g := sh.g.(status := 0)))
      else
        Steps(c, sh, CallRetireOwner(owner), None, 5)
        == (c.(at := AbortRevoke, gen := gen), sh.(g := sh.g.(status := 0, canceled := gen)))
  {
    hide StartStep, ReleaseStep;
    FirstSteps(c, sh, CallRetireOwner(owner), None);
    StepsJoin(c, sh, CallRetireOwner(owner), None, 4, 1);
    var s := Steps(c, sh, CallRetireOwner(owner), None, 4);
    FirstSteps(s.0, s.1, CallRetireOwner(owner), None);
  }

  /** retire_owner() of another owner changes nothing. */
  lemma OtherOwnerStays(c: Control, sh: Shared, owner: nat)
    requires c.at.ControlIdle? && (owner == 0 || sh.g.status == 0 || sh.g.owner != owner)
    ensures Steps(c, sh, CallRetireOwner(owner), None, 1) == (c, sh)
  {
    FirstSteps(c, sh, CallRetireOwner(owner), None);
  }

  /** Of the owner of the current record it withdraws the record, and cancels the sequence if it is not over. */
  lemma RetiresOwner(c: Control, sh: Shared, owner: nat) returns (k: nat)
    requires c.at.ControlIdle? && owner != 0 && sh.g.status != 0 && sh.g.owner == owner
    ensures var (c', sh') := Steps(c, sh, CallRetireOwner(owner), None, k);
      && c'.at.ControlIdle? && sh'.g.status == 0 && sh'.life == sh.life && sh'.plan == sh.plan
      && (if sh.g.reserved == sh.g.status then sh'.g.canceled == sh.g.status && sh'.cancelRequested
          else sh' == sh.(g := sh.g.(status := 0)))
  {
    hide ControlStep;
    Withdraws(c, sh, owner);
    k := 3;
    if sh.g.reserved == sh.g.status {
      var s := Steps(c, sh, CallRetireOwner(owner), None, 5);
      Cancels(s.0, s.1, CallRetireOwner(owner));
      StepsJoin(c, sh, CallRetireOwner(owner), None, 5, 3);
      k := 8;
    }
  }

  // ---------------------------------------------------------------- the worker

  ghost function Alone(w: Worker, sh: Shared, input: Input, k: nat): (Worker, Shared) {
    if k == 0 then (w, sh) else Work(Alone(w, sh, input, k - 1), input)
  }

  ghost function Work(s: (Worker, Shared), input: Input): (Worker, Shared) { WorkerStep(s.0, s.1, input) }

  lemma {:induction false} AloneJoins(w: Worker, sh: Shared, input: Input, a: nat, b: nat)
    ensures var s := Alone(w, sh, input, a); Alone(s.0, s.1, input, b) == Alone(w, sh, input, a + b)
  {
    hide WorkerStep;
    if b > 0 { AloneJoins(w, sh, input, a, b - 1); }
  }

  lemma FirstWork(w: Worker, sh: Shared, input: Input)
    ensures Alone(w, sh, input, 1) == WorkerStep(w, sh, input)
    ensures Alone(w, sh, input, 2) == Work(Alone(w, sh, input, 1), input)
    ensures Alone(w, sh, input, 3) == Work(Alone(w, sh, input, 2), input)
    ensures Alone(w, sh, input, 4) == Work(Alone(w, sh, input, 3), input)
  {
  }

  /** Authority is kept, no time runs out, waits end, and every report is accepted. */
  const Fine: Input := Input(false, false, true, ReportAccepted)

  /** Nobody has canceled the sequence of generation gen, whose record is the current one. */
  ghost predicate Undisturbed(sh: Shared, gen: nat) {
    !sh.cancelRequested && sh.g.canceled != gen && sh.g.status == gen
  }

  /** The worker is about to begin operation n, and has done those before. */
  ghost predicate Ahead(w: Worker, sh: Shared, n: nat) {
    && w.at.LoopFlag? && w.index == n < |sh.plan.ops| && Good(sh.plan) && Undisturbed(sh, w.gen)
    && sh.life.state.Running? && w.hid == StateAfter(sh.plan, n) && sh.run.sent == Reports(sh.plan, n)
  }

  lemma ChecksPass(w: Worker, sh: Shared)
    requires w.at.LoopFlag? && Undisturbed(sh, w.gen)
    ensures Alone(w, sh, Fine, 4) == (w.(at := Execute, canceled := false), sh)
  {
    hide BeginStep, OperationStep, PublishStep, CleanupStep;
    FirstWork(w, sh, Fine);
  }

  lemma OperationPasses(w: Worker, sh: Shared) returns (k: nat)
    requires w.at.Execute? && w.index < |sh.plan.ops| && !sh.cancelRequested
    requires IsHid(sh.plan.ops[w.index]) ==> Transition(sh.plan.ops[w.index], w.hid).Some?
    ensures var (w', sh') := Alone(w, sh, Fine, k);
      var op := sh.plan.ops[w.index];
      var h := if IsHid(op) then Transition(op, w.hid).value else w.hid;
      && w'.at.AfterFlag? && w'.gen == w.gen && w'.index == w.index && w'.hid == h
      && sh' == if IsHid(op) then sh.(run := sh.run.(sent := sh.run.sent + [ReportOf(op, h)])) else sh
  {
    hide Transition, BeginStep, CheckStep, PublishStep, CleanupStep;
    FirstWork(w, sh, Fine);
    var op := sh.plan.ops[w.index];
    k := if op.DefaultDelay? then 1
         else if op.Wait? then 2
         else if w.index + 1 < |sh.plan.ops| then 3 else 2;
  }

  lemma LaterChecksPass(w: Worker, sh: Shared)
    requires w.at.AfterFlag? && w.index < |sh.plan.ops| && Undisturbed(sh, w.gen)
    ensures Alone(w, sh, Fine, 4) == (
              w.(at := if w.index + 1 == |sh.plan.ops| then DoneStatus else ProgressStatus, canceled := false,
                 executed := w.index + 1), sh)
  {
    hide BeginStep, OperationStep, PublishStep, CleanupStep;
    FirstWork(w, sh, Fine);
  }

  lemma CountsOperation(w: Worker, sh: Shared)
    requires (w.at.DoneStatus? || w.at.ProgressStatus?) && sh.g.status == w.gen && sh.life.state.Running?
    ensures var (w', sh') := Alone(w, sh, Fine, 2);
      && w'.gen == w.gen && w'.hid == w.hid
      && (if w.at.ProgressStatus? then
            w'.at.LoopFlag? && w'.index == w.index + 1 && sh' == sh.(life := RunningLife(w.executed))
          else
            w'.at.CleanupRead? && sh' == sh.(life := Life(Completed, w.executed, false, 0, NoCode, false)))
  {
    hide BeginStep, CheckStep, OperationStep, CleanupStep;
    FirstWork(w, sh, Fine);
  }

  lemma ProgressPasses(w: Worker, sh: Shared)
    requires w.at.AfterFlag? && w.index < |sh.plan.ops| && Undisturbed(sh, w.gen) && sh.life.state.Running?
    ensures var (w', sh') := Alone(w, sh, Fine, 6);
      && w'.gen == w.gen && w'.hid == w.hid
      && (if w.index + 1 < |sh.plan.ops| then
            w'.at.LoopFlag? && w'.index == w.index + 1 && sh' == sh.(life := RunningLife(w.index + 1))
          else
            w'.at.CleanupRead? && sh' == sh.(life := Life(Completed, w.index + 1, false, 0, NoCode, false)))
  {
    hide WorkerStep;
    LaterChecksPass(w, sh);
    var s := Alone(w, sh, Fine, 4);
    CountsOperation(s.0, s.1);
    AloneJoins(w, sh, Fine, 4, 2);
  }

  lemma OneOperation(w: Worker, sh: Shared, n: nat) returns (k: nat)
    requires Ahead(w, sh, n)
    ensures var (w', sh') := Alone(w, sh, Fine, k);
      && w'.gen == w.gen && sh'.plan == sh.plan && sh'.g == sh.g && sh'.past == sh.past
      && sh'.run == sh.run.(sent := Reports(sh.plan, n + 1))
      && (if n + 1 < |sh.plan.ops| then Ahead(w', sh', n + 1)
          else w'.at.CleanupRead? && sh'.life == Life(Completed, n + 1, false, 0, NoCode, false))
  {
    hide WorkerStep, Transition, StateAfter, Reports, Good;
    TransitionsSucceed(sh.plan, n);
    ChecksPass(w, sh);
    var s := Alone(w, sh, Fine, 4);
    var m := OperationPasses(s.0, s.1);
    AloneJoins(w, sh, Fine, 4, m);
    var r := Alone(w, sh, Fine, 4 + m);
    if IsHid(sh.plan.ops[n]) { ReportNext(sh.plan, n); } else { PlainOperation(sh.plan, n); }
    ProgressPasses(r.0, r.1);
    AloneJoins(w, sh, Fine, 4 + m, 6);
    k := 4 + m + 6;
  }

  lemma {:induction false} AllOperations(w: Worker, sh: Shared, n: nat) returns (k: nat)
    requires Ahead(w, sh, n)
    ensures var (w', sh') := Alone(w, sh, Fine, k);
      && w'.at.CleanupRead? && w'.gen == w.gen && sh'.plan == sh.plan && sh'.g == sh.g && sh'.past == sh.past
      && sh'.run == sh.run.(sent := Reports(sh.plan, |sh.plan.ops|))
      && sh'.life == Life(Completed, |sh.plan.ops|, false, 0, NoCode, false)
    decreases |sh.plan.ops| - n
  {
    hide WorkerStep, StateAfter, Reports, Good;
    k := OneOperation(w, sh, n);
    var s := Alone(w, sh, Fine, k);
    if n + 1 < |sh.plan.ops| {
      var m := AllOperations(s.0, s.1, n + 1);
      AloneJoins(w, sh, Fine, k, m);
      k := k + m;
    }
  }

  lemma Begins(w: Worker, sh: Shared)
    requires w.at.WorkerIdle? && sh.g.runnable != 0 && sh.g.status == sh.g.runnable && sh.life == Fresh
    ensures var (w', sh') := Alone(w, sh, Fine, 3);
      && w'.at.LoopFlag? && w'.gen == sh.g.runnable && w'.index == 0 && w'.hid == sh.plan.initial
      && sh' == sh.(g := sh.g.(runnable := 0), life := RunningLife(0), run := sh.run.(started := true))
  {
    hide CheckStep, OperationStep, PublishStep, CleanupStep;
    FirstWork(w, sh, Fine);
  }

  lemma CleansUp(w: Worker, sh: Shared, input: Input)
    requires w.at.CleanupRead? && sh.life.state.Completed? && sh.g.reserved == w.gen
    ensures var (w', sh') := Alone(w, sh, input, 3);
      && w'.at.WorkerIdle?
      && sh' == sh.(g := sh.g.(reserved := 0), past := sh.past + [Finished(sh.run, sh.plan, sh.life)])
  {
    hide BeginStep, CheckStep, OperationStep, PublishStep;
    FirstWork(w, sh, input);
  }

  /**
   A sequence that is started and not disturbed completes: the worker executes every operation,
   sends every report, releases nothing, and frees the reservation.
   */
  lemma CompletesAlone(w: Worker, sh: Shared) returns (k: nat)
    requires w.at.WorkerIdle? && sh.g.runnable != 0 && sh.life == Fresh && Good(sh.plan)
    requires sh.g.reserved == sh.g.runnable && Undisturbed(sh, sh.g.runnable)
    requires sh.run == Run(sh.g.runnable, false, [], 0, false)
    ensures var (w', sh') := Alone(w, sh, Fine, k);
      var n := |sh.plan.ops|;
      && w'.at.WorkerIdle? && sh'.g.reserved == 0 && sh'.life == Life(Completed, n, false, 0, NoCode, false)
      && sh'.past == sh.past + [Finished(Run(sh.g.runnable, true, Reports(sh.plan, n), 0, false), sh.plan, sh'.life)]
  {
    hide WorkerStep, Reports, StateAfter, Good;
    Begins(w, sh);
    var s := Alone(w, sh, Fine, 3);
    NothingDone(sh.plan);
    var m := AllOperations(s.0, s.1, 0);
    AloneJoins(w, sh, Fine, 3, m);
    var r := Alone(w, sh, Fine, 3 + m);
    CleansUp(r.0, r.1, Fine);
    AloneJoins(w, sh, Fine, 3 + m, 3);
    k := 3 + m + 3;
  }

  lemma NothingDone(p: Plan)
    requires Good(p)
    ensures |p.ops| > 0 && StateAfter(p, 0) == p.initial && Reports(p, 0) == []
  {
    assert p.ops[..0] == [];
  }

  // ---------------------------------------------------------------- the reasons to stop

  ghost predicate Canceled(sh: Shared, gen: nat) { sh.cancelRequested || sh.g.canceled == gen }

  /** The verdict on operation `index`, with that many done. */
  ghost function Verdict(w: Worker, state: State, code: Code): Life {
    Life(state, w.executed, true, w.index, code, false)
  }

  /**
   Before each operation: a canceled sequence is aborted with that code, one without authority as
   a session mismatch, one that is out of time fails; the first that applies decides.
   */
  lemma StopsBefore(w: Worker, sh: Shared, input: Input) returns (k: nat)
    requires w.at.LoopFlag? && (Canceled(sh, w.gen) || input.authorityLost || input.expired)
    ensures var (w', sh') := Alone(w, sh, input, k);
      && sh' == sh && w'.at.FinalCheck? && w'.gen == w.gen
      && TerminalLife(w', w'.final, w'.failedToken, w'.code) ==
         if Canceled(sh, w.gen) then Verdict(w, Aborted, SequenceAborted)
         else if input.authorityLost then Verdict(w, Aborted, SessionMismatch)
         else Verdict(w, Failed, SequenceTimeout)
  {
    hide BeginStep, OperationStep, PublishStep, CleanupStep;
    FirstWork(w, sh, input);
    k := if sh.cancelRequested then 2 else if Canceled(sh, w.gen) || input.authorityLost then 3 else 4;
  }

  /** After each operation the same, before it is counted as executed. */
  lemma StopsAfter(w: Worker, sh: Shared, input: Input) returns (k: nat)
    requires w.at.AfterFlag? && (Canceled(sh, w.gen) || input.authorityLost || input.expired)
    ensures var (w', sh') := Alone(w, sh, input, k);
      && sh' == sh && w'.at.FinalCheck? && w'.gen == w.gen
      && TerminalLife(w', w'.final, w'.failedToken, w'.code) ==
         if Canceled(sh, w.gen) then Verdict(w, Aborted, SequenceAborted)
         else if input.authorityLost then Verdict(w, Aborted, SessionMismatch)
         else Verdict(w, Failed, SequenceTimeout)
  {
    hide BeginStep, OperationStep, PublishStep, CleanupStep;
    FirstWork(w, sh, input);
    k := if sh.cancelRequested then 2 else if Canceled(sh, w.gen) || input.authorityLost then 3 else 4;
  }

  /** A report that is not accepted, unless it was busy and may be tried again, ends the sequence with its code. */
  lemma ReportFails(w: Worker, sh: Shared, input: Input) returns (k: nat)
    requires w.at.Reporting? && w.index < |sh.plan.ops|
    requires !input.report.ReportAccepted? && (input.report.ReportBusy? ==> input.expired)
    ensures var (w', sh') := Alone(w, sh, input, k);
      && sh' == sh && w'.at.FinalCheck? && w'.gen == w.gen
      && TerminalLife(w', w'.final, w'.failedToken, w'.code) ==
         if Canceled(sh, w.gen) then Verdict(w, Aborted, SequenceAborted)
         else if input.authorityLost then Verdict(w, Aborted, SessionMismatch)
         else
           Verdict(w, Failed,
             match input.report
             case ReportBusy => HidBusy
             case ReportSafetyPending => HidSafetyPending
             case ReportAuthorityLost => SessionMismatch
             case _ => HidNotReady)
  {
    hide BeginStep, PublishStep, CleanupStep;
    FirstWork(w, sh, input);
    k := if sh.cancelRequested then 3 else 4;
  }

  /** A busy report is tried again, with the same state. */
  lemma BusyIsRetried(w: Worker, sh: Shared, input: Input)
    requires w.at.Reporting? && w.index < |sh.plan.ops| && input.report.ReportBusy? && !input.expired
    requires !sh.cancelRequested && !input.authorityLost && input.waited
    ensures Alone(w, sh, input, 2) == (w, sh)
  {
    hide BeginStep, CheckStep, PublishStep, CleanupStep;
    FirstWork(w, sh, input);
  }

  /** A wait that is cut short ends the sequence: canceled, without authority, or out of time. */
  lemma WaitFails(w: Worker, sh: Shared, input: Input) returns (k: nat)
    requires w.at.WaitDelay? && w.index < |sh.plan.ops| && w.failure.NoCode?
    requires sh.cancelRequested || input.authorityLost || input.expired
    ensures var (w', sh') := Alone(w, sh, input, k);
      && sh' == sh && w'.at.FinalCheck? && w'.gen == w.gen
      && TerminalLife(w', w'.final, w'.failedToken, w'.code) ==
         if Canceled(sh, w.gen) then Verdict(w, Aborted, SequenceAborted)
         else if input.authorityLost then Verdict(w, Aborted, SessionMismatch)
         else Verdict(w, Failed, SequenceTimeout)
  {
    hide BeginStep, PublishStep, CleanupStep;
    FirstWork(w, sh, input);
    k := if sh.cancelRequested then 3 else 4;
  }

  lemma ClaimsTerminal(w: Worker, sh: Shared, input: Input)
    requires w.at.FinalCheck? && sh.life.state.Running? && sh.g.status == w.gen
    ensures Alone(w, sh, input, 3)
            == (w.(at := CleanupRead), sh.(life := TerminalLife(w, w.final, w.failedToken, w.code)))
  {
    hide BeginStep, CheckStep, OperationStep, CleanupStep;
    FirstWork(w, sh, input);
  }

  lemma ReleasesAndFrees(w: Worker, sh: Shared, input: Input)
    requires w.at.CleanupRead? && !sh.life.state.Completed? && !sh.life.owned && sh.g.reserved == w.gen
    ensures var (w', sh') := Alone(w, sh, input, 4);
      w'.at.WorkerIdle? && sh'.g.reserved == 0 && sh'.run.releases == sh.run.releases + 1 && sh'.life == sh.life
  {
    hide BeginStep, CheckStep, OperationStep, PublishStep;
    FirstWork(w, sh, input);
  }

  /** The verdict is published if the sequence is still running, and then the worker asks for a safety release. */
  lemma VerdictIsPublished(w: Worker, sh: Shared, input: Input)
    requires w.at.FinalCheck? && sh.life.state.Running? && sh.g.status == w.gen && sh.g.reserved == w.gen
    requires w.final.Failed? || w.final.Aborted?
    ensures var (w', sh') := Alone(w, sh, input, 7);
      && w'.at.WorkerIdle? && sh'.g.reserved == 0 && sh'.run.releases == sh.run.releases + 1
      && sh'.life == TerminalLife(w, w.final, w.failedToken, w.code)
  {
    hide WorkerStep;
    ClaimsTerminal(w, sh, input);
    var s := Alone(w, sh, input, 3);
    ReleasesAndFrees(s.0, s.1, input);
    AloneJoins(w, sh, input, 3, 4);
  }

  /**
   A sequence that was aborted before the worker came to it sends nothing: the worker asks for a
   safety release unless the abort was for a release, and frees the reservation.
   */
  lemma AbortedBeforeItRuns(w: Worker, sh: Shared, input: Input) returns (k: nat)
    requires w.at.WorkerIdle? && sh.g.runnable != 0 && sh.g.reserved == sh.g.runnable
    requires sh.g.status == sh.g.runnable && sh.life.state.Aborted?
    ensures var (w', sh') := Alone(w, sh, input, k);
      && w'.at.WorkerIdle? && sh'.g.reserved == 0 && sh'.life == sh.life && sh'.run.sent == sh.run.sent
      && sh'.run.started == sh.run.started
      && sh'.run.releases == sh.run.releases + if sh.life.owned then 0 else 1
  {
    hide WorkerStep;
    FindsAborted(w, sh, input);
    var s := Alone(w, sh, input, 4);
    k := if sh.life.owned then 6 else 7;
    FreesReservation(s.0, s.1, input);
    AloneJoins(w, sh, input, 4, k - 4);
  }

  lemma FindsAborted(w: Worker, sh: Shared, input: Input)
    requires w.at.WorkerIdle? && sh.g.runnable != 0 && sh.g.status == sh.g.runnable && sh.life.state.Aborted?
    ensures var (w', sh') := Alone(w, sh, input, 4);
      && w'.gen == sh.g.runnable && sh' == sh.(g := sh.g.(runnable := 0))
      && w'.at == if sh.life.owned then CleanupEnd else CleanupRelease
  {
    hide CheckStep, OperationStep, PublishStep, CleanupStep;
    FirstWork(w, sh, input);
  }

  lemma FreesReservation(w: Worker, sh: Shared, input: Input)
    requires (w.at.CleanupEnd? || w.at.CleanupRelease?) && sh.g.reserved == w.gen
    ensures var (w', sh') := Alone(w, sh, input, if w.at.CleanupEnd? then 2 else 3);
      && w'.at.WorkerIdle? && sh'.g == sh.g.(reserved := 0) && sh'.life == sh.life
      && sh'.run == sh.run.(releases := sh.run.releases + if w.at.CleanupEnd? then 0 else 1)
  {
    hide BeginStep, CheckStep, OperationStep, PublishStep;
    FirstWork(w, sh, input);
  }

  /** A sequence whose record was withdrawn before the worker came to it is only taken down. */
  lemma WithdrawnBeforeItRuns(w: Worker, sh: Shared, input: Input)
    requires w.at.WorkerIdle? && sh.g.runnable != 0 && sh.g.reserved == sh.g.runnable && sh.g.status != sh.g.runnable
    ensures var (w', sh') := Alone(w, sh, input, 4);
      && w'.at.WorkerIdle? && sh'.g == sh.g.(runnable := 0, reserved := 0)
      && sh'.life == sh.life && sh'.run == sh.run
  {
    hide CheckStep, OperationStep, PublishStep;
    FirstWork(w, sh, input);
  }
}
