/**
 The sequence controller of firmware/components/hid_sequence/hid_sequence.cpp as two tasks that
 interleave at every atomic access: the control task starts, aborts, releases and retires
 sequences, the worker runs them.  Compare-and-swap loops are one step each; the backend, the
 clock and the admission decision are inputs of the steps.
 */
module SequenceRace {
  import opened SequenceKeys
  import opened SequenceText
  import opened SequenceParser
  import opened SequenceStatus

  /** The packed word as the tasks see it; `SequenceRaceSafety.WordFits` shows that it packs without loss. */
  datatype Life = Life(state: State, executed: nat, failed: bool, failedToken: nat, code: Code, owned: bool)

  const Fresh: Life := Life(Accepted, 0, false, 0, NoCode, false)

  function RunningLife(executed: nat): Life { Life(Running, executed, false, 0, NoCode, false) }

  function AbortedLife(executed: nat, owned: bool): Life {
    Life(Aborted, executed, true, executed, SequenceAborted, owned)
  }

  datatype Report = KeyboardReport(modifiers: bv8, keys: seq<nat>) | MouseReport(buttons: bv8)

  function ReportOf(op: Operation, h: Hid): Report {
    if op.KeyPress? || op.KeyRelease? then KeyboardReport(h.modifiers, h.keys) else MouseReport(h.buttons)
  }

  /** What parse guarantees of a plan. */
  ghost predicate Good(p: Plan) {
    1 <= |p.ops| <= MAXIMUM_TOKENS && Simulated(p.initial, p.ops).Some?
  }

  // ---------------------------------------------------------------- shared fields

  /** Aux: what has happened in the sequence of this generation. */
  datatype Run = Run(gen: nat, started: bool, sent: seq<Report>, releases: nat, won: bool)

  /** Aux: a sequence the worker is done with. */
  datatype Finished = Finished(run: Run, plan: Plan, life: Life)

  datatype Gens = Gens(
    next: nat,         // next_generation_; 0 once exhausted
    reserved: nat,     // reserved_generation_
    runnable: nat,     // runnable_generation_
    canceled: nat,     // canceled_generation_
    status: nat,       // status_generation_
    owner: nat)        // status_owner_low_ and status_owner_high_

  datatype Shared = Shared(
    g: Gens,
    life: Life,               // status_word_
    cancelRequested: bool,    // cancel_requested_
    plan: Plan,               // plan_
    run: Run,                 // aux
    past: seq<Finished>)      // aux

  const LAST_GENERATION := 0xffff_ffff

  // ---------------------------------------------------------------- the control task

  datatype ControlAt =
    | ControlIdle
    | StartReserve | StartAdmit | StartFlag | StartWithdraw | StartLife | StartPublish | StartRunnable
    | AbortCheck | AbortCancel | AbortRecheck | AbortRevoke | AbortStatus | AbortLife | AbortFlag
    | AbortNothing
    | ReleaseNothing | ReleaseStatus | ReleaseLife | ReleaseCancel | ReleaseRevoke | ReleaseFlag | ReleaseDone
    | RetireSwap

  /** `ok` is the answer of the last start (accepted) or abort_for_release. */
  datatype Control = Control(at: ControlAt, gen: nat, owner: nat, ok: bool)

  datatype Call = CallStart(owner: nat) | CallAbort | CallAbortForRelease | CallRetireOwner(owner: nat)

  function Allocate(next: nat): nat { if next == LAST_GENERATION then 0 else next + 1 }

  function CallStep(c: Control, sh: Shared, call: Call): (Control, Shared) {
    var g := sh.g;
    match call
    case CallStart(owner) =>
      if owner == 0 || g.next == 0 then (c.(ok := false), sh)
      else (Control(StartReserve, g.next, owner, false), sh.(g := g.(next := Allocate(g.next))))
    case CallAbort =>
      (c.(at := if g.reserved == 0 then AbortNothing else AbortCheck, gen := g.reserved), sh)
    case CallAbortForRelease =>
      (c.(at := if g.reserved == 0 then ReleaseNothing else ReleaseStatus, gen := g.reserved), sh)
    case CallRetireOwner(owner) =>
      if owner == 0 || g.status == 0 || g.owner != owner then (c, sh)
      else (c.(at := RetireSwap, gen := g.status), sh)
  }

  /** `admitted` is the plan, if the backend, parse and the role check all accept. */
  ghost function StartStep(c: Control, sh: Shared, admitted: Option<Plan>): (Control, Shared) {
    var g := sh.g;
    match c.at
    case StartReserve =>
      if g.reserved != 0 then (c.(at := ControlIdle), sh)
      else (c.(at := StartAdmit), sh.(g := g.(reserved := c.gen)))
    case StartAdmit =>
      if admitted.None? || !Good(admitted.value) then (c.(at := ControlIdle), sh.(g := g.(reserved := 0)))
      else (c.(at := StartFlag), sh.(plan := admitted.value))
    case StartFlag => (c.(at := StartWithdraw), sh.(cancelRequested := g.canceled == c.gen))
    case StartWithdraw => (c.(at := StartLife), sh.(g := g.(status := 0)))
    case StartLife =>
      (c.(at := StartPublish), sh.(life := Fresh, g := g.(owner := c.owner), run := Run(c.gen, false, [], 0, false)))
    case StartPublish => (c.(at := StartRunnable), sh.(g := g.(status := c.gen)))
    case StartRunnable => (c.(at := ControlIdle, ok := true), sh.(g := g.(runnable := c.gen)))
    case _ => (c, sh)
  }

  predicate Live(life: Life) { life.state.Accepted? || life.state.Running? }

  function AbortStep(c: Control, sh: Shared): (Control, Shared) {
    var g := sh.g;
    match c.at
    case AbortNothing => (c.(at := ControlIdle), sh.(cancelRequested := true))
    case AbortCheck => (c.(at := if g.reserved != c.gen then ControlIdle else AbortCancel), sh)
    case AbortCancel => (c.(at := AbortRecheck), sh.(g := g.(canceled := c.gen)))
    case AbortRecheck => (c.(at := if g.reserved != c.gen then ControlIdle else AbortRevoke), sh)
    case AbortRevoke => (c.(at := AbortStatus), sh)
    case AbortStatus => (c.(at := if g.status == c.gen then AbortLife else AbortFlag), sh)
    case AbortLife =>
      (c.(at := AbortFlag), if Live(sh.life) then sh.(life := AbortedLife(sh.life.executed, false)) else sh)
    case AbortFlag => (c.(at := ControlIdle), sh.(cancelRequested := true))
    case RetireSwap => (c.(at := AbortCheck), if g.status == c.gen then sh.(g := g.(status := 0)) else sh)
    case _ => (c, sh)
  }

  function ReleaseStep(c: Control, sh: Shared): (Control, Shared) {
    var g := sh.g;
    match c.at
    case ReleaseNothing => (c.(at := ReleaseDone, ok := true), sh.(cancelRequested := true))
    case ReleaseStatus =>
      if g.status != c.gen then (c.(at := ReleaseDone, ok := false), sh) else (c.(at := ReleaseLife), sh)
    case ReleaseLife =>
      if Live(sh.life) then
        (c.(at := ReleaseCancel),
         sh.(life := AbortedLife(sh.life.executed, true), run := sh.run.(won := true)))
      else
        (c.(at := ReleaseDone,
            ok := sh.life.state.Completed? || (sh.life.state.Aborted? && sh.life.owned)), sh)
    case ReleaseCancel => (c.(at := ReleaseRevoke), sh.(g := g.(canceled := c.gen)))
    case ReleaseRevoke => (c.(at := ReleaseFlag), sh)
    case ReleaseFlag => (c.(at := ReleaseDone, ok := true), sh.(cancelRequested := true))
    case ReleaseDone => (c.(at := ControlIdle), sh)
    case _ => (c, sh)
  }

  ghost predicate Starting(at: ControlAt) {
    at.StartAdmit? || at.StartFlag? || at.StartWithdraw? || at.StartLife? || at.StartPublish?
    || at.StartRunnable?
  }

  ghost predicate Releasing(at: ControlAt) {
    at.ReleaseNothing? || at.ReleaseStatus? || at.ReleaseLife? || at.ReleaseCancel? || at.ReleaseRevoke?
    || at.ReleaseFlag? || at.ReleaseDone?
  }

  ghost function ControlStep(c: Control, sh: Shared, call: Call, admitted: Option<Plan>): (Control, Shared) {
    if c.at.ControlIdle? then CallStep(c, sh, call)
    else if c.at.StartReserve? || Starting(c.at) then StartStep(c, sh, admitted)
    else if Releasing(c.at) then ReleaseStep(c, sh)
    else AbortStep(c, sh)
  }

  // ---------------------------------------------------------------- the worker

  datatype ReportResult = ReportAccepted | ReportBusy | ReportNotReady | ReportSafetyPending | ReportAuthorityLost

  /** What the clock and the backend answer to one step of the worker. */
  datatype Input = Input(authorityLost: bool, expired: bool, waited: bool, report: ReportResult)

  datatype WorkerAt =
    | WorkerIdle
    | RunCheck | RunBegin | RunLost
    | LoopFlag | LoopCanceled | LoopAuthority | LoopDeadline
    | Execute | Reporting | WaitRetry | WaitDelay
    | FailFlag | FailCanceled | FailAuthority
    | AfterFlag | AfterCanceled | AfterAuthority | AfterDeadline
    | ProgressStatus | ProgressLife
    | DoneStatus | DoneLife
    | FinalCheck | FinalStatus | FinalLife
    | CleanupRead | CleanupRelease | CleanupEnd | CleanupFree

  /** `pause` is what wait_local is called with. */
  datatype Worker = Worker(
    at: WorkerAt, gen: nat, index: nat, executed: nat, hid: Hid, delay: nat, pause: nat, canceled: bool, failure: Code,
    final: State, code: Code, failedToken: nat, published: Life)

  predicate Cleaning(at: WorkerAt) { at.CleanupRead? || at.CleanupRelease? || at.CleanupEnd? || at.CleanupFree? }

  /** The thread leaves the loop with a verdict on token `index`. */
  function Stop(w: Worker, final: State, code: Code): Worker {
    w.(at := FinalCheck, final := final, code := code, failedToken := w.index)
  }

  function StopAborted(w: Worker): Worker {
    Stop(w, Aborted, if w.canceled then SequenceAborted else SessionMismatch)
  }

  function BeginStep(w: Worker, sh: Shared): (Worker, Shared) {
    match w.at
    case WorkerIdle =>
      if sh.g.runnable == 0 then (w, sh)
      else (w.(at := RunCheck, gen := sh.g.runnable), sh.(g := sh.g.(runnable := 0)))
    case RunCheck => (w.(at := if sh.g.status != w.gen then CleanupEnd else RunBegin), sh)
    case RunBegin =>
      if sh.life == Fresh then
        (w.(at := LoopFlag, index := 0, executed := 0, hid := sh.plan.initial, delay := 0, pause := 0,
            failure := NoCode, final := Completed, code := NoCode, failedToken := 0),
         sh.(life := RunningLife(0), run := sh.run.(started := true)))
      else (w.(at := RunLost, published := sh.life), sh)
    case RunLost =>
      (w.(at := if sh.g.status == w.gen && w.published.state.Aborted? && !w.published.owned
                then CleanupRelease else CleanupEnd), sh)
    case _ => (w, sh)
  }

  /** The three rounds of cancellation and authority checks. */
  function CheckStep(w: Worker, sh: Shared, input: Input): Worker {
    match w.at
    case LoopFlag =>
      w.(at := if sh.cancelRequested then LoopAuthority else LoopCanceled, canceled := sh.cancelRequested)
    case LoopCanceled => w.(at := LoopAuthority, canceled := sh.g.canceled == w.gen)
    case LoopAuthority => if w.canceled || input.authorityLost then StopAborted(w) else w.(at := LoopDeadline)
    case LoopDeadline => if input.expired then Stop(w, Failed, SequenceTimeout) else w.(at := Execute)
    case AfterFlag =>
      w.(at := if sh.cancelRequested then AfterAuthority else AfterCanceled, canceled := sh.cancelRequested)
    case AfterCanceled => w.(at := AfterAuthority, canceled := sh.g.canceled == w.gen)
    case AfterAuthority => if w.canceled || input.authorityLost then StopAborted(w) else w.(at := AfterDeadline)
    case AfterDeadline =>
      if input.expired then Stop(w, Failed, SequenceTimeout)
      else w.(executed := w.index + 1,
              at := if w.index + 1 == |sh.plan.ops| then DoneStatus else ProgressStatus)
    case FailFlag =>
      w.(at := if sh.cancelRequested then FailAuthority else FailCanceled, canceled := sh.cancelRequested)
    case FailCanceled => w.(at := FailAuthority, canceled := sh.g.canceled == w.gen)
    case FailAuthority =>
      if w.canceled || input.authorityLost then StopAborted(w)
      else Stop(w, Failed, if w.failure.NoCode? then SequenceTimeout else w.failure)
    case _ => w
  }

  function FailureOf(result: ReportResult): Code {
    match result
    case ReportBusy => HidBusy
    case ReportSafetyPending => HidSafetyPending
    case ReportAuthorityLost => SessionMismatch
    case _ => HidNotReady
  }

  function OperationStep(w: Worker, sh: Shared, input: Input): (Worker, Shared) {
    if w.index >= |sh.plan.ops| then (w, sh) else
      var op := sh.plan.ops[w.index];
      match w.at
      case Execute =>
        if op.DefaultDelay? then (w.(at := AfterFlag, delay := op.ms), sh)
        else if op.Wait? then (w.(at := WaitDelay, pause := op.ms), sh)
        else
          var h := Transition(op, w.hid);
          (w.(at := Reporting, hid := if h.Some? then h.value else w.hid), sh)
      case Reporting =>
        if input.report.ReportAccepted? then
          (if w.index + 1 < |sh.plan.ops| then w.(at := WaitDelay, pause := w.delay) else w.(at := AfterFlag),
           sh.(run := sh.run.(sent := sh.run.sent + [ReportOf(op, w.hid)])))
        else if !input.report.ReportBusy? || input.expired then
          (w.(at := FailFlag, failure := FailureOf(input.report)), sh)
        else (w.(at := WaitRetry), sh)
      case WaitRetry =>
        (w.(at := if sh.cancelRequested || input.authorityLost || input.expired then FailFlag
                  else if input.waited then Reporting else WaitRetry), sh)
      case WaitDelay =>
        (w.(at := if sh.cancelRequested || input.authorityLost || input.expired then FailFlag
                  else if input.waited then AfterFlag else WaitDelay), sh)
      case _ => (w, sh)
  }

  function TerminalLife(w: Worker, state: State, failedToken: nat, code: Code): Life {
    Life(state, w.executed, !state.Completed?, failedToken, code, false)
  }

  function PublishStep(w: Worker, sh: Shared): (Worker, Shared) {
    match w.at
    case ProgressStatus => (w.(at := if sh.g.status != w.gen then FinalCheck else ProgressLife), sh)
    case ProgressLife =>
      if sh.life.state.Running? then
        (w.(at := LoopFlag, index := w.index + 1), sh.(life := RunningLife(w.executed)))
      else (w.(at := FinalCheck), sh)
    case DoneStatus => (w.(at := if sh.g.status != w.gen then FinalCheck else DoneLife), sh)
    case DoneLife =>
      if sh.life.state.Running? then
        (w.(at := CleanupRead), sh.(life := TerminalLife(w, Completed, 0, NoCode)))
      else (w.(at := FinalCheck), sh)
    case FinalCheck => (w.(at := if Terminal(sh.life.state) then CleanupRead else FinalStatus), sh)
    case FinalStatus => (w.(at := if sh.g.status != w.gen then CleanupRead else FinalLife), sh)
    case FinalLife =>
      (w.(at := CleanupRead),
       if sh.life.state.Running? then sh.(life := TerminalLife(w, w.final, w.failedToken, w.code)) else sh)
    case _ => (w, sh)
  }

  function CleanupStep(w: Worker, sh: Shared): (Worker, Shared) {
    match w.at
    case CleanupRead =>
      (w.(published := sh.life,
          at := if !sh.life.state.Completed? && !sh.life.owned then CleanupRelease else CleanupEnd), sh)
    case CleanupRelease => (w.(at := CleanupEnd), sh.(run := sh.run.(releases := sh.run.releases + 1)))
    case CleanupEnd => (w.(at := CleanupFree), sh)
    case CleanupFree =>
      (w.(at := WorkerIdle),
       sh.(g := if sh.g.reserved == w.gen then sh.g.(reserved := 0) else sh.g,
           past := sh.past + [Finished(sh.run, sh.plan, sh.life)]))
    case _ => (w, sh)
  }

  predicate Beginning(at: WorkerAt) { at.WorkerIdle? || at.RunCheck? || at.RunBegin? || at.RunLost? }

  predicate Checking(at: WorkerAt) {
    at.LoopFlag? || at.LoopCanceled? || at.LoopAuthority? || at.LoopDeadline?
    || at.AfterFlag? || at.AfterCanceled? || at.AfterAuthority? || at.AfterDeadline?
    || at.FailFlag? || at.FailCanceled? || at.FailAuthority?
  }

  predicate Operating(at: WorkerAt) { at.Execute? || at.Reporting? || at.WaitRetry? || at.WaitDelay? }

  predicate Publishing(at: WorkerAt) {
    at.ProgressStatus? || at.ProgressLife? || at.DoneStatus? || at.DoneLife?
    || at.FinalCheck? || at.FinalStatus? || at.FinalLife?
  }

  function WorkerStep(w: Worker, sh: Shared, input: Input): (Worker, Shared) {
    if Beginning(w.at) then BeginStep(w, sh)
    else if Checking(w.at) then (CheckStep(w, sh, input), sh)
    else if Operating(w.at) then OperationStep(w, sh, input)
    else if Publishing(w.at) then PublishStep(w, sh)
    else CleanupStep(w, sh)
  }

  // ---------------------------------------------------------------- runs

  datatype World = World(c: Control, w: Worker, sh: Shared)

  const NoHid: Hid := Hid(0, [0, 0, 0, 0, 0, 0], 0)

  const InitWorld: World := World(
    Control(ControlIdle, 0, 0, false),
    Worker(WorkerIdle, 0, 0, 0, NoHid, 0, 0, false, NoCode, Completed, NoCode, 0, Fresh),
    Shared(Gens(1, 0, 0, 0, 0, 0), Fresh, false, Plan([], 0, false, false, NoHid), Run(0, false, [], 0, false), []))

  datatype Event =
    | ControlMoves(call: Call, admitted: Option<Plan>)
    | WorkerMoves(input: Input)

  ghost function Next(s: World, e: Event): World {
    match e
    case ControlMoves(call, admitted) =>
      var (c, sh) := ControlStep(s.c, s.sh, call, admitted);
      World(c, s.w, sh)
    case WorkerMoves(input) =>
      var (w, sh) := WorkerStep(s.w, s.sh, input);
      World(s.c, w, sh)
  }

  ghost predicate IsRun(run: seq<World>, events: seq<Event>) {
    && |run| == |events| + 1 && run[0] == InitWorld
    && forall i :: 0 <= i < |events| ==> run[i + 1] == Next(run[i], events[i])
  }
}
