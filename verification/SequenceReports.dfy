/**
 What a sequence sends and how long it waits: every report shows the keys, modifiers or buttons
 that are down after its operation, and every pause is the one the plan was admitted with.
 */
module SequenceReports {
  import opened SequenceKeys
  import opened SequenceText
  import opened SequenceParser
  import opened SequenceStatus
  import opened SequenceRace
  import opened SequenceRaceSafety

  // ---------------------------------------------------------------- what is down

  /** Modifier k of a report: bit 0 is usage 224, the left control key. */
  predicate ModifierDown(bits: bv8, k: nat) {
    || (k == 0 && bits & 0x01 != 0) || (k == 1 && bits & 0x02 != 0)
    || (k == 2 && bits & 0x04 != 0) || (k == 3 && bits & 0x08 != 0)
    || (k == 4 && bits & 0x10 != 0) || (k == 5 && bits & 0x20 != 0)
    || (k == 6 && bits & 0x40 != 0) || (k == 7 && bits & 0x80 != 0)
  }

  /** Usage u is down: a modifier by its bit, any other key by its slot. */
  predicate Down(modifiers: bv8, keys: seq<nat>, u: nat) {
    if 224 <= u <= 231 then ModifierDown(modifiers, u - 224) else u in keys
  }

  lemma ModifierMoves(bits: bv8, u: nat, v: nat, on: bool)
    requires ModifierUsage(u) && ModifierUsage(v)
    ensures ModifierDown(WithBits(bits, ModifierBit(u), on), v - 224) <==>
            if v == u then on else ModifierDown(bits, v - 224)
  {
    ModifierBitIs(u);
  }

  lemma ModifierBitIs(u: nat)
    requires ModifierUsage(u)
    ensures ModifierBit(u) ==
            if u == 224 then 1 else if u == 225 then 2 else if u == 226 then 4 else if u == 227 then 8
            else if u == 228 then 16 else if u == 229 then 32 else if u == 230 then 64 else 128
  {
  }

  predicate KeyUsage(u: nat) { OrdinaryUsage(u) || ModifierUsage(u) }

  /**
   Pressing a key puts it down, releasing it lets it up, and neither moves any other key or any
   mouse button.
   */
  lemma KeyMovesAlone(op: Operation, h: Hid, v: nat)
    requires Canonical(h.keys) && (op.KeyPress? || op.KeyRelease?) && KeyUsage(op.usage) && KeyUsage(v)
    requires Transition(op, h).Some?
    ensures var h' := Transition(op, h).value;
      && h'.buttons == h.buttons
      && (Down(h'.modifiers, h'.keys, v) <==> if v == op.usage then op.KeyPress? else Down(h.modifiers, h.keys, v))
  {
    hide ModifierBit, WithBits, ModifierDown, Canonical, Pressed, Released;
    TransitionRefinesSets(op, h);
    if ModifierUsage(op.usage) && ModifierUsage(v) { ModifierMoves(h.modifiers, op.usage, v, op.KeyPress?); }
    var h' := Transition(op, h).value;
    if !ModifierUsage(v) {
      assert v in h.keys <==> v in KeySet(h.keys);
      assert v in h'.keys <==> v in KeySet(h'.keys);
    }
  }

  /** The buttons of a mouse token by their bits: left, right, middle, back, forward. */
  lemma ButtonTokens()
    ensures PrintOp(MousePress(0x01)) == "mpL" && PrintOp(MousePress(0x02)) == "mpR"
    ensures PrintOp(MousePress(0x04)) == "mpM" && PrintOp(MousePress(0x08)) == "mpB"
    ensures PrintOp(MousePress(0x10)) == "mpF" && PrintOp(MouseRelease(0x01)) == "mrL"
  {
  }

  // ---------------------------------------------------------------- the reports of a plan

  predicate Reported(op: Operation) { op.KeyPress? || op.KeyRelease? || op.MousePress? || op.MouseRelease? }

  /** How many of the first n operations are reported. */
  ghost function ReportsBefore(ops: seq<Operation>, n: nat): nat
    requires n <= |ops|
  {
    if n == 0 then 0
    else ReportsBefore(ops, n - 1) + if Reported(ops[n - 1]) then 1 else 0
  }

  /** A report of the state h: its modifiers and keys for a key operation, its buttons for a mouse operation. */
  ghost predicate Shows(report: Report, op: Operation, h: Hid) {
    if op.KeyPress? || op.KeyRelease? then
      report.KeyboardReport? && report.modifiers == h.modifiers && report.keys == h.keys
    else
      report.MouseReport? && report.buttons == h.buttons
  }

  /** The reports of the first n operations: one for each reported one, in order, of the state after it. */
  lemma {:induction false} ReportsShowStates(p: Plan, n: nat, m: nat)
    requires n <= |p.ops|
    ensures |Reports(p, n)| == ReportsBefore(p.ops, n)
    ensures m < n && Reported(p.ops[m]) ==>
              var at := ReportsBefore(p.ops, m);
              at < |Reports(p, n)| && Shows(Reports(p, n)[at], p.ops[m], StateAfter(p, m + 1))
  {
    hide StateAfter;
    if n > 0 {
      ReportsShowStates(p, n - 1, m);
      if m == n - 1 { ReportsShowStates(p, n - 1, 0); }
    }
  }

  /**
   A completed sequence has sent one report for every key or mouse operation of its plan, in the
   order of the plan, and each shows the state that its operation leads to.
   */
  lemma CompletedSendsStates(run: seq<World>, events: seq<Event>, i: nat, k: nat, m: nat)
    requires IsRun(run, events) && i < |run| && k < |run[i].sh.past|
    requires var f := run[i].sh.past[k]; f.life.state.Completed? && m < |f.plan.ops| && Reported(f.plan.ops[m])
    ensures var f := run[i].sh.past[k];
      var at := ReportsBefore(f.plan.ops, m);
      && |f.run.sent| == ReportsBefore(f.plan.ops, |f.plan.ops|) && at < |f.run.sent|
      && Shows(f.run.sent[at], f.plan.ops[m], StateAfter(f.plan, m + 1))
  {
    EverySequenceEndsWell(run, events, i, k);
    ReportsShowStates(run[i].sh.past[k].plan, |run[i].sh.past[k].plan.ops|, m);
  }

  /** In a plan from a canonical state, the report of a key operation shows that key pressed or released. */
  lemma ReportShowsKey(p: Plan, m: nat)
    requires Good(p) && AllValid(p.ops) && Canonical(p.initial.keys)
    requires m < |p.ops| && (p.ops[m].KeyPress? || p.ops[m].KeyRelease?)
    ensures var all, at := Reports(p, |p.ops|), ReportsBefore(p.ops, m);
      && at < |all| && all[at].KeyboardReport?
      && (Down(all[at].modifiers, all[at].keys, p.ops[m].usage) <==> p.ops[m].KeyPress?)
  {
    hide StateAfter, Transition, Down, Reports, ReportsBefore;
    ReportsShowStates(p, |p.ops|, m);
    TransitionsSucceed(p, m);
    StateIsCanonical(p, m);
    KeyMovesAlone(p.ops[m], StateAfter(p, m), p.ops[m].usage);
  }

  lemma StateIsCanonical(p: Plan, m: nat)
    requires Good(p) && AllValid(p.ops) && Canonical(p.initial.keys) && m <= |p.ops|
    ensures Canonical(StateAfter(p, m).keys)
  {
    FailureLasts(p.initial, p.ops, m);
    PlanKeepsCanonical(p.initial, p.ops[..m]);
  }

  // ---------------------------------------------------------------- pauses

  /** The default delay in force, and the pause that is being waited for. */
  ghost predicate PausesOk(w: Worker, sh: Shared) {
    match w.at
    case LoopFlag | LoopCanceled | LoopAuthority | LoopDeadline | Execute | Reporting | WaitRetry =>
      && w.index < |sh.plan.ops| && w.delay == DelayAfter(sh.plan.ops[..w.index])
      && (w.at.Reporting? || w.at.WaitRetry? ==> IsHid(sh.plan.ops[w.index]))
    case WaitDelay =>
      && w.index < |sh.plan.ops| && w.delay == DelayAfter(sh.plan.ops[..w.index + 1])
      && w.pause == Pause(sh.plan.ops, w.index)
    case AfterFlag | AfterCanceled | AfterAuthority | AfterDeadline | ProgressStatus | ProgressLife =>
      w.index < |sh.plan.ops| && w.delay == DelayAfter(sh.plan.ops[..w.index + 1])
    case _ => true
  }

  lemma DelayNext(ops: seq<Operation>, n: nat)
    requires n < |ops|
    ensures DelayAfter(ops[..n + 1]) == if ops[n].DefaultDelay? then ops[n].ms else DelayAfter(ops[..n])
  {
    assert ops[..n + 1][..n] == ops[..n];
  }

  lemma BeginPauses(w: Worker, sh: Shared)
    requires Beginning(w.at) && (w.at.RunBegin? ==> 1 <= |sh.plan.ops|)
    ensures var (w', sh') := BeginStep(w, sh); PausesOk(w', sh')
  {
    hide DelayAfter;
    NoDelayFirst(sh.plan.ops);
    var (w', sh') := BeginStep(w, sh);
    if w'.at.LoopFlag? { assert w'.delay == DelayAfter(sh'.plan.ops[..w'.index]); }
  }

  lemma OperationPauses(w: Worker, sh: Shared, input: Input)
    requires PausesOk(w, sh) && Operating(w.at)
    ensures var (w', sh') := OperationStep(w, sh, input); PausesOk(w', sh')
  {
    hide Transition, DelayAfter;
    DelayNext(sh.plan.ops, w.index);
  }

  lemma OtherPauses(w: Worker, sh: Shared, input: Input)
    requires PausesOk(w, sh) && !Beginning(w.at) && !Operating(w.at)
    requires w.at.ProgressLife? ==> w.index + 1 < |sh.plan.ops|
    ensures var (w', sh') := WorkerStep(w, sh, input); PausesOk(w', sh')
  {
    hide DelayAfter, BeginStep, OperationStep;
    if Checking(w.at) { hide PublishStep, CleanupStep; } else { hide CheckStep; }
  }

  lemma WorkerPauses(w: Worker, sh: Shared, input: Input)
    requires PausesOk(w, sh) && (w.at.RunBegin? ==> 1 <= |sh.plan.ops|)
    requires w.at.ProgressLife? ==> w.index + 1 < |sh.plan.ops|
    ensures var (w', sh') := WorkerStep(w, sh, input); PausesOk(w', sh')
  {
    hide PausesOk, BeginStep, OperationStep, CheckStep, PublishStep, CleanupStep;
    if Beginning(w.at) { BeginPauses(w, sh); }
    else if Operating(w.at) { OperationPauses(w, sh, input); }
    else { OtherPauses(w, sh, input); }
  }

  /** What the invariant says of the index. */
  lemma IndexInPlan(s: World)
    requires Inv(s)
    ensures s.w.at.RunBegin? ==> 1 <= |s.sh.plan.ops|
    ensures s.w.at.ProgressLife? ==> s.w.index + 1 < |s.sh.plan.ops|
  {
    hide Outcome, Reports, StateAfter, Simulated, Bounded;
    if !s.w.at.WorkerIdle? { GoodPlan(s); }
  }

  lemma NoDelayFirst(ops: seq<Operation>)
    ensures DelayAfter(ops[..0]) == 0
  {
  }

  lemma ControlPauses(s: World, call: Call, admitted: Option<Plan>)
    requires Inv(s) && PausesOk(s.w, s.sh)
    ensures PausesOk(s.w, ControlStep(s.c, s.sh, call, admitted).1)
  {
    hide WorkerOk, LifeOk, Answer, Outcome, Reports, StateAfter, DelayAfter, Bounded, Good;
  }

  lemma {:induction false} RunPauses(run: seq<World>, events: seq<Event>, i: nat)
    requires IsRun(run, events) && i < |run|
    ensures PausesOk(run[i].w, run[i].sh)
  {
    if i > 0 {
      hide PausesOk, Inv, WorkerStep, ControlStep;
      RunPauses(run, events, i - 1);
      RunInv(run, events, i - 1);
      match events[i - 1]
      case ControlMoves(call, admitted) => ControlPauses(run[i - 1], call, admitted);
      case WorkerMoves(input) =>
        IndexInPlan(run[i - 1]);
        WorkerPauses(run[i - 1].w, run[i - 1].sh, input);
    }
  }

  /**
   Whenever the worker waits, it waits for what parse has counted: a wait token its own time, a
   report that is not the last operation the default delay in force.  So its pauses add up to the
   total that parse has checked against the bound.
   */
  lemma WaitsAsScheduled(run: seq<World>, events: seq<Event>, i: nat)
    requires IsRun(run, events) && i < |run| && run[i].w.at.WaitDelay?
    ensures var w, ops := run[i].w, run[i].sh.plan.ops;
      w.index < |ops| && w.pause == Pause(ops, w.index) && TotalPause(ops, w.index) + w.pause <= TotalPause(ops, |ops|)
  {
    RunPauses(run, events, i);
    var w, ops := run[i].w, run[i].sh.plan.ops;
    PausesGrow(ops, w.index + 1, |ops|);
  }
}
