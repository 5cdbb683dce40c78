/**
 What the answer true of an operation that changes the route means, in every run: at one step of
 the call the thread found the route as the operation needs it, at a later one it published what
 the operation is for, and nobody published in between.
 */
module HidRouteOutcomes {
  import opened HidRoute
  import opened HidRouteInvariant
  import opened HidRouteSafety
  import opened HidRouteSnapshots

  ghost predicate Changing(c: Call) {
    c.CallCommit? || c.CallBeginRelease? || c.CallCompleteRelease? || c.CallInvalidate? || c.CallInvalidateIf?
  }

  // ---------------------------------------------------------------- what the operations are for

  /** The fields that c needs. */
  ghost predicate Ready(c: Call, f: Fields) {
    match c
    case CallCommit(_) => f == NoneAt(f.gen)
    case CallBeginRelease(route) => f == Fields(route, route, f.gen, Stable)
    case CallCompleteRelease(route, exp) => f == exp.f == Fields(NoRoute, route, exp.f.gen, Releasing)
    case CallInvalidate => !f.active.NoRoute?
    case CallInvalidateIf(exp) => !f.active.NoRoute? && f.active == exp.f.active && f.gen == exp.f.gen
    case _ => false
  }

  /** What it makes of them. */
  ghost function Target(c: Call, f: Fields): Fields {
    match c
    case CallCommit(route) => Fields(route, route, f.gen + 1, Stable)
    case CallBeginRelease(route) => Fields(NoRoute, route, f.gen, Releasing)
    case _ => NoneAt(f.gen + 1)
  }

  // ---------------------------------------------------------------- the parts of a call

  ghost predicate PendsFor(c: Call, ret: PendRet) {
    match c
    case CallCommit(_) => ret.PendForCommit?
    case CallBeginRelease(_) => ret.PendForStage?
    case CallCompleteRelease(_, _) => ret.PendForRelease?
    case _ => false
  }

  /** The step that looks at the fields. */
  ghost predicate Checks(c: Call, l: Local) {
    match c
    case CallCommit(_) => l.pc == Committing(CommitCheck)
    case CallBeginRelease(_) => l.pc == Staging(StageCheck)
    case CallCompleteRelease(_, _) => l.pc == Completing(ReleaseCheck)
    case _ => l.pc == Retiring(RetireCheck) && l.n.ret.RetireForInvalidate?
  }

  /** The step that publishes. */
  ghost predicate Closes(c: Call, l: Local) {
    match c
    case CallCommit(_) => l.pc == Committing(CommitClose)
    case CallBeginRelease(_) => l.pc == Staging(StageClose)
    case CallCompleteRelease(_, _) => l.pc == Completing(ReleaseClose)
    case _ => l.pc == Retiring(RetireClose) && l.n.ret.RetireForInvalidate?
  }

  /** Up to the look at the fields. */
  ghost predicate Before(c: Call, l: Local) {
    match l.pc
    case Entering(at) =>
      (match c
       case CallCommit(_) => at.CommitEnter?
       case CallBeginRelease(_) => at.StageEnter?
       case CallCompleteRelease(_, _) => at.ReleaseEnter?
       case _ => false)
    case Pending(_) => PendsFor(c, l.p.ret)
    case Snapping(_) => c.CallInvalidateIf? && l.s.ret.SnapForInvalidate?
    case Invalidating(at) => (c.CallInvalidate? || c.CallInvalidateIf?) && (at.InvCompare? ==> c.CallInvalidateIf?)
    case _ => Checks(c, l)
  }

  ghost predicate Exactly(c: Call, l: Local) {
    match c
    case CallInvalidateIf(exp) => l.n.exact && l.n.route == exp.f.active && l.n.gen == exp.f.gen
    case CallInvalidate => !l.n.exact
    case _ => true
  }

  /** From there to the publication. */
  ghost predicate During(c: Call, l: Local) {
    match l.pc
    case Committing(at) =>
      c.CallCommit? && !at.CommitCheck? && !at.UndoDesired? && !at.UndoActive? && !at.UndoTransition? && !at.UndoClose?
      && !at.CommitClearUsb? && !at.CommitFinish? && !at.CommitVetoed?
    case Staging(at) => c.CallBeginRelease? && !at.StageCheck? && !at.StageKeep?
    case Completing(at) => c.CallCompleteRelease? && !at.ReleaseCheck?
    case Retiring(at) => (c.CallInvalidate? || c.CallInvalidateIf?) && l.n.ret.RetireForInvalidate? && !at.RetireCheck?
    case _ => false
  }

  ghost predicate LeavesAfter(c: Call, l: Local) {
    match c
    case CallCommit(_) => l.v.ret.LeaveToCommit?
    case CallBeginRelease(_) => l.v.ret.LeaveToStage?
    case CallCompleteRelease(_, _) => l.v.ret.LeaveToRelease?
    case _ => l.v.ret.LeaveDone? && l.out.ok
  }

  /** After the publication. */
  ghost predicate After(c: Call, l: Local) {
    match l.pc
    case Committing(at) => c.CallCommit? && at.CommitFinish?
    case Staging(at) => c.CallBeginRelease? && at.StageKeep?
    case InvLeave => (c.CallInvalidate? || c.CallInvalidateIf?) && l.n.changed
    case Leaving(_) => LeavesAfter(c, l)
    case Retiring(_) => l.n.ret.RetireForLeave? && LeavesAfter(c, l)
    case Verdict(at) =>
      (match at
       case CommitObserve | CommitVerdict => c.CallCommit?
       case StageObserve | StageVerdict => c.CallBeginRelease?
       case ReleasePending | ReleaseVerdict => c.CallCompleteRelease?)
    case Snapping(_) =>
      (c.CallCommit? && l.s.ret.SnapForCommit?)
      || (c.CallBeginRelease? && (l.s.ret.SnapForStageA? || l.s.ret.SnapForStage?))
    case Pending(_) => c.CallCompleteRelease? && l.p.ret.PendAfterRelease?
    case DoneCommit => c.CallCommit? && l.out.ok
    case Done => !c.CallCommit? && l.out.ok
    case _ => false
  }

  ghost predicate LeavesFailed(c: Call, l: Local) {
    !l.out.ok && if c.CallCommit? then l.v.ret.LeaveFailedCommit? else l.v.ret.LeaveDone?
  }

  /** On the way to the answer false. */
  ghost predicate Failed(c: Call, l: Local) {
    match l.pc
    case Committing(at) =>
      c.CallCommit? && (at.UndoDesired? || at.UndoActive? || at.UndoTransition? || at.UndoClose?
                        || at.CommitClearUsb? || at.CommitVetoed?)
    case InvLeave => (c.CallInvalidate? || c.CallInvalidateIf?) && !l.n.changed
    case Leaving(_) => LeavesFailed(c, l)
    case Retiring(_) =>
      (c.CallCommit? && l.n.ret.RetireForVeto?) || (l.n.ret.RetireForLeave? && LeavesFailed(c, l))
    case DoneCommit => c.CallCommit? && !l.out.ok
    case Done => !c.CallCommit? && !l.out.ok
    case _ => false
  }

  ghost predicate ArgsOf(c: Call, l: Local) {
    match c
    case CallCommit(route) => l.a.route == route
    case CallBeginRelease(route) => l.a.route == route
    case CallCompleteRelease(route, exp) => l.a.route == route && l.a.exp == exp
    case CallInvalidate => !l.a.exact && (l.pc.Retiring? && l.n.ret.RetireForInvalidate? ==> !l.n.exact)
    case CallInvalidateIf(exp) =>
      l.a.exact && l.a.exp == exp && (l.pc.Retiring? && l.n.ret.RetireForInvalidate? ==> Exactly(c, l))
    case _ => false
  }

  /** One step of thread t inside call c. */
  ghost predicate Moves(c: Call, l: Local, r: RoutePart, l': Local, r': RoutePart) {
    && ArgsOf(c, l')
    && (Before(c, l) ==>
          || Before(c, l') || Failed(c, l')
          || (During(c, l') && Checks(c, l) && Ready(c, r.f) && r'.published == r.published
              && (l.p.pend ==> c.CallInvalidate? || c.CallInvalidateIf?)))
    && (During(c, l) ==>
          || (During(c, l') && r'.published == r.published)
          || Failed(c, l')
          || (After(c, l') && Closes(c, l) && r'.published == r.published + [r.f] && r'.f == r.f))
    && (After(c, l) ==> After(c, l') || Failed(c, l'))
    && (Failed(c, l) ==> Failed(c, l'))
  }

  lemma Starts(t: nat, l: Local, sh: Shared, c: Call)
    requires l.pc.Idle? && CallAllowed(sh, l, c) && Changing(c)
    ensures var l' := Step(t, l, sh, c).0; ArgsOf(c, l') && (Before(c, l') || Failed(c, l'))
  {
  }

  lemma LooksFirst(t: nat, l: Local, sh: Shared, c: Call, e: Call)
    requires Changing(c) && Before(c, l) && ArgsOf(c, l) && (l.pc.Snapping? || l.pc.Invalidating?)
    ensures var (l', sh') := Step(t, l, sh, e); Moves(c, l, sh.r, l', sh'.r)
  {
    hide StepIdle, StepMatches, StepPending, StepEntering, StepCommit, StepStage, StepRelease, StepVerdict;
    hide StepRetire, StepLeave, StepClaim, StepClaimHeld, StepCancel, StepHeldClaim, StepUsb;
  }

  lemma ChecksFirst(t: nat, l: Local, sh: Shared, c: Call, e: Call)
    requires Changing(c) && Before(c, l) && ArgsOf(c, l) && !l.pc.Snapping? && !l.pc.Invalidating?
    ensures var (l', sh') := Step(t, l, sh, e); Moves(c, l, sh.r, l', sh'.r)
  {
    hide StepIdle, StepSnapshot, StepMatches, StepVerdict, StepLeave, StepInvalidate, StepClaim, StepClaimHeld;
    hide StepCancel, StepHeldClaim, StepUsb;
  }

  lemma DuringMoves(t: nat, l: Local, sh: Shared, c: Call, e: Call)
    requires Changing(c) && During(c, l) && ArgsOf(c, l)
    ensures var (l', sh') := Step(t, l, sh, e); Moves(c, l, sh.r, l', sh'.r)
  {
    hide StepIdle, StepSnapshot, StepMatches, StepPending, StepEntering, StepVerdict, StepLeave, StepInvalidate;
    hide StepClaim, StepClaimHeld, StepCancel, StepHeldClaim, StepUsb;
  }

  lemma LeavesNext(t: nat, l: Local, sh: Shared, c: Call, e: Call)
    requires Changing(c) && After(c, l) && ArgsOf(c, l) && (l.pc.Leaving? || l.pc.Retiring?)
    ensures var (l', sh') := Step(t, l, sh, e); Moves(c, l, sh.r, l', sh'.r)
  {
    hide StepIdle, StepSnapshot, StepMatches, StepPending, StepEntering, StepCommit, StepStage, StepRelease;
    hide StepVerdict, StepInvalidate, StepClaim, StepClaimHeld, StepCancel, StepHeldClaim, StepUsb;
  }

  lemma AnswersNext(t: nat, l: Local, sh: Shared, c: Call, e: Call)
    requires Changing(c) && After(c, l) && ArgsOf(c, l) && !l.pc.Leaving? && !l.pc.Retiring? && !Returned(l.pc)
    ensures var (l', sh') := Step(t, l, sh, e); Moves(c, l, sh.r, l', sh'.r)
  {
    hide StepIdle, StepMatches, StepEntering, StepRelease, StepRetire, StepLeave, StepInvalidate;
    hide StepClaim, StepClaimHeld, StepCancel, StepHeldClaim, StepUsb;
  }

  lemma UndoMoves(t: nat, l: Local, sh: Shared, c: Call, e: Call)
    requires Changing(c) && Failed(c, l) && ArgsOf(c, l) && (l.pc.Committing? || l.pc.InvLeave?)
    ensures var (l', sh') := Step(t, l, sh, e); Moves(c, l, sh.r, l', sh'.r)
  {
    hide StepIdle, StepSnapshot, StepMatches, StepPending, StepEntering, StepStage, StepRelease, StepVerdict;
    hide StepRetire, StepLeave, StepInvalidate, StepClaim, StepClaimHeld, StepCancel, StepHeldClaim, StepUsb;
  }

  lemma FailedMoves(t: nat, l: Local, sh: Shared, c: Call, e: Call)
    requires Changing(c) && Failed(c, l) && ArgsOf(c, l) && (l.pc.Leaving? || l.pc.Retiring?)
    ensures var (l', sh') := Step(t, l, sh, e); Moves(c, l, sh.r, l', sh'.r)
  {
    hide StepIdle, StepSnapshot, StepMatches, StepPending, StepEntering, StepCommit, StepStage, StepRelease;
    hide StepVerdict, StepInvalidate, StepClaim, StepClaimHeld, StepCancel, StepHeldClaim, StepUsb;
  }

  ghost predicate Within(c: Call, l: Local) { Before(c, l) || During(c, l) || After(c, l) || Failed(c, l) }

  lemma StepMoves(t: nat, l: Local, sh: Shared, c: Call, e: Call)
    requires Changing(c) && Within(c, l) && ArgsOf(c, l) && !Returned(l.pc)
    ensures var (l', sh') := Step(t, l, sh, e); Moves(c, l, sh.r, l', sh'.r)
  {
    hide Step, Moves, ArgsOf;
    if Before(c, l) && (l.pc.Snapping? || l.pc.Invalidating?) { LooksFirst(t, l, sh, c, e); }
    else if Before(c, l) { ChecksFirst(t, l, sh, c, e); }
    else if During(c, l) { DuringMoves(t, l, sh, c, e); }
    else if Failed(c, l) && (l.pc.Leaving? || l.pc.Retiring?) { FailedMoves(t, l, sh, c, e); }
    else if Failed(c, l) { UndoMoves(t, l, sh, c, e); }
    else if l.pc.Leaving? || l.pc.Retiring? { LeavesNext(t, l, sh, c, e); }
    else { AnswersNext(t, l, sh, c, e); }
  }

  // ---------------------------------------------------------------- the whole call

  /** Thread t holds the writer, and with the step from run[a] finds the published fields ready for c. */
  ghost predicate FindsReady(run: seq<World>, events: seq<Event>, t: nat, a: nat, c: Call) {
    && a < |events| && a < |run| && events[a].t == t && t < |run[a].ts| && Checks(c, run[a].ts[t])
    && Ready(c, run[a].sh.r.f) && run[a].sh.r.owner == Some(t)
    && |run[a].sh.r.published| > 0 && run[a].sh.r.f == run[a].sh.r.published[|run[a].sh.r.published| - 1]
    && (run[a].ts[t].p.pend ==> c.CallInvalidate? || c.CallInvalidateIf?)
  }

  /** With the step from run[b] it publishes what c is for, right after what it found at run[a]. */
  ghost predicate PublishesTarget(run: seq<World>, events: seq<Event>, t: nat, a: nat, b: nat, c: Call) {
    && a < b < |events| && b + 1 < |run| && events[b].t == t
    && run[b].sh.r.published == run[a].sh.r.published
    && run[b + 1].sh.r.published == run[a].sh.r.published + [Target(c, run[a].sh.r.f)]
    && run[b + 1].sh.r.f == Target(c, run[a].sh.r.f)
  }

  lemma Finds(n: nat, run: seq<World>, events: seq<Event>, t: nat, a: nat, c: Call)
    requires IsRun(n, run, events) && a < |events| && events[a].t == t && t < n
    requires t < |run[a].ts| && Changing(c) && Checks(c, run[a].ts[t]) && Ready(c, run[a].sh.r.f)
    requires run[a].ts[t].p.pend ==> c.CallInvalidate? || c.CallInvalidateIf?
    ensures FindsReady(run, events, t, a, c)
  {
    hide GDur, GUsb, GCond, GClaim, LUsb, LReads, LClaims, LArgs;
    RunInv(n, run, events, a);
  }

  lemma ClosesOnTarget(n: nat, run: seq<World>, t: nat, k: nat, c: Call, events: seq<Event>, last: Fields)
    requires IsRun(n, run, events) && k < |run| && t < n && t < |run[k].ts|
    requires Changing(c) && Closes(c, run[k].ts[t]) && ArgsOf(c, run[k].ts[t])
    requires |run[k].sh.r.published| > 0 && last == run[k].sh.r.published[|run[k].sh.r.published| - 1] && Ready(c, last)
    ensures run[k].sh.r.f == Target(c, last)
  {
    hide GRoute, GDur, GUsb, GCond, GClaim, LUsb, LReads, LClaims, LArgs;
    RunInv(n, run, events, k);
  }

  lemma KeepsHistory(n: nat, run: seq<World>, events: seq<Event>, t: nat, k: nat, c: Call)
    requires IsRun(n, run, events) && k < |events| && events[k].t != t && t < n && t < |run[k].ts|
    requires Changing(c) && During(c, run[k].ts[t])
    ensures run[k + 1].sh.r.published == run[k].sh.r.published
  {
    hide Step, GRoute, GDur, GUsb, GCond, GClaim, LUsb, LReads, LClaims, LArgs, Progress;
    RunInv(n, run, events, k);
    StepRely(n, run, events, k, t);
  }

  /** What the thread remembers of its publication: the generation, or stage A. */
  ghost predicate Remembers(c: Call, l: Local, r: RoutePart, target: Fields) {
    match c
    case CallCommit(_) => l.w.gen == target.gen
    case CallBeginRelease(_) =>
      if l.pc.Snapping? && l.s.ret.SnapForStageA? then r.f == target && r.seqno % 2 == 0
      else if l.pc.Staging? then l.s.snap.coherent ==> l.s.snap.f == target
      else (l.out.stageA.coherent ==> l.out.stageA.f == target) && (l.pc.Done? ==> l.out.stageA.coherent)
    case _ => true
  }

  lemma RemembersClosed(n: nat, run: seq<World>, events: seq<Event>, t: nat, b: nat, c: Call, target: Fields)
    requires IsRun(n, run, events) && b < |events| && events[b].t == t && t < n && t < |run[b].ts| && Changing(c)
    requires Closes(c, run[b].ts[t]) && ArgsOf(c, run[b].ts[t]) && After(c, run[b + 1].ts[t])
    requires run[b].sh.r.f == target
    ensures Remembers(c, run[b + 1].ts[t], run[b + 1].sh.r, target)
  {
    hide GDur, GUsb, GCond, GClaim, LUsb, LReads, LClaims, LArgs;
    RunInv(n, run, events, b);
  }

  lemma RemembersStep(t: nat, l: Local, sh: Shared, c: Call, e: Call, target: Fields)
    requires |sh.r.published| > 0 && LSnap(l.pc, l.s, sh.r)
    requires Changing(c) && After(c, l) && ArgsOf(c, l) && !Returned(l.pc) && Remembers(c, l, sh.r, target)
    ensures var (l', sh') := Step(t, l, sh, e); After(c, l') ==> Remembers(c, l', sh'.r, target)
  {
    hide StepIdle, StepMatches, StepEntering, StepRelease, StepInvalidate;
    hide StepClaim, StepClaimHeld, StepCancel, StepHeldClaim, StepUsb;
  }

  lemma RemembersOn(n: nat, run: seq<World>, events: seq<Event>, t: nat, k: nat, c: Call, target: Fields)
    requires IsRun(n, run, events) && k < |events| && t < n && t < |run[k].ts| && Changing(c)
    requires After(c, run[k].ts[t]) && ArgsOf(c, run[k].ts[t]) && !Returned(run[k].ts[t].pc)
    requires Remembers(c, run[k].ts[t], run[k].sh.r, target)
    ensures t < |run[k + 1].ts|
    ensures After(c, run[k + 1].ts[t]) ==> Remembers(c, run[k + 1].ts[t], run[k + 1].sh.r, target)
  {
    hide Step, GDur, GUsb, GCond, GClaim, LUsb, LClaims, LArgs, LSnap, LMatch, LDur, ArgsOf, After, Progress;
    RunInv(n, run, events, k);
    if events[k].t == t {
      RemembersStep(t, run[k].ts[t], run[k].sh, c, events[k].c, target);
    } else {
      StepRely(n, run, events, k, t);
    }
  }

  /** Where a call has got to, what it found at a and what it published at b. */
  ghost predicate SoFar(run: seq<World>, events: seq<Event>, t: nat, i: nat, k: nat, a: nat, b: nat, c: Call) {
    && k < |run| && t < |run[k].ts|
    && var l := run[k].ts[t];
       && ArgsOf(c, l) && Within(c, l)
       && (During(c, l) ==>
             i < a < k && FindsReady(run, events, t, a, c) && run[k].sh.r.published == run[a].sh.r.published)
       && (After(c, l) ==>
             && i < a < b < k && FindsReady(run, events, t, a, c) && PublishesTarget(run, events, t, a, b, c)
             && Remembers(c, l, run[k].sh.r, Target(c, run[a].sh.r.f)))
  }

  lemma MovesOn(n: nat, run: seq<World>, events: seq<Event>, t: nat, i: nat, k: nat, a: nat, b: nat, c: Call)
    returns (a': nat, b': nat)
    requires IsRun(n, run, events) && i < k < |events| && events[k].t == t && t < n && t < |run[k + 1].ts|
    requires Changing(c) && SoFar(run, events, t, i, k, a, b, c) && !Returned(run[k].ts[t].pc)
    ensures SoFar(run, events, t, i, k + 1, a', b', c)
  {
    hide Step, Inv, ArgsOf, Ready, Target, Checks, Closes, Before, During, After, Failed, Remembers;
    a', b' := a, b;
    var l, l' := run[k].ts[t], run[k + 1].ts[t];
    Apart(c, l);
    Apart(c, l');
    StepMoves(t, l, run[k].sh, c, events[k].c);
    if Before(c, l) && During(c, l') {
      a' := k;
      Finds(n, run, events, t, k, c);
    } else if During(c, l) && After(c, l') {
      b' := k;
      ClosesOnTarget(n, run, t, k, c, events, run[a].sh.r.f);
      RemembersClosed(n, run, events, t, k, c, run[k].sh.r.f);
    } else if After(c, l) {
      RemembersOn(n, run, events, t, k, c, Target(c, run[a].sh.r.f));
    }
  }

  lemma WaitsOn(n: nat, run: seq<World>, events: seq<Event>, t: nat, i: nat, k: nat, a: nat, b: nat, c: Call)
    requires IsRun(n, run, events) && i < k < |events| && events[k].t != t && t < n && t < |run[k + 1].ts|
    requires Changing(c) && SoFar(run, events, t, i, k, a, b, c) && !Returned(run[k].ts[t].pc)
    ensures SoFar(run, events, t, i, k + 1, a, b, c)
  {
    hide Step, Inv, Rely, ArgsOf, Ready, Target, Checks, Closes, Before, During, After, Failed, Remembers;
    var l := run[k].ts[t];
    Apart(c, l);
    StepRely(n, run, events, k, t);
    if During(c, l) {
      KeepsHistory(n, run, events, t, k, c);
    } else if After(c, l) {
      RemembersOn(n, run, events, t, k, c, Target(c, run[a].sh.r.f));
    }
  }

  lemma {:induction false} CallSoFar(n: nat, run: seq<World>, events: seq<Event>, t: nat, i: nat, j: nat, k: nat,
                                     c: Call) returns (a: nat, b: nat)
    requires IsRun(n, run, events) && Calls(run, events, t, i, j, c) && Changing(c) && i < k <= j && t < n
    ensures SoFar(run, events, t, i, k, a, b, c)
    decreases k
  {
    hide Step, ArgsOf, Before, During, After, Failed;
    if k == i + 1 {
      a, b := 0, 0;
      Starts(t, run[i].ts[t], run[i].sh, c);
      Apart(c, run[k].ts[t]);
    } else {
      a, b := CallSoFar(n, run, events, t, i, j, k - 1, c);
      if events[k - 1].t == t {
        a, b := MovesOn(n, run, events, t, i, k - 1, a, b, c);
      } else {
        WaitsOn(n, run, events, t, i, k - 1, a, b, c);
      }
    }
  }

  /** The parts of a call do not overlap. */
  lemma Apart(c: Call, l: Local)
    ensures During(c, l) ==> !Before(c, l) && !After(c, l) && !Failed(c, l)
    ensures After(c, l) ==> !Before(c, l) && !Failed(c, l)
    ensures Before(c, l) ==> !Failed(c, l) && !Returned(l.pc)
    ensures Closes(c, l) && Changing(c) ==> !Returned(l.pc)
  {
  }

  /**
   An operation that answers true has found the route ready for it at a, with the writer held, and
   has published what it is for at b, the next publication of anybody.
   */
  lemma TrueMeansDone(n: nat, run: seq<World>, events: seq<Event>, t: nat, i: nat, j: nat, c: Call)
    returns (a: nat, b: nat)
    requires IsRun(n, run, events) && Calls(run, events, t, i, j, c) && Changing(c) && t < n
    requires run[j].ts[t].out.ok
    ensures i < a < b < j && FindsReady(run, events, t, a, c) && PublishesTarget(run, events, t, a, b, c)
    ensures c.CallBeginRelease? ==>
              run[j].ts[t].out.stageA.coherent && run[j].ts[t].out.stageA.f == Target(c, run[a].sh.r.f)
  {
    hide Step, Inv;
    a, b := CallSoFar(n, run, events, t, i, j, j, c);
    Apart(c, run[j].ts[t]);
  }

  // ---------------------------------------------------------------- the last look

  /** A commit or a begun release that looks once more, after it has given up the writer. */
  ghost predicate Looking(c: Call, l: Local) {
    match l.pc
    case Verdict(at) =>
      if c.CallCommit? then at.CommitObserve? || at.CommitVerdict?
      else c.CallBeginRelease? && (at.StageObserve? || at.StageVerdict?)
    case Snapping(_) => if c.CallCommit? then l.s.ret.SnapForCommit? else c.CallBeginRelease? && l.s.ret.SnapForStage?
    case _ => false
  }

  ghost predicate Observing(l: Local) { l.pc == Verdict(CommitObserve) || l.pc == Verdict(StageObserve) }

  /** It gives up the writer with the step from run[d]. */
  ghost predicate LeavesWriter(run: seq<World>, events: seq<Event>, t: nat, d: nat) {
    d < |events| && d + 1 < |run| && events[d].t == t && t < |run[d].ts| && run[d].ts[t].pc == Leaving(LeaveFree)
  }

  lemma LookingStep(t: nat, l: Local, sh: Shared, c: Call, e: Call)
    requires Changing(c) && ArgsOf(c, l) && Within(c, l) && !Returned(l.pc)
    ensures var l' := Step(t, l, sh, e).0;
      Looking(c, l') ==>
        || (Observing(l') && l.pc == Leaving(LeaveFree))
        || (Looking(c, l) && (l'.s.start == if Observing(l) then sh.r.seqno else l.s.start) && !Observing(l'))
  {
    hide StepIdle, StepMatches, StepClaim, StepClaimHeld, StepCancel, StepHeldClaim, StepUsb;
    if l.pc.Leaving? || l.pc.Verdict? || l.pc.Snapping? {
      hide StepPending, StepEntering, StepCommit, StepStage, StepRelease, StepRetire, StepInvalidate;
    } else {
      hide Step;
      WorkIsNotLooking(t, l, sh, c, e);
    }
  }

  lemma WorkIsNotLooking(t: nat, l: Local, sh: Shared, c: Call, e: Call)
    requires Changing(c) && ArgsOf(c, l) && Within(c, l) && !Returned(l.pc)
    requires !l.pc.Leaving? && !l.pc.Verdict? && !l.pc.Snapping?
    ensures !Looking(c, Step(t, l, sh, e).0)
  {
    hide StepIdle, StepSnapshot, StepMatches, StepVerdict, StepLeave, StepClaim, StepClaimHeld, StepCancel;
    hide StepHeldClaim, StepUsb;
  }

  lemma {:induction false} LeftBefore(n: nat, run: seq<World>, events: seq<Event>, t: nat, i: nat, j: nat, k: nat,
                                      c: Call) returns (d: nat)
    requires IsRun(n, run, events) && Calls(run, events, t, i, j, c) && Changing(c) && i < k <= j && t < n
    requires Looking(c, run[k].ts[t])
    ensures i < d < k && LeavesWriter(run, events, t, d)
    ensures !Observing(run[k].ts[t]) ==> run[d + 1].sh.r.seqno <= run[k].ts[t].s.start
    decreases k
  {
    hide Step, Inv, Rely, Changing, Looking, Observing, Grows;
    if k == i + 1 {
      d := 0;
      StartsNotLooking(t, run[i].ts[t], run[i].sh, c);
    } else if events[k - 1].t == t {
      var already := LookedAlready(n, run, events, t, i, j, k, c);
      if already {
        d := LeftBefore(n, run, events, t, i, j, k - 1, c);
        SequenceGrows(n, run, events, d + 1, k - 1);
      } else {
        d := k - 1;
      }
    } else {
      StepRely(n, run, events, k - 1, t);
      d := LeftBefore(n, run, events, t, i, j, k - 1, c);
    }
  }

  /** Whether the step to run[k] has looked on, or has given up the writer. */
  lemma LookedAlready(n: nat, run: seq<World>, events: seq<Event>, t: nat, i: nat, j: nat, k: nat, c: Call)
    returns (already: bool)
    requires IsRun(n, run, events) && Calls(run, events, t, i, j, c) && Changing(c) && i + 1 < k <= j && t < n
    requires Looking(c, run[k].ts[t]) && events[k - 1].t == t
    ensures already ==>
              Looking(c, run[k - 1].ts[t]) && !Observing(run[k].ts[t])
              && run[k].ts[t].s.start ==
                 (if Observing(run[k - 1].ts[t]) then run[k - 1].sh.r.seqno else run[k - 1].ts[t].s.start)
    ensures !already ==> LeavesWriter(run, events, t, k - 1) && Observing(run[k].ts[t])
  {
    hide Step, Inv, Rely, ArgsOf, Within, Before, During, After, Failed, Looking, Observing;
    var a, b := CallSoFar(n, run, events, t, i, j, k - 1, c);
    var l := run[k - 1].ts[t];
    LookingStep(t, l, run[k - 1].sh, c, events[k - 1].c);
    already := l.pc != Leaving(LeaveFree);
    if !already { LeavingIsNotLooking(c, l); }
  }

  lemma SequenceGrows(n: nat, run: seq<World>, events: seq<Event>, i: nat, j: nat)
    requires IsRun(n, run, events) && i <= j < |run|
    ensures run[i].sh.r.seqno <= run[j].sh.r.seqno
  {
    hide Step;
    HistoryGrows(n, run, events, i, j);
  }

  lemma StartsNotLooking(t: nat, l: Local, sh: Shared, c: Call)
    requires l.pc.Idle? && CallAllowed(sh, l, c) && Changing(c)
    ensures !Looking(c, Step(t, l, sh, c).0)
  {
  }

  lemma LeavingIsNotLooking(c: Call, l: Local)
    requires l.pc == Leaving(LeaveFree)
    ensures !Looking(c, l)
  {
  }

  lemma LooksBeforeTrue(t: nat, l: Local, sh: Shared, c: Call, e: Call)
    requires (c.CallCommit? || c.CallBeginRelease?) && ArgsOf(c, l) && Within(c, l) && !Returned(l.pc)
    ensures var l' := Step(t, l, sh, e).0;
      Returned(l'.pc) && l'.out.ok ==>
        && l.pc == Verdict(if c.CallCommit? then CommitVerdict else StageVerdict) && After(c, l) && l'.s == l.s
        && l.s.snap.coherent && !l.s.snap.pending && (c.CallBeginRelease? ==> l.out.stageA.coherent)
        && l.s.snap.f == (if c.CallCommit? then Fields(c.route, c.route, l.w.gen, Stable)
                          else Fields(NoRoute, c.route, l.out.stageA.f.gen, Releasing))
  {
    hide StepIdle, StepMatches, StepInvalidate, StepClaim, StepClaimHeld, StepCancel, StepHeldClaim, StepUsb;
    if l.pc.Verdict? {
      hide StepSnapshot, StepPending, StepEntering, StepCommit, StepStage, StepRelease, StepRetire, StepLeave;
    } else if l.pc.Entering? || l.pc.Leaving? {
      hide Step;
      LeavingAnswersFalse(t, l, sh, c, e);
    } else {
      hide Step;
      WorkDoesNotReturn(t, l, sh, c, e);
    }
  }

  lemma LeavingAnswersFalse(t: nat, l: Local, sh: Shared, c: Call, e: Call)
    requires (c.CallCommit? || c.CallBeginRelease?) && Within(c, l) && (l.pc.Entering? || l.pc.Leaving?)
    ensures var l' := Step(t, l, sh, e).0; Returned(l'.pc) ==> !l'.out.ok
  {
    hide StepIdle, StepSnapshot, StepMatches, StepPending, StepCommit, StepStage, StepRelease, StepVerdict;
    hide StepRetire, StepInvalidate, StepClaim, StepClaimHeld, StepCancel, StepHeldClaim, StepUsb;
  }

  lemma WorkDoesNotReturn(t: nat, l: Local, sh: Shared, c: Call, e: Call)
    requires (c.CallCommit? || c.CallBeginRelease?) && Within(c, l) && !Returned(l.pc)
    requires !l.pc.Verdict? && !l.pc.Entering? && !l.pc.Leaving?
    ensures !Returned(Step(t, l, sh, e).0.pc)
  {
    hide StepIdle, StepMatches, StepEntering, StepVerdict, StepLeave, StepInvalidate, StepClaim, StepClaimHeld;
    hide StepCancel, StepHeldClaim, StepUsb;
  }

  lemma VerdictLooks(c: Call, l: Local)
    requires c.CallCommit? || c.CallBeginRelease?
    requires l.pc == Verdict(if c.CallCommit? then CommitVerdict else StageVerdict)
    ensures Looking(c, l) && !Observing(l)
  {
  }

  /** At some instant of the run up to v that is not before a given one the fields were those of the last snapshot. */
  lemma ShownAt(n: nat, run: seq<World>, events: seq<Event>, t: nat, m: nat, v: nat) returns (k: nat)
    requires IsRun(n, run, events) && m <= v < |run| && t < |run[v].ts| && SnapJustReturned(run[v].ts[t].pc)
    requires run[v].ts[t].s.snap.coherent && run[m].sh.r.seqno <= run[v].ts[t].s.start
    ensures m <= k <= v && run[k].sh.r.seqno % 2 == 0 && run[k].sh.r.f == run[v].ts[t].s.snap.f
  {
    hide Step, GDur, GUsb, GCond, GClaim, LControl, LClaims, LMatch, LDur;
    RunInv(n, run, events, v);
    k := SequencePasses(n, run, events, m, v, 2 * run[v].ts[t].s.idx);
    RunInv(n, run, events, k);
    HistoryGrows(n, run, events, k, v);
  }

  /**
   A commit or a begun release that answers true has also seen its own publication still in force,
   coherent and with nothing pending, after it had given up the writer at d: at an instant k of the
   call after d the fields are its target.
   */
  lemma TrueMeansInForce(n: nat, run: seq<World>, events: seq<Event>, t: nat, i: nat, j: nat, c: Call)
    returns (a: nat, b: nat, d: nat, k: nat)
    requires IsRun(n, run, events) && Calls(run, events, t, i, j, c) && (c.CallCommit? || c.CallBeginRelease?)
    requires t < n && run[j].ts[t].out.ok
    ensures i < a < b < j && FindsReady(run, events, t, a, c) && PublishesTarget(run, events, t, a, b, c)
    ensures i < d < k <= j && LeavesWriter(run, events, t, d)
    ensures run[k].sh.r.seqno % 2 == 0 && run[k].sh.r.f == Target(c, run[a].sh.r.f)
    ensures run[j].ts[t].s.snap == Snap(Target(c, run[a].sh.r.f), false, true)
  {
    hide Step, Inv, ArgsOf, Within, Before, During, After, Failed, Looking, Remembers;
    var v := LastStep(n, run, events, t, i, j);
    StartsNotTrue(n, run, events, t, i, j, c, v);
    a, b := CallSoFar(n, run, events, t, i, j, v, c);
    LooksBeforeTrue(t, run[v].ts[t], run[v].sh, c, events[v].c);
    VerdictLooks(c, run[v].ts[t]);
    d := LeftBefore(n, run, events, t, i, j, v, c);
    k := ShownAt(n, run, events, t, d + 1, v);
    RemembersTarget(c, run[v].ts[t], run[v].sh.r, Target(c, run[a].sh.r.f));
  }

  lemma RemembersTarget(c: Call, l: Local, r: RoutePart, target: Fields)
    requires Remembers(c, l, r, target) && l.pc == Verdict(if c.CallCommit? then CommitVerdict else StageVerdict)
    requires c.CallCommit? || c.CallBeginRelease?
    ensures if c.CallCommit? then l.w.gen == target.gen else l.out.stageA.coherent ==> l.out.stageA.f == target
  {
  }

  /** A call that answers true takes more than one step. */
  lemma StartsNotTrue(n: nat, run: seq<World>, events: seq<Event>, t: nat, i: nat, j: nat, c: Call, v: nat)
    requires IsRun(n, run, events) && Calls(run, events, t, i, j, c) && (c.CallCommit? || c.CallBeginRelease?)
    requires i <= v < j && events[v].t == t && run[v + 1].ts[t] == run[j].ts[t]
    ensures i < v
  {
    if v == i { Starts(t, run[i].ts[t], run[i].sh, c); }
  }

  // ---------------------------------------------------------------- the end of a release

  /** Nothing is pending, as far as the three sources of invalidation_pending are loaded up to `at`. */
  lemma PendingCameFrom(t: nat, l: Local, sh: Shared, e: Call)
    requires l.pc.Pending? || l.pc == Verdict(ReleaseVerdict) || l.pc == Verdict(ReleasePending)
    ensures var l' := Step(t, l, sh, e).0;
      && (l'.pc == Verdict(ReleaseVerdict) && !l'.p.pend && l.pc.Pending? ==>
            l.pc.pe.PendDurable? && sh.d.state.DurableNone?)
      && (l'.pc == Pending(PendDurable) ==> l.pc == Pending(PendToken) && sh.k.token.NoToken?)
      && (l'.pc == Pending(PendToken) ==> l.pc == Pending(PendUsb) && !UsbGateShut(sh.u.state))
      && (l.pc == Verdict(ReleaseVerdict) ==> l'.pc.Done? && (l'.out.ok ==> !l.p.pend))
  {
    hide StepIdle, StepSnapshot, StepMatches, StepEntering, StepCommit, StepStage, StepRelease, StepRetire;
    hide StepLeave, StepInvalidate, StepClaim, StepClaimHeld, StepCancel, StepHeldClaim, StepUsb;
  }

  ghost predicate EndsRelease(c: Call, l: Local) {
    c.CallCompleteRelease? && After(c, l) && (l.pc.Pending? || l.pc == Verdict(ReleaseVerdict) || l.pc.Done?)
  }

  /** The last steps of complete_release come one after the other. */
  lemma EndStep(t: nat, l: Local, sh: Shared, c: Call, e: Call)
    requires c.CallCompleteRelease? && ArgsOf(c, l) && Within(c, l) && !Returned(l.pc)
    requires EndsRelease(c, Step(t, l, sh, e).0) && Step(t, l, sh, e).0.pc != Pending(PendUsb)
    ensures After(c, l) && (l.pc.Pending? || l.pc == Verdict(ReleaseVerdict))
    ensures l.pc == Verdict(ReleaseVerdict) <==> Step(t, l, sh, e).0.pc.Done?
  {
    hide StepIdle, StepSnapshot, StepMatches, StepCommit, StepStage, StepInvalidate;
    hide StepClaim, StepClaimHeld, StepCancel, StepHeldClaim, StepUsb;
  }

  /** Where the call was before run[k]. */
  lemma EndWasAt(n: nat, run: seq<World>, events: seq<Event>, t: nat, i: nat, j: nat, k: nat, c: Call) returns (v: nat)
    requires IsRun(n, run, events) && Calls(run, events, t, i, j, c) && c.CallCompleteRelease? && t < n && i < k <= j
    requires EndsRelease(c, run[k].ts[t]) && run[k].ts[t].pc != Pending(PendUsb)
    ensures i < v < k && t < |run[v].ts| && (run[v].ts[t].pc.Pending? || run[v].ts[t].pc == Verdict(ReleaseVerdict))
    ensures EndsRelease(c, run[v].ts[t])
    ensures run[k].ts[t] == Step(t, run[v].ts[t], run[v].sh, events[v].c).0
    ensures run[v].ts[t].pc == Verdict(ReleaseVerdict) <==> run[k].ts[t].pc.Done?
  {
    hide Step, Inv, ArgsOf, Within, Before, During, After, Failed;
    v := LastStep(n, run, events, t, i, k);
    if v == i {
      StartsFirst(t, run[i].ts[t], run[i].sh, c);
    } else {
      var a, b := CallSoFar(n, run, events, t, i, j, v, c);
      EndStep(t, run[v].ts[t], run[v].sh, c, events[v].c);
    }
  }

  lemma StartsFirst(t: nat, l: Local, sh: Shared, c: Call)
    requires l.pc.Idle? && CallAllowed(sh, l, c) && c.CallCompleteRelease?
    ensures !EndsRelease(c, Step(t, l, sh, c).0)
  {
  }

  /**
   A complete_release that answers true has seen, after it had published none at b, no USB
   publication or veto at u, no token at x and no durable invalidation at d.
   */
  lemma CompletedMeansClear(n: nat, run: seq<World>, events: seq<Event>, t: nat, i: nat, j: nat, c: Call)
    returns (a: nat, b: nat, u: nat, x: nat, d: nat)
    requires IsRun(n, run, events) && Calls(run, events, t, i, j, c) && c.CallCompleteRelease? && t < n
    requires run[j].ts[t].out.ok
    ensures i < a < b < u < x < d < j
    ensures FindsReady(run, events, t, a, c) && PublishesTarget(run, events, t, a, b, c)
    ensures !UsbGateShut(run[u].sh.u.state) && run[x].sh.k.token.NoToken? && run[d].sh.d.state.DurableNone?
  {
    hide Step, Inv, ArgsOf, Within, Before, During, After, Failed, Remembers;
    a, b := CallSoFar(n, run, events, t, i, j, j, c);
    EndsTrue(c, run[j].ts[t]);
    var v := EndWasAt(n, run, events, t, i, j, j, c);
    PendingCameFrom(t, run[v].ts[t], run[v].sh, events[v].c);
    d := EndWasAt(n, run, events, t, i, j, v, c);
    PendingCameFrom(t, run[d].ts[t], run[d].sh, events[d].c);
    x := EndWasAt(n, run, events, t, i, j, d, c);
    PendingCameFrom(t, run[x].ts[t], run[x].sh, events[x].c);
    u := EndWasAt(n, run, events, t, i, j, x, c);
    PendingCameFrom(t, run[u].ts[t], run[u].sh, events[u].c);
    var a', b' := CallSoFar(n, run, events, t, i, j, u, c);
    a, b := a', b';
  }

  lemma EndsTrue(c: Call, l: Local)
    requires c.CallCompleteRelease? && Within(c, l) && Returned(l.pc) && l.out.ok
    ensures EndsRelease(c, l) && l.pc.Done?
  {
  }
}
