/**
 The operations that find the route otherwise than they need it, or are disturbed: alone, each
 refuses and leaves everything as it was, undoes what it has begun, or hands over.
 */
module HidRouteRefusals {
  import opened HidRoute
  import opened HidRouteSolo
  import Outcomes = HidRouteOutcomes

  ghost predicate Transition(c: Call) {
    (c.CallCommit? || c.CallBeginRelease? || c.CallCompleteRelease?) && !c.route.NoRoute?
  }

  ghost predicate AnswersFalse(l: Local) { (l.pc.Done? || l.pc.DoneCommit?) && !l.out.ok }

  // ---------------------------------------------------------------- the three transitions

  /** While another thread holds the writer, a transition gives up at once. */
  lemma BusyIsRefused(t: nat, l: Local, sh: Shared, c: Call)
    requires l.pc.Idle? && Transition(c) && sh.r.owner.Some?
    ensures var s := Solo(t, l, sh, c, 2); AnswersFalse(s.0) && s.1 == sh
  {
    hide StepSnapshot, StepMatches, StepPending, StepCommit, StepStage, StepRelease, StepVerdict, StepRetire;
    hide StepLeave, StepInvalidate, StepClaim, StepClaimHeld, StepCancel, StepHeldClaim, StepUsb;
    SoloSteps(t, l, sh, c);
  }

  lemma EntersAndLooks(t: nat, l: Local, sh: Shared, c: Call)
    requires l.pc.Idle? && Transition(c) && Calm(sh)
    ensures var s := Solo(t, l, sh, c, 5);
      && Outcomes.Checks(c, s.0) && Outcomes.ArgsOf(c, s.0) && !s.0.p.pend && s.0.caller == l.caller
      && s.1 == sh.(r := EnterWriter(t, sh.r))
  {
    hide Step;
    match c
    case CallCommit(_) => CommitChecks(t, l, sh, c);
    case CallBeginRelease(_) => BeginChecks(t, l, sh, c);
    case CallCompleteRelease(_, _) =>
      ReleaseEnters(t, l, sh, c);
      var s := Solo(t, l, sh, c, 2);
      SeesNothingPending(t, s.0, s.1, c);
      SoloJoins(t, l, sh, c, 2, 3);
  }

  lemma BeginChecks(t: nat, l: Local, sh: Shared, c: Call)
    requires l.pc.Idle? && c.CallBeginRelease? && !c.route.NoRoute? && Calm(sh)
    ensures var s := Solo(t, l, sh, c, 5);
      && s.0.pc == Staging(StageCheck) && !s.0.p.pend && s.0.a.route == c.route && s.0.caller == l.caller
      && s.1 == sh.(r := EnterWriter(t, sh.r))
  {
    hide Step;
    StageEnters(t, l, sh, c);
    var s := Solo(t, l, sh, c, 2);
    SeesNothingPending(t, s.0, s.1, c);
    SoloJoins(t, l, sh, c, 2, 3);
  }

  lemma ChecksAndRefuses(t: nat, l: Local, sh: Shared, c: Call)
    requires Transition(c) && Outcomes.Checks(c, l) && Outcomes.ArgsOf(c, l)
    requires l.p.pend || !Outcomes.Ready(c, sh.r.f)
    ensures var s := Solo(t, l, sh, c, 1);
      && s.1 == sh && s.0.pc == Leaving(LeaveDurable) && !s.0.out.ok
      && s.0.v.ret == (if c.CallCommit? then LeaveFailedCommit else LeaveDone)
  {
    hide StepIdle, StepSnapshot, StepMatches, StepPending, StepEntering, StepVerdict;
    hide StepRetire, StepLeave, StepInvalidate, StepClaim, StepClaimHeld, StepCancel, StepHeldClaim, StepUsb;
    SoloSteps(t, l, sh, c);
  }

  /**
   A transition that finds other fields than it needs answers false and changes nothing: a commit
   on a route, a release of another route or of a route that is not stable, the completion of
   another release than the one it was begun for.
   */
  lemma OtherFieldsAreRefused(t: nat, l: Local, sh: Shared, c: Call)
    requires l.pc.Idle? && Transition(c) && Calm(sh) && !Outcomes.Ready(c, sh.r.f)
    ensures var s := Solo(t, l, sh, c, 9); AnswersFalse(s.0) && s.1 == sh
  {
    hide Step, Outcomes.Ready, Outcomes.Checks, Outcomes.ArgsOf;
    EntersAndLooks(t, l, sh, c);
    var s5 := Solo(t, l, sh, c, 5);
    ChecksAndRefuses(t, s5.0, s5.1, c);
    SoloJoins(t, l, sh, c, 5, 1);
    var s6 := Solo(t, l, sh, c, 6);
    LeavesAlone(t, s6.0, s6.1, c);
    SoloJoins(t, l, sh, c, 6, 3);
  }

  lemma RegistersOrLeaves(t: nat, l: Local, sh: Shared, c: Call)
    requires l.pc == Committing(CommitCheck) && !l.p.pend && l.a.route.Usb? && sh.r.f == NoneAt(sh.r.f.gen)
    requires UsbGateShut(l.caller.cut) || sh.u.state != l.caller.cut
    ensures var s := Solo(t, l, sh, c, 2);
      s.1 == sh && s.0.pc == Leaving(LeaveDurable) && !s.0.out.ok && s.0.v.ret == LeaveFailedCommit
  {
    hide StepIdle, StepSnapshot, StepMatches, StepPending, StepEntering, StepStage, StepRelease, StepVerdict;
    hide StepRetire, StepLeave, StepInvalidate, StepClaim, StepClaimHeld, StepCancel, StepHeldClaim, StepUsb;
    SoloSteps(t, l, sh, c);
  }

  /** commit_usb_if_none with a cut that is out of date. */
  lemma OldCutIsRefused(t: nat, l: Local, sh: Shared)
    requires l.pc.Idle? && Calm(sh) && sh.r.f == NoneAt(sh.r.f.gen) && sh.u.state != l.caller.cut
    ensures var s := Solo(t, l, sh, CallCommit(Usb), 10); AnswersFalse(s.0) && s.1 == sh
  {
    hide Step;
    var c := CallCommit(Usb);
    CommitChecks(t, l, sh, c);
    var s5 := Solo(t, l, sh, c, 5);
    RegistersOrLeaves(t, s5.0, s5.1, c);
    SoloJoins(t, l, sh, c, 5, 2);
    var s7 := Solo(t, l, sh, c, 7);
    LeavesAlone(t, s7.0, s7.1, c);
    SoloJoins(t, l, sh, c, 7, 3);
  }

  ghost predicate SomethingPending(sh: Shared) {
    UsbGateShut(sh.u.state) || !sh.k.token.NoToken? || !sh.d.state.DurableNone?
  }

  lemma EntersToLook(t: nat, l: Local, sh: Shared, c: Call)
    requires l.pc.Idle? && Transition(c) && sh.r.owner.None?
    ensures var s := Solo(t, l, sh, c, 2);
      && s.0.pc == Pending(PendUsb) && Outcomes.PendsFor(c, s.0.p.ret) && Outcomes.ArgsOf(c, s.0)
      && s.1 == sh.(r := EnterWriter(t, sh.r))
  {
    hide StepSnapshot, StepMatches, StepPending, StepCommit, StepStage, StepRelease, StepVerdict, StepRetire;
    hide StepLeave, StepInvalidate, StepClaim, StepClaimHeld, StepCancel, StepHeldClaim, StepUsb;
    SoloSteps(t, l, sh, c);
  }

  /** invalidation_pending() alone: exactly whether one of the three is there. */
  lemma PendsAlone(t: nat, l: Local, sh: Shared, c: Call) returns (k: nat)
    requires l.pc == Pending(PendUsb)
    ensures var s := Solo(t, l, sh, c, k);
      && s.1 == sh && s.0 == l.(pc := PendReturn(l.p.ret), p := s.0.p) && s.0.p.ret == l.p.ret
      && (s.0.p.pend <==> SomethingPending(sh))
  {
    hide StepIdle, StepSnapshot, StepMatches, StepEntering, StepCommit, StepStage, StepRelease, StepVerdict;
    hide StepRetire, StepLeave, StepInvalidate, StepClaim, StepClaimHeld, StepCancel, StepHeldClaim, StepUsb;
    SoloSteps(t, l, sh, c);
    k := if UsbGateShut(sh.u.state) then 1 else if !sh.k.token.NoToken? then 2 else 3;
  }

  lemma ReturnsToCheck(t: nat, l: Local, c: Call)
    requires Transition(c) && Outcomes.PendsFor(c, l.p.ret) && l.pc == PendReturn(l.p.ret)
    ensures Outcomes.Checks(c, l)
  {
  }

  /** While a USB publication or veto, a token or a durable invalidation is there, no transition goes on. */
  lemma PendingIsRefused(t: nat, l: Local, sh: Shared, c: Call) returns (k: nat)
    requires l.pc.Idle? && Transition(c) && sh.r.owner.None? && SomethingPending(sh)
    ensures var s := Solo(t, l, sh, c, k);
      s.0.pc == Leaving(LeaveDurable) && !s.0.out.ok && s.1 == sh.(r := EnterWriter(t, sh.r))
  {
    hide Step, Outcomes.Checks, Outcomes.PendsFor, PendReturn;
    EntersToLook(t, l, sh, c);
    var s := Solo(t, l, sh, c, 2);
    var m := PendsAlone(t, s.0, s.1, c);
    SoloJoins(t, l, sh, c, 2, m);
    var q := Solo(t, l, sh, c, 2 + m);
    ReturnsToCheck(t, q.0, c);
    ChecksAndRefuses(t, q.0, q.1, c);
    SoloJoins(t, l, sh, c, 2 + m, 1);
    k := 2 + m + 1;
  }

  // ---------------------------------------------------------------- a commit that is disturbed

  /** What the middle of a commit looks at. */
  ghost predicate Disturbed(l: Local, sh: Shared) {
    !sh.k.token.NoToken? || !sh.d.state.DurableNone? || (l.a.route.Usb? && sh.u.state != l.w.ident)
  }

  lemma SeesDisturbance(t: nat, l: Local, sh: Shared, c: Call) returns (k: nat)
    requires l.pc == Committing(CommitSeeToken) && Disturbed(l, sh)
    ensures 1 <= k <= 3 && Solo(t, l, sh, c, k) == (l.(pc := Committing(UndoDesired)), sh)
  {
    hide StepIdle, StepSnapshot, StepMatches, StepPending, StepEntering, StepStage, StepRelease, StepVerdict;
    hide StepRetire, StepLeave, StepInvalidate, StepClaim, StepClaimHeld, StepCancel, StepHeldClaim, StepUsb;
    SoloSteps(t, l, sh, c);
    k := if !sh.k.token.NoToken? then 1 else if !sh.d.state.DurableNone? then 2 else 3;
  }

  lemma Undoes(t: nat, l: Local, sh: Shared, c: Call) returns (k: nat)
    requires l.pc == Committing(UndoDesired) && sh.r.f == NoneAt(sh.r.f.gen)
    ensures 4 <= k <= 5
    ensures var s := Solo(t, l, sh, c, k);
      && s.0.pc == Leaving(LeaveDurable) && !s.0.out.ok && s.0.v.ret == LeaveFailedCommit
      && s.1.d == sh.d && s.1.k == sh.k && s.1.c == sh.c
      && (if l.a.route.Usb? && sh.u.state.active then s.1.u.state == Advance(sh.u.state) else s.1.u == sh.u)
      && s.1.r == RoutePart(sh.r.seqno + 1, sh.r.f, sh.r.owner, sh.r.published + [sh.r.f], None)
  {
    hide StepIdle, StepSnapshot, StepMatches, StepPending, StepEntering, StepStage, StepRelease, StepVerdict;
    hide StepRetire, StepLeave, StepInvalidate, StepClaim, StepClaimHeld, StepCancel, StepHeldClaim, StepUsb;
    SoloSteps(t, l, sh, c);
    k := if l.a.route.Usb? then 5 else 4;
  }

  /**
   A commit that sees a token, a durable invalidation or a veto after it has moved to the next
   generation publishes no route in that generation, drops its USB publication, and answers false.
   */
  lemma DisturbedCommitIsUndone(t: nat, l: Local, sh: Shared, c: Call) returns (k: nat)
    requires l.pc == Committing(CommitSeeToken) && Disturbed(l, sh) && sh.r.f == NoneAt(sh.r.f.gen)
    ensures var s := Solo(t, l, sh, c, k);
      && s.0.pc == Leaving(LeaveDurable) && !s.0.out.ok && s.0.v.ret == LeaveFailedCommit
      && s.1.r.f == sh.r.f && s.1.r.published == sh.r.published + [sh.r.f] && s.1.r.seqno == sh.r.seqno + 1
      && (l.a.route.Usb? && sh.u.state.active ==> !s.1.u.state.active && !s.1.u.state.veto)
  {
    hide Step;
    var a := SeesDisturbance(t, l, sh, c);
    var s := Solo(t, l, sh, c, a);
    var b := Undoes(t, s.0, s.1, c);
    SoloJoins(t, l, sh, c, a, b);
    k := a + b;
  }

  lemma RetiresExactly(t: nat, l: Local, sh: Shared, c: Call)
    requires l.pc == Retiring(RetireCheck) && l.n.exact && l.n.route == sh.r.f.active && l.n.gen == sh.r.f.gen
    requires !sh.r.f.active.NoRoute?
    ensures var s := Solo(t, l, sh, c, 4);
      && s.0 == l.(pc := Retiring(RetireBump)) && SameButRoute(sh, s.1)
      && s.1.r == sh.r.(seqno := sh.r.seqno + 1, f := sh.r.f.(desired := NoRoute, active := NoRoute))
  {
    hide StepIdle, StepSnapshot, StepMatches, StepPending, StepEntering, StepCommit, StepStage, StepRelease;
    hide StepVerdict, StepLeave, StepInvalidate, StepClaim, StepClaimHeld, StepCancel, StepHeldClaim, StepUsb;
    SoloSteps(t, l, sh, c);
  }

  lemma RetireEnds(t: nat, l: Local, sh: Shared, c: Call)
    requires l.pc == Retiring(RetireBump) && sh.r.f.desired.NoRoute? && sh.r.f.active.NoRoute?
    ensures var s := Solo(t, l, sh, c, 3);
      && s.0 == l.(pc := RetireReturn(l.n.ret), n := l.n.(changed := true)) && SameButRoute(sh, s.1)
      && var f := NoneAt(sh.r.f.gen + 1);
         s.1.r == RoutePart(sh.r.seqno + 1, f, sh.r.owner, sh.r.published + [f], sh.r.mid)
  {
    hide StepIdle, StepSnapshot, StepMatches, StepPending, StepEntering, StepCommit, StepStage, StepRelease;
    hide StepVerdict, StepLeave, StepInvalidate, StepClaim, StepClaimHeld, StepCancel, StepHeldClaim, StepUsb;
    SoloSteps(t, l, sh, c);
  }

  /** commit_none_locked on exactly the route and generation it is asked for. */
  lemma RetiresAlone(t: nat, l: Local, sh: Shared, c: Call)
    requires l.pc == Retiring(RetireCheck) && l.n.exact && l.n.route == sh.r.f.active && l.n.gen == sh.r.f.gen
    requires !sh.r.f.active.NoRoute?
    ensures var s := Solo(t, l, sh, c, 7);
      && s.0 == l.(pc := RetireReturn(l.n.ret), n := l.n.(changed := true)) && SameButRoute(sh, s.1)
      && var f := NoneAt(sh.r.f.gen + 1);
         s.1.r == RoutePart(sh.r.seqno + 2, f, sh.r.owner, sh.r.published + [f], sh.r.mid)
  {
    hide Step, RetireReturn;
    RetiresExactly(t, l, sh, c);
    var s := Solo(t, l, sh, c, 4);
    RetireEnds(t, s.0, s.1, c);
    SoloJoins(t, l, sh, c, 4, 3);
  }

  /** And on any other it changes nothing. */
  lemma RetireRefuses(t: nat, l: Local, sh: Shared, c: Call)
    requires l.pc == Retiring(RetireCheck)
    requires sh.r.f.active.NoRoute? || (l.n.exact && (l.n.route != sh.r.f.active || l.n.gen != sh.r.f.gen))
    ensures Solo(t, l, sh, c, 1) == (l.(pc := RetireReturn(l.n.ret), n := l.n.(changed := false)), sh)
  {
    hide StepIdle, StepSnapshot, StepMatches, StepPending, StepEntering, StepCommit, StepStage, StepRelease;
    hide StepVerdict, StepLeave, StepInvalidate, StepClaim, StepClaimHeld, StepCancel, StepHeldClaim, StepUsb;
    SoloSteps(t, l, sh, c);
  }

  lemma FinishFails(t: nat, l: Local, sh: Shared, c: Call)
    requires l.pc == Committing(CommitFinish) && sh.u.state != l.w.ident
    ensures var s := Solo(t, l, sh, c, 1);
      && s.1 == sh && s.0.pc == Retiring(RetireCheck) && s.0.n == RetireVars(Usb, l.w.gen, true, false, RetireForVeto)
      && s.0.a == l.a && s.0.w == l.w
  {
    hide StepIdle, StepSnapshot, StepMatches, StepPending, StepEntering, StepStage, StepRelease, StepVerdict;
    hide StepRetire, StepLeave, StepInvalidate, StepClaim, StepClaimHeld, StepCancel, StepHeldClaim, StepUsb;
    SoloSteps(t, l, sh, c);
  }

  lemma VetoClears(t: nat, l: Local, sh: Shared, c: Call)
    requires l.pc == Committing(CommitVetoed) && sh.u.state.active
    ensures var s := Solo(t, l, sh, c, 2);
      && s.0.pc == Leaving(LeaveDurable) && !s.0.out.ok && s.0.v.ret == LeaveFailedCommit
      && s.1 == sh.(u := sh.u.(state := Advance(sh.u.state)))
  {
    hide StepIdle, StepSnapshot, StepMatches, StepPending, StepEntering, StepStage, StepRelease, StepVerdict;
    hide StepRetire, StepLeave, StepInvalidate, StepClaim, StepClaimHeld, StepCancel, StepHeldClaim, StepUsb;
    SoloSteps(t, l, sh, c);
  }

  /** A USB commit that was vetoed after it had stored its route retires it again, opens the gate, and answers false. */
  lemma VetoedCommitIsRetired(t: nat, l: Local, sh: Shared, c: Call)
    requires l.pc == Committing(CommitFinish) && sh.u.state.active && sh.u.state != l.w.ident
    requires sh.r.f == Fields(Usb, Usb, l.w.gen, Stable)
    ensures var s := Solo(t, l, sh, c, 10);
      && s.0.pc == Leaving(LeaveDurable) && !s.0.out.ok && s.0.v.ret == LeaveFailedCommit
      && !s.1.u.state.active && !s.1.u.state.veto && s.1.u.state.serial > sh.u.state.serial
      && s.1.r.f == NoneAt(l.w.gen + 1) && s.1.r.published == sh.r.published + [NoneAt(l.w.gen + 1)]
  {
    hide Step;
    FinishFails(t, l, sh, c);
    var s1 := Solo(t, l, sh, c, 1);
    RetiresAlone(t, s1.0, s1.1, c);
    SoloJoins(t, l, sh, c, 1, 7);
    var s8 := Solo(t, l, sh, c, 8);
    VetoClears(t, s8.0, s8.1, c);
    SoloJoins(t, l, sh, c, 8, 2);
  }
}
