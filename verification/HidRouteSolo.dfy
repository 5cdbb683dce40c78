/**
 The operations without interference: each does what it is for when no other thread moves, so
 the safety theorems are not about operations that never succeed.
 */
module HidRouteSolo {
  import opened HidRoute

  ghost function One(t: nat, s: (Local, Shared), c: Call): (Local, Shared) { Step(t, s.0, s.1, c) }

  /** k steps of thread t, nobody else moving. */
  ghost function Solo(t: nat, l: Local, sh: Shared, c: Call, k: nat): (Local, Shared) {
    if k == 0 then (l, sh) else One(t, Solo(t, l, sh, c, k - 1), c)
  }

  /** The first steps, one after the other. */
  lemma SoloSteps(t: nat, l: Local, sh: Shared, c: Call)
    ensures Solo(t, l, sh, c, 1) == Step(t, l, sh, c)
    ensures Solo(t, l, sh, c, 2) == One(t, Solo(t, l, sh, c, 1), c)
    ensures Solo(t, l, sh, c, 3) == One(t, Solo(t, l, sh, c, 2), c)
    ensures Solo(t, l, sh, c, 4) == One(t, Solo(t, l, sh, c, 3), c)
    ensures Solo(t, l, sh, c, 5) == One(t, Solo(t, l, sh, c, 4), c)
    ensures Solo(t, l, sh, c, 6) == One(t, Solo(t, l, sh, c, 5), c)
    ensures Solo(t, l, sh, c, 7) == One(t, Solo(t, l, sh, c, 6), c)
  {
  }

  lemma {:induction false} SoloJoins(t: nat, l: Local, sh: Shared, c: Call, a: nat, b: nat)
    ensures var s := Solo(t, l, sh, c, a); Solo(t, s.0, s.1, c, b) == Solo(t, l, sh, c, a + b)
  {
    hide Step;
    if b > 0 { SoloJoins(t, l, sh, c, a, b - 1); }
  }

  /** Between publications, with nothing pending. */
  ghost predicate QuietShared(sh: Shared) {
    && sh.r.seqno % 2 == 0 && |sh.r.published| > 0 && sh.r.published[|sh.r.published| - 1] == sh.r.f
    && sh.k.token.NoToken? && sh.d.state.DurableNone? && !UsbGateShut(sh.u.state)
  }

  /** All is quiet and nobody writes. */
  ghost predicate Calm(sh: Shared) { QuietShared(sh) && sh.r.owner.None? && sh.r.mid.None? }

  /** The same but that thread t holds the writer, between publications. */
  ghost predicate Held(t: nat, sh: Shared) { QuietShared(sh) && sh.r.owner == Some(t) && sh.r.mid.None? }

  ghost predicate SameButRoute(sh: Shared, sh': Shared) {
    sh'.d == sh.d && sh'.k == sh.k && sh'.u == sh.u && sh'.c == sh.c
  }

  /** One more publication. */
  ghost predicate Publishes(r: RoutePart, r': RoutePart, f: Fields) {
    r'.f == f && r'.published == r.published + [f] && r'.seqno == r.seqno + 2 && r'.mid.None?
  }

  /** The cold boot is calm and without a route, so all of the following can be reached from it. */
  lemma ColdBootIsCalm()
    ensures Calm(InitShared) && InitShared.r.f == NoneAt(0)
  {
  }

  // ---------------------------------------------------------------- common parts

  lemma SnapsFirst(t: nat, l: Local, sh: Shared, c: Call)
    requires l.pc == Snapping(SnapBefore) && QuietShared(sh)
    ensures var s := Solo(t, l, sh, c, 4);
      && s.1 == sh && s.0.pc == Snapping(SnapTransition) && s.0 == l.(pc := s.0.pc, s := s.0.s)
      && s.0.s.ret == l.s.ret && s.0.s.before == sh.r.seqno && s.0.s.seen.(trans := sh.r.f.trans) == sh.r.f
  {
    hide StepIdle, StepMatches, StepPending, StepEntering, StepCommit, StepStage, StepRelease, StepVerdict;
    hide StepRetire, StepLeave, StepInvalidate, StepClaim, StepClaimHeld, StepCancel, StepHeldClaim, StepUsb;
    SoloSteps(t, l, sh, c);
  }

  lemma SnapsSecond(t: nat, l: Local, sh: Shared, c: Call)
    requires l.pc == Snapping(SnapTransition) && QuietShared(sh)
    requires l.s.before == sh.r.seqno && l.s.seen.(trans := sh.r.f.trans) == sh.r.f
    ensures var s := Solo(t, l, sh, c, 5);
      && s.1 == sh && s.0.pc == SnapReturn(l.s.ret) && s.0 == l.(pc := s.0.pc, s := s.0.s)
      && s.0.s.snap == Snap(sh.r.f, false, true)
  {
    hide StepIdle, StepMatches, StepPending, StepEntering, StepCommit, StepStage, StepRelease, StepVerdict;
    hide StepRetire, StepLeave, StepInvalidate, StepClaim, StepClaimHeld, StepCancel, StepHeldClaim, StepUsb;
    SoloSteps(t, l, sh, c);
  }

  /** A snapshot shows the fields, coherent and not pending. */
  lemma SnapsAlone(t: nat, l: Local, sh: Shared, c: Call)
    requires l.pc == Snapping(SnapBefore) && QuietShared(sh)
    ensures var s := Solo(t, l, sh, c, 9);
      && s.1 == sh && s.0.pc == SnapReturn(l.s.ret) && s.0 == l.(pc := s.0.pc, s := s.0.s)
      && s.0.s.snap == Snap(sh.r.f, false, true)
  {
    hide Step, SnapReturn;
    SnapsFirst(t, l, sh, c);
    var s := Solo(t, l, sh, c, 4);
    SnapsSecond(t, s.0, s.1, c);
    SoloJoins(t, l, sh, c, 4, 5);
  }

  lemma SeesNothingPending(t: nat, l: Local, sh: Shared, c: Call)
    requires l.pc == Pending(PendUsb) && QuietShared(sh)
    ensures var s := Solo(t, l, sh, c, 3);
      && s.1 == sh && s.0.pc == PendReturn(l.p.ret) && !s.0.p.pend && s.0 == l.(pc := s.0.pc, p := s.0.p)
  {
    hide StepIdle, StepSnapshot, StepMatches, StepEntering, StepCommit, StepStage, StepRelease, StepVerdict;
    hide StepRetire, StepLeave, StepInvalidate, StepClaim, StepClaimHeld, StepCancel, StepHeldClaim, StepUsb;
    SoloSteps(t, l, sh, c);
  }

  lemma LeavesAlone(t: nat, l: Local, sh: Shared, c: Call)
    requires l.pc == Leaving(LeaveDurable) && Held(t, sh)
    ensures var s := Solo(t, l, sh, c, 3);
      && s.0.pc == LeaveReturn(l.v.ret) && s.0 == l.(pc := s.0.pc, v := s.0.v)
      && s.1 == sh.(r := sh.r.(owner := None))
  {
    hide StepIdle, StepSnapshot, StepMatches, StepPending, StepEntering, StepCommit, StepStage, StepRelease;
    hide StepVerdict, StepRetire, StepInvalidate, StepClaim, StepClaimHeld, StepCancel, StepHeldClaim, StepUsb;
    SoloSteps(t, l, sh, c);
  }

  // ---------------------------------------------------------------- commit

  lemma CommitEnters(t: nat, l: Local, sh: Shared, c: Call)
    requires l.pc.Idle? && c.CallCommit? && CallAllowed(sh, l, c) && Calm(sh)
    ensures var s := Solo(t, l, sh, c, 2);
      && s.0.pc == Pending(PendUsb) && s.0.p.ret == PendForCommit && s.0.caller == l.caller && s.0.a.route == c.route
      && s.1 == sh.(r := EnterWriter(t, sh.r))
  {
    hide StepSnapshot, StepMatches, StepPending, StepCommit, StepStage, StepRelease, StepVerdict, StepRetire;
    hide StepLeave, StepInvalidate, StepClaim, StepClaimHeld, StepCancel, StepHeldClaim, StepUsb;
    SoloSteps(t, l, sh, c);
  }

  lemma BleCommitBegins(t: nat, l: Local, sh: Shared, c: Call)
    requires l.pc == Committing(CommitCheck) && !l.p.pend && l.a.route.Ble?
    requires Held(t, sh) && sh.r.f == NoneAt(sh.r.f.gen)
    ensures var s := Solo(t, l, sh, c, 5);
      && s.0.pc == Committing(CommitDesired) && s.0.a == l.a && s.0.w.gen == sh.r.f.gen + 1 && SameButRoute(sh, s.1)
      && s.1.r == sh.r.(seqno := sh.r.seqno + 1, f := NoneAt(sh.r.f.gen + 1), mid := Some(Ble))
  {
    hide StepIdle, StepSnapshot, StepMatches, StepPending, StepEntering, StepStage, StepRelease, StepVerdict;
    hide StepRetire, StepLeave, StepInvalidate, StepClaim, StepClaimHeld, StepCancel, StepHeldClaim, StepUsb;
    SoloSteps(t, l, sh, c);
  }

  lemma UsbCommitOpens(t: nat, l: Local, sh: Shared, c: Call)
    requires l.pc == Committing(CommitCheck) && !l.p.pend && l.a.route.Usb?
    requires Held(t, sh) && sh.r.f == NoneAt(sh.r.f.gen) && sh.u.state == l.caller.cut
    ensures var s := Solo(t, l, sh, c, 4);
      && s.0.pc == Committing(CommitSeeToken) && s.0.a == l.a && s.0.w.gen == sh.r.f.gen + 1
      && s.1.d == sh.d && s.1.k == sh.k && s.1.c == sh.c
      && s.1.u.state == s.0.w.ident == UsbPub(sh.u.state.serial + 1, true, false)
      && s.1.r == sh.r.(seqno := sh.r.seqno + 1, f := NoneAt(sh.r.f.gen + 1), mid := Some(Usb))
  {
    hide StepIdle, StepSnapshot, StepMatches, StepPending, StepEntering, StepStage, StepRelease, StepVerdict;
    hide StepRetire, StepLeave, StepInvalidate, StepClaim, StepClaimHeld, StepCancel, StepHeldClaim, StepUsb;
    SoloSteps(t, l, sh, c);
  }

  lemma UsbCommitSees(t: nat, l: Local, sh: Shared, c: Call)
    requires l.pc == Committing(CommitSeeToken) && l.a.route.Usb? && sh.u.state == l.w.ident
    requires sh.k.token.NoToken? && sh.d.state.DurableNone?
    ensures var s := Solo(t, l, sh, c, 3);
      && s.1 == sh && s.0 == l.(pc := Committing(CommitDesired))
  {
    hide StepIdle, StepSnapshot, StepMatches, StepPending, StepEntering, StepStage, StepRelease, StepVerdict;
    hide StepRetire, StepLeave, StepInvalidate, StepClaim, StepClaimHeld, StepCancel, StepHeldClaim, StepUsb;
    SoloSteps(t, l, sh, c);
  }

  lemma UsbCommitBegins(t: nat, l: Local, sh: Shared, c: Call)
    requires l.pc == Committing(CommitCheck) && !l.p.pend && l.a.route.Usb?
    requires Held(t, sh) && sh.r.f == NoneAt(sh.r.f.gen) && sh.u.state == l.caller.cut
    ensures var s := Solo(t, l, sh, c, 7);
      && s.0.pc == Committing(CommitDesired) && s.0.a == l.a && s.0.w.gen == sh.r.f.gen + 1
      && s.1.d == sh.d && s.1.k == sh.k && s.1.c == sh.c
      && s.1.u.state == s.0.w.ident == UsbPub(sh.u.state.serial + 1, true, false)
      && s.1.r == sh.r.(seqno := sh.r.seqno + 1, f := NoneAt(sh.r.f.gen + 1), mid := Some(Usb))
  {
    hide Step;
    UsbCommitOpens(t, l, sh, c);
    var s := Solo(t, l, sh, c, 4);
    UsbCommitSees(t, s.0, s.1, c);
    SoloJoins(t, l, sh, c, 4, 3);
  }

  lemma CommitSetsRoute(t: nat, l: Local, sh: Shared, c: Call)
    requires l.pc == Committing(CommitDesired) && sh.r.f == NoneAt(sh.r.f.gen)
    ensures var s := Solo(t, l, sh, c, 2);
      && s.0 == l.(pc := Committing(CommitTransition)) && SameButRoute(sh, s.1)
      && s.1.r == sh.r.(f := Fields(l.a.route, l.a.route, sh.r.f.gen, Stable), mid := None)
  {
    hide StepIdle, StepSnapshot, StepMatches, StepPending, StepEntering, StepStage, StepRelease, StepVerdict;
    hide StepRetire, StepLeave, StepInvalidate, StepClaim, StepClaimHeld, StepCancel, StepHeldClaim, StepUsb;
    SoloSteps(t, l, sh, c);
  }

  lemma CommitPublishes(t: nat, l: Local, sh: Shared, c: Call)
    requires l.pc == Committing(CommitTransition) && !l.a.route.NoRoute? && sh.r.f.trans.Stable?
    ensures var s := Solo(t, l, sh, c, 2);
      && s.0.a == l.a && s.0.w == l.w && SameButRoute(sh, s.1)
      && s.0.pc == (if l.a.route.Usb? then Committing(CommitFinish) else Leaving(LeaveDurable))
      && (l.a.route.Ble? ==> s.0.v.ret == LeaveToCommit)
      && s.1.r == sh.r.(seqno := sh.r.seqno + 1, published := sh.r.published + [sh.r.f])
  {
    hide StepIdle, StepSnapshot, StepMatches, StepPending, StepEntering, StepStage, StepRelease, StepVerdict;
    hide StepRetire, StepLeave, StepInvalidate, StepClaim, StepClaimHeld, StepCancel, StepHeldClaim, StepUsb;
    SoloSteps(t, l, sh, c);
  }

  lemma CommitStores(t: nat, l: Local, sh: Shared, c: Call)
    requires l.pc == Committing(CommitDesired) && !l.a.route.NoRoute? && sh.r.f == NoneAt(sh.r.f.gen)
    ensures var s := Solo(t, l, sh, c, 4);
      && s.0.a == l.a && s.0.w == l.w && SameButRoute(sh, s.1)
      && s.0.pc == (if l.a.route.Usb? then Committing(CommitFinish) else Leaving(LeaveDurable))
      && (l.a.route.Ble? ==> s.0.v.ret == LeaveToCommit)
      && var f := Fields(l.a.route, l.a.route, sh.r.f.gen, Stable);
         s.1.r == RoutePart(sh.r.seqno + 1, f, sh.r.owner, sh.r.published + [f], None)
  {
    hide Step;
    CommitSetsRoute(t, l, sh, c);
    var s := Solo(t, l, sh, c, 2);
    CommitPublishes(t, s.0, s.1, c);
    SoloJoins(t, l, sh, c, 2, 2);
  }

  lemma CommitConcludes(t: nat, l: Local, sh: Shared, c: Call)
    requires l.pc == Verdict(CommitObserve) && QuietShared(sh)
    ensures var s := Solo(t, l, sh, c, 1);
      && s.1 == sh && s.0.pc == Snapping(SnapBefore) && s.0.s.ret == SnapForCommit && s.0.a == l.a && s.0.w == l.w
  {
    hide StepIdle, StepSnapshot, StepMatches, StepPending, StepEntering, StepCommit, StepStage, StepRelease;
    hide StepRetire, StepLeave, StepInvalidate, StepClaim, StepClaimHeld, StepCancel, StepHeldClaim, StepUsb;
    SoloSteps(t, l, sh, c);
  }

  /** From the last store of a commit to its answer: true. */
  lemma CommitAnswers(t: nat, l: Local, sh: Shared, c: Call)
    requires l.pc == Leaving(LeaveDurable) && l.v.ret == LeaveToCommit && Held(t, sh)
    requires sh.r.f == Fields(l.a.route, l.a.route, l.w.gen, Stable)
    ensures var s := Solo(t, l, sh, c, 14); s.0.pc.DoneCommit? && s.0.out.ok && s.1 == sh.(r := sh.r.(owner := None))
  {
    hide StepIdle, StepSnapshot, StepPending, StepEntering, StepCommit, StepLeave, SnapReturn;
    LeavesAlone(t, l, sh, c);
    var s3 := Solo(t, l, sh, c, 3);
    CommitConcludes(t, s3.0, s3.1, c);
    SoloJoins(t, l, sh, c, 3, 1);
    var s4 := Solo(t, l, sh, c, 4);
    SnapsAlone(t, s4.0, s4.1, c);
    SoloJoins(t, l, sh, c, 4, 9);
    var s13 := Solo(t, l, sh, c, 13);
    assert s13.0.pc == Verdict(CommitVerdict) by { SnapsBack(); }
    assert Solo(t, l, sh, c, 14) == Step(t, s13.0, s13.1, c);
  }

  lemma SnapsBack()
    ensures SnapReturn(SnapForCommit) == Verdict(CommitVerdict)
  {
  }

  lemma UsbFinishes(t: nat, l: Local, sh: Shared, c: Call)
    requires l.pc == Committing(CommitFinish) && sh.u.state == l.w.ident
    ensures var s := Solo(t, l, sh, c, 1);
      && s.0.pc == Leaving(LeaveDurable) && s.0.v.ret == LeaveToCommit && s.0.a == l.a && s.0.w.gen == l.w.gen
      && s.1.r == sh.r && s.1.d == sh.d && s.1.k == sh.k && s.1.c == sh.c
      && s.1.u.finished == sh.u.finished + {l.w.gen} && s.1.u.state == Advance(l.w.ident)
  {
    hide StepIdle, StepSnapshot, StepMatches, StepPending, StepEntering, StepStage, StepRelease, StepVerdict;
    hide StepRetire, StepLeave, StepInvalidate, StepClaim, StepClaimHeld, StepCancel, StepHeldClaim, StepUsb;
    SoloSteps(t, l, sh, c);
  }

  lemma CommitChecks(t: nat, l: Local, sh: Shared, c: Call)
    requires l.pc.Idle? && c.CallCommit? && !c.route.NoRoute? && Calm(sh)
    ensures var s := Solo(t, l, sh, c, 5);
      && s.0.pc == Committing(CommitCheck) && !s.0.p.pend && s.0.a.route == c.route && s.0.caller == l.caller
      && s.1 == sh.(r := EnterWriter(t, sh.r))
  {
    hide Step;
    CommitEnters(t, l, sh, c);
    var s := Solo(t, l, sh, c, 2);
    SeesNothingPending(t, s.0, s.1, c);
    SoloJoins(t, l, sh, c, 2, 3);
  }

  /**
   commit_ble_if_none alone, without a route: the BLE route of the next generation is published,
   and the answer is true.
   */
  lemma BleCommitsAlone(t: nat, l: Local, sh: Shared)
    requires l.pc.Idle? && Calm(sh) && sh.r.f == NoneAt(sh.r.f.gen)
    ensures var s := Solo(t, l, sh, CallCommit(Ble), 28);
      && s.0.pc.DoneCommit? && s.0.out.ok && Calm(s.1) && SameButRoute(sh, s.1)
      && Publishes(sh.r, s.1.r, Fields(Ble, Ble, sh.r.f.gen + 1, Stable))
  {
    hide Step;
    var c := CallCommit(Ble);
    CommitChecks(t, l, sh, c);
    var s5 := Solo(t, l, sh, c, 5);
    BleCommitBegins(t, s5.0, s5.1, c);
    SoloJoins(t, l, sh, c, 5, 5);
    var s10 := Solo(t, l, sh, c, 10);
    CommitStores(t, s10.0, s10.1, c);
    SoloJoins(t, l, sh, c, 10, 4);
    var s14 := Solo(t, l, sh, c, 14);
    CommitAnswers(t, s14.0, s14.1, c);
    SoloJoins(t, l, sh, c, 14, 14);
  }

  /** commit_usb_if_none alone, with the current cut: the same for USB, and its publication is finished. */
  lemma UsbCommitsAlone(t: nat, l: Local, sh: Shared)
    requires l.pc.Idle? && Calm(sh) && sh.r.f == NoneAt(sh.r.f.gen) && sh.u.state == l.caller.cut
    ensures var s := Solo(t, l, sh, CallCommit(Usb), 31);
      && s.0.pc.DoneCommit? && s.0.out.ok && Calm(s.1)
      && Publishes(sh.r, s.1.r, Fields(Usb, Usb, sh.r.f.gen + 1, Stable))
      && sh.r.f.gen + 1 in s.1.u.finished
  {
    hide Step;
    var c := CallCommit(Usb);
    CommitChecks(t, l, sh, c);
    var s5 := Solo(t, l, sh, c, 5);
    UsbCommitBegins(t, s5.0, s5.1, c);
    SoloJoins(t, l, sh, c, 5, 7);
    var s12 := Solo(t, l, sh, c, 12);
    CommitStores(t, s12.0, s12.1, c);
    SoloJoins(t, l, sh, c, 12, 4);
    var s16 := Solo(t, l, sh, c, 16);
    UsbFinishes(t, s16.0, s16.1, c);
    SoloJoins(t, l, sh, c, 16, 1);
    var s17 := Solo(t, l, sh, c, 17);
    CommitAnswers(t, s17.0, s17.1, c);
    SoloJoins(t, l, sh, c, 17, 14);
  }

  // ---------------------------------------------------------------- release

  lemma StageEnters(t: nat, l: Local, sh: Shared, c: Call)
    requires l.pc.Idle? && c.CallBeginRelease? && CallAllowed(sh, l, c) && Calm(sh)
    ensures var s := Solo(t, l, sh, c, 2);
      && s.0.pc == Pending(PendUsb) && s.0.p.ret == PendForStage && s.0.caller == l.caller && s.0.a.route == c.route
      && s.1 == sh.(r := EnterWriter(t, sh.r))
  {
    hide StepSnapshot, StepMatches, StepPending, StepCommit, StepStage, StepRelease, StepVerdict, StepRetire;
    hide StepLeave, StepInvalidate, StepClaim, StepClaimHeld, StepCancel, StepHeldClaim, StepUsb;
    SoloSteps(t, l, sh, c);
  }

  lemma StageStores(t: nat, l: Local, sh: Shared, c: Call)
    requires l.pc == Staging(StageCheck) && !l.p.pend && sh.r.f == Fields(l.a.route, l.a.route, sh.r.f.gen, Stable)
    ensures var s := Solo(t, l, sh, c, 5);
      && s.0.pc == Snapping(SnapBefore) && s.0.s.ret == SnapForStageA && s.0.a == l.a && SameButRoute(sh, s.1)
      && var f := Fields(NoRoute, l.a.route, sh.r.f.gen, Releasing);
         s.1.r == RoutePart(sh.r.seqno + 2, f, sh.r.owner, sh.r.published + [f], sh.r.mid)
  {
    hide StepIdle, StepSnapshot, StepMatches, StepPending, StepEntering, StepCommit, StepRelease, StepVerdict;
    hide StepRetire, StepLeave, StepInvalidate, StepClaim, StepClaimHeld, StepCancel, StepHeldClaim, StepUsb;
    SoloSteps(t, l, sh, c);
  }

  lemma StageKeeps(t: nat, l: Local, sh: Shared, c: Call)
    requires l.pc == Staging(StageKeep)
    ensures var s := Solo(t, l, sh, c, 1);
      && s.1 == sh && s.0.pc == Leaving(LeaveDurable) && s.0.v.ret == LeaveToStage
      && s.0.a == l.a && s.0.out.stageA == l.s.snap
  {
    hide StepIdle, StepSnapshot, StepMatches, StepPending, StepEntering, StepCommit, StepRelease, StepVerdict;
    hide StepRetire, StepLeave, StepInvalidate, StepClaim, StepClaimHeld, StepCancel, StepHeldClaim, StepUsb;
    SoloSteps(t, l, sh, c);
  }

  lemma StageObserves(t: nat, l: Local, sh: Shared, c: Call)
    requires l.pc == Verdict(StageObserve)
    ensures var s := Solo(t, l, sh, c, 1);
      && s.1 == sh && s.0.pc == Snapping(SnapBefore) && s.0.s.ret == SnapForStage && s.0.a == l.a && s.0.out == l.out
  {
    hide StepIdle, StepSnapshot, StepMatches, StepPending, StepEntering, StepCommit, StepStage, StepRelease;
    hide StepRetire, StepLeave, StepInvalidate, StepClaim, StepClaimHeld, StepCancel, StepHeldClaim, StepUsb;
    SoloSteps(t, l, sh, c);
  }

  lemma StageDecides(t: nat, l: Local, sh: Shared, c: Call)
    requires l.pc == Verdict(StageVerdict) && l.s.snap == l.out.stageA
    requires l.s.snap == Snap(Fields(NoRoute, l.a.route, sh.r.f.gen, Releasing), false, true)
    ensures var s := Solo(t, l, sh, c, 1);
      && s.1 == sh && s.0.pc.Done? && s.0.out.ok && s.0.out.stageA == l.out.stageA
  {
    hide StepIdle, StepSnapshot, StepMatches, StepPending, StepEntering, StepCommit, StepStage, StepRelease;
    hide StepRetire, StepLeave, StepInvalidate, StepClaim, StepClaimHeld, StepCancel, StepHeldClaim, StepUsb;
    SoloSteps(t, l, sh, c);
  }

  lemma StageChecks(t: nat, l: Local, sh: Shared, c: Call)
    requires l.pc.Idle? && c.CallBeginRelease? && !c.route.NoRoute? && Calm(sh)
    ensures var s := Solo(t, l, sh, c, 5);
      && s.0.pc == Staging(StageCheck) && !s.0.p.pend && s.0.a.route == c.route
      && s.1 == sh.(r := EnterWriter(t, sh.r))
  {
    hide Step;
    StageEnters(t, l, sh, c);
    var s := Solo(t, l, sh, c, 2);
    SeesNothingPending(t, s.0, s.1, c);
    SoloJoins(t, l, sh, c, 2, 3);
  }

  /** From stage A's publication to the answer: true, with the snapshot of stage A. */
  lemma StageAnswers(t: nat, l: Local, sh: Shared, c: Call)
    requires l.pc == Snapping(SnapBefore) && l.s.ret == SnapForStageA && Held(t, sh)
    requires sh.r.f == Fields(NoRoute, l.a.route, sh.r.f.gen, Releasing)
    ensures var s := Solo(t, l, sh, c, 24);
      s.0.pc.Done? && s.0.out.ok && s.0.out.stageA == Snap(sh.r.f, false, true) && s.1 == sh.(r := sh.r.(owner := None))
  {
    hide Step;
    SnapsAlone(t, l, sh, c);
    var s9 := Solo(t, l, sh, c, 9);
    StageKeeps(t, s9.0, s9.1, c);
    SoloJoins(t, l, sh, c, 9, 1);
    var s10 := Solo(t, l, sh, c, 10);
    LeavesAlone(t, s10.0, s10.1, c);
    SoloJoins(t, l, sh, c, 10, 3);
    var s13 := Solo(t, l, sh, c, 13);
    StageObserves(t, s13.0, s13.1, c);
    SoloJoins(t, l, sh, c, 13, 1);
    var s14 := Solo(t, l, sh, c, 14);
    SnapsAlone(t, s14.0, s14.1, c);
    SoloJoins(t, l, sh, c, 14, 9);
    var s23 := Solo(t, l, sh, c, 23);
    StageDecides(t, s23.0, s23.1, c);
    SoloJoins(t, l, sh, c, 23, 1);
  }

  /** begin_release alone, on the stable route: stage A is published and returned, and the answer is true. */
  lemma BeginsReleaseAlone(t: nat, l: Local, sh: Shared, route: Route)
    requires l.pc.Idle? && Calm(sh) && !route.NoRoute? && sh.r.f == Fields(route, route, sh.r.f.gen, Stable)
    ensures var s := Solo(t, l, sh, CallBeginRelease(route), 34);
      var stageA := Fields(NoRoute, route, sh.r.f.gen, Releasing);
      && s.0.pc.Done? && s.0.out.ok && s.0.out.stageA == Snap(stageA, false, true)
      && Calm(s.1) && SameButRoute(sh, s.1) && Publishes(sh.r, s.1.r, stageA)
  {
    hide Step;
    var c := CallBeginRelease(route);
    StageChecks(t, l, sh, c);
    var s5 := Solo(t, l, sh, c, 5);
    StageStores(t, s5.0, s5.1, c);
    SoloJoins(t, l, sh, c, 5, 5);
    var s10 := Solo(t, l, sh, c, 10);
    StageAnswers(t, s10.0, s10.1, c);
    SoloJoins(t, l, sh, c, 10, 24);
  }

  lemma ReleaseEnters(t: nat, l: Local, sh: Shared, c: Call)
    requires l.pc.Idle? && c.CallCompleteRelease? && CallAllowed(sh, l, c) && Calm(sh)
    ensures var s := Solo(t, l, sh, c, 2);
      && s.0.pc == Pending(PendUsb) && s.0.p.ret == PendForRelease && s.0.caller == l.caller
      && s.0.a.route == c.route && s.0.a.exp == c.exp
      && s.1 == sh.(r := EnterWriter(t, sh.r))
  {
    hide StepSnapshot, StepMatches, StepPending, StepCommit, StepStage, StepRelease, StepVerdict, StepRetire;
    hide StepLeave, StepInvalidate, StepClaim, StepClaimHeld, StepCancel, StepHeldClaim, StepUsb;
    SoloSteps(t, l, sh, c);
  }

  lemma ReleaseOpens(t: nat, l: Local, sh: Shared, c: Call)
    requires l.pc == Completing(ReleaseCheck) && !l.p.pend
    requires sh.r.f == Fields(NoRoute, l.a.route, sh.r.f.gen, Releasing) && l.a.exp.f == sh.r.f
    ensures var s := Solo(t, l, sh, c, 3);
      && s.0 == l.(pc := Completing(ReleaseBump)) && SameButRoute(sh, s.1)
      && s.1.r == sh.r.(seqno := sh.r.seqno + 1, f := Fields(NoRoute, NoRoute, sh.r.f.gen, Releasing))
  {
    hide StepIdle, StepSnapshot, StepMatches, StepPending, StepEntering, StepCommit, StepStage, StepVerdict;
    hide StepRetire, StepLeave, StepInvalidate, StepClaim, StepClaimHeld, StepCancel, StepHeldClaim, StepUsb;
    SoloSteps(t, l, sh, c);
  }

  lemma ReleaseCloses(t: nat, l: Local, sh: Shared, c: Call)
    requires l.pc == Completing(ReleaseBump) && sh.r.f.desired.NoRoute? && sh.r.f.active.NoRoute?
    ensures var s := Solo(t, l, sh, c, 3);
      && s.0.pc == Leaving(LeaveDurable) && s.0.v.ret == LeaveToRelease && SameButRoute(sh, s.1)
      && var f := NoneAt(sh.r.f.gen + 1);
         s.1.r == RoutePart(sh.r.seqno + 1, f, sh.r.owner, sh.r.published + [f], sh.r.mid)
  {
    hide StepIdle, StepSnapshot, StepMatches, StepPending, StepEntering, StepCommit, StepStage, StepVerdict;
    hide StepRetire, StepLeave, StepInvalidate, StepClaim, StepClaimHeld, StepCancel, StepHeldClaim, StepUsb;
    SoloSteps(t, l, sh, c);
  }

  lemma ReleaseStores(t: nat, l: Local, sh: Shared, c: Call)
    requires l.pc == Completing(ReleaseCheck) && !l.p.pend
    requires sh.r.f == Fields(NoRoute, l.a.route, sh.r.f.gen, Releasing) && l.a.exp.f == sh.r.f
    ensures var s := Solo(t, l, sh, c, 6);
      && s.0.pc == Leaving(LeaveDurable) && s.0.v.ret == LeaveToRelease && SameButRoute(sh, s.1)
      && var f := NoneAt(sh.r.f.gen + 1);
         s.1.r == RoutePart(sh.r.seqno + 2, f, sh.r.owner, sh.r.published + [f], sh.r.mid)
  {
    hide Step;
    ReleaseOpens(t, l, sh, c);
    var s := Solo(t, l, sh, c, 3);
    ReleaseCloses(t, s.0, s.1, c);
    SoloJoins(t, l, sh, c, 3, 3);
  }

  lemma ReleaseObserves(t: nat, l: Local, sh: Shared, c: Call)
    requires l.pc == Verdict(ReleasePending)
    ensures var s := Solo(t, l, sh, c, 1);
      && s.1 == sh && s.0.pc == Pending(PendUsb) && s.0.p.ret == PendAfterRelease
  {
    hide StepIdle, StepSnapshot, StepMatches, StepPending, StepEntering, StepCommit, StepStage, StepRelease;
    hide StepRetire, StepLeave, StepInvalidate, StepClaim, StepClaimHeld, StepCancel, StepHeldClaim, StepUsb;
    SoloSteps(t, l, sh, c);
  }

  lemma ReleaseDecides(t: nat, l: Local, sh: Shared, c: Call)
    requires l.pc == Verdict(ReleaseVerdict) && !l.p.pend
    ensures var s := Solo(t, l, sh, c, 1);
      && s.1 == sh && s.0.pc.Done? && s.0.out.ok
  {
    hide StepIdle, StepSnapshot, StepMatches, StepPending, StepEntering, StepCommit, StepStage, StepRelease;
    hide StepRetire, StepLeave, StepInvalidate, StepClaim, StepClaimHeld, StepCancel, StepHeldClaim, StepUsb;
    SoloSteps(t, l, sh, c);
  }

  /** complete_release alone, with stage A: none in the next generation, and the answer is true. */
  lemma CompletesReleaseAlone(t: nat, l: Local, sh: Shared, route: Route, stageA: Snap)
    requires l.pc.Idle? && Calm(sh) && !route.NoRoute?
    requires sh.r.f == Fields(NoRoute, route, sh.r.f.gen, Releasing) && stageA.f == sh.r.f
    ensures var s := Solo(t, l, sh, CallCompleteRelease(route, stageA), 19);
      && s.0.pc.Done? && s.0.out.ok && Calm(s.1) && SameButRoute(sh, s.1)
      && Publishes(sh.r, s.1.r, NoneAt(sh.r.f.gen + 1))
  {
    hide Step;
    var c := CallCompleteRelease(route, stageA);
    ReleaseEnters(t, l, sh, c);
    var s2 := Solo(t, l, sh, c, 2);
    SeesNothingPending(t, s2.0, s2.1, c);
    SoloJoins(t, l, sh, c, 2, 3);
    var s5 := Solo(t, l, sh, c, 5);
    ReleaseStores(t, s5.0, s5.1, c);
    SoloJoins(t, l, sh, c, 5, 6);
    var s11 := Solo(t, l, sh, c, 11);
    LeavesAlone(t, s11.0, s11.1, c);
    SoloJoins(t, l, sh, c, 11, 3);
    var s14 := Solo(t, l, sh, c, 14);
    ReleaseObserves(t, s14.0, s14.1, c);
    SoloJoins(t, l, sh, c, 14, 1);
    var s15 := Solo(t, l, sh, c, 15);
    SeesNothingPending(t, s15.0, s15.1, c);
    SoloJoins(t, l, sh, c, 15, 3);
    var s18 := Solo(t, l, sh, c, 18);
    ReleaseDecides(t, s18.0, s18.1, c);
    SoloJoins(t, l, sh, c, 18, 1);
  }

  // ---------------------------------------------------------------- invalidation

  /** The same shared state, but for the durable slot's auxiliary history. */
  ghost predicate SameButDurable(sh: Shared, sh': Shared) {
    sh'.r == sh.r && sh'.k == sh.k && sh'.u == sh.u && sh'.c == sh.c
  }

  lemma PublishesDurable(t: nat, l: Local, sh: Shared)
    requires l.pc.Idle? && sh.d.state.DurableNone?
    ensures var s := Solo(t, l, sh, CallInvalidate, 4);
      s.0.pc == Invalidating(DurActivate) && s.0.a.gen == sh.r.f.gen && !s.0.a.exact
      && SameButDurable(sh, s.1) && s.1.d.target == sh.r.f.gen && s.1.d.state.DurablePublishing?
  {
    hide StepSnapshot, StepMatches, StepPending, StepEntering, StepCommit, StepStage, StepRelease, StepVerdict;
    hide StepRetire, StepLeave, StepClaim, StepClaimHeld, StepCancel, StepHeldClaim, StepUsb;
    SoloSteps(t, l, sh, CallInvalidate);
  }

  lemma LeavesQuiet(t: nat, l: Local, sh: Shared)
    requires l.pc == Leaving(LeaveDurable) && l.v.ret == LeaveDone && sh.d.state.DurableActive?
    requires sh.r.f.active.NoRoute? && sh.k.token.NoToken?
    ensures var s := Solo(t, l, sh, CallInvalidate, 7);
      && s.0.pc.Idle? && s.1.d.state.DurableNone?
      && s.1.r == sh.r.(owner := None) && s.1.k == sh.k && s.1.u == sh.u && s.1.c == sh.c
  {
    hide StepIdle, StepSnapshot, StepMatches, StepPending, StepEntering, StepCommit, StepStage, StepRelease;
    hide StepVerdict, StepRetire, StepInvalidate, StepClaim, StepClaimHeld, StepCancel, StepHeldClaim, StepUsb;
    SoloSteps(t, l, sh, CallInvalidate);
  }

  lemma InvalidationEnters(t: nat, l: Local, sh: Shared, c: Call)
    requires l.pc == Invalidating(DurActivate) && !l.a.exact && sh.r.owner.None?
    ensures var s := Solo(t, l, sh, c, 2);
      && s.0.pc == Retiring(RetireCheck) && s.0.n.ret == RetireForInvalidate && !s.0.n.exact
      && s.1.r == EnterWriter(t, sh.r) && s.1.k == sh.k && s.1.u == sh.u && s.1.c == sh.c
      && s.1.d.state.DurableActive? && s.1.d.target == sh.d.target
  {
    hide StepIdle, StepSnapshot, StepMatches, StepPending, StepEntering, StepCommit, StepStage, StepRelease;
    hide StepVerdict, StepRetire, StepLeave, StepClaim, StepClaimHeld, StepCancel, StepHeldClaim, StepUsb;
    SoloSteps(t, l, sh, c);
  }

  lemma RetireOpens(t: nat, l: Local, sh: Shared, c: Call)
    requires l.pc == Retiring(RetireCheck) && !l.n.exact && !sh.r.f.active.NoRoute?
    ensures var s := Solo(t, l, sh, c, 4);
      && s.0.pc == Retiring(RetireBump) && s.0.n.ret == l.n.ret && SameButRoute(sh, s.1)
      && s.1.r == sh.r.(seqno := sh.r.seqno + 1, f := sh.r.f.(desired := NoRoute, active := NoRoute))
  {
    hide StepIdle, StepSnapshot, StepMatches, StepPending, StepEntering, StepCommit, StepStage, StepRelease;
    hide StepVerdict, StepLeave, StepInvalidate, StepClaim, StepClaimHeld, StepCancel, StepHeldClaim, StepUsb;
    SoloSteps(t, l, sh, c);
  }

  lemma RetireCloses(t: nat, l: Local, sh: Shared, c: Call)
    requires l.pc == Retiring(RetireBump) && sh.r.f.desired.NoRoute? && sh.r.f.active.NoRoute?
    ensures var s := Solo(t, l, sh, c, 3);
      && s.0.pc == RetireReturn(l.n.ret) && s.0.n.changed && SameButRoute(sh, s.1)
      && var f := NoneAt(sh.r.f.gen + 1);
         s.1.r == RoutePart(sh.r.seqno + 1, f, sh.r.owner, sh.r.published + [f], sh.r.mid)
  {
    hide StepIdle, StepSnapshot, StepMatches, StepPending, StepEntering, StepCommit, StepStage, StepRelease;
    hide StepVerdict, StepLeave, StepInvalidate, StepClaim, StepClaimHeld, StepCancel, StepHeldClaim, StepUsb;
    SoloSteps(t, l, sh, c);
  }

  lemma RetiresRoute(t: nat, l: Local, sh: Shared, c: Call)
    requires l.pc == Retiring(RetireCheck) && !l.n.exact && !sh.r.f.active.NoRoute?
    ensures var s := Solo(t, l, sh, c, 7);
      && s.0.pc == RetireReturn(l.n.ret) && s.0.n.changed && SameButRoute(sh, s.1)
      && var f := NoneAt(sh.r.f.gen + 1);
         s.1.r == RoutePart(sh.r.seqno + 2, f, sh.r.owner, sh.r.published + [f], sh.r.mid)
  {
    hide Step, RetireReturn;
    RetireOpens(t, l, sh, c);
    var s := Solo(t, l, sh, c, 4);
    RetireCloses(t, s.0, s.1, c);
    SoloJoins(t, l, sh, c, 4, 3);
  }

  lemma InvalidationLeaves(t: nat, l: Local, sh: Shared, c: Call)
    requires l.pc == InvLeave
    ensures var s := Solo(t, l, sh, c, 1);
      && s.1 == sh && s.0.pc == Leaving(LeaveDurable) && s.0.v.ret == LeaveDone && s.0.out.ok == l.n.changed
  {
    hide StepIdle, StepSnapshot, StepMatches, StepPending, StepEntering, StepCommit, StepStage, StepRelease;
    hide StepVerdict, StepRetire, StepInvalidate, StepClaim, StepClaimHeld, StepCancel, StepHeldClaim, StepUsb;
    SoloSteps(t, l, sh, c);
  }

  /** invalidate() alone, on any route: none in the next generation, nothing left pending. */
  lemma InvalidatesAlone(t: nat, l: Local, sh: Shared)
    requires l.pc.Idle? && Calm(sh) && !sh.r.f.active.NoRoute?
    ensures var s := Solo(t, l, sh, CallInvalidate, 21);
      && s.0.pc.Idle? && Calm(s.1) && Publishes(sh.r, s.1.r, NoneAt(sh.r.f.gen + 1))
  {
    hide Step;
    var c := CallInvalidate;
    PublishesDurable(t, l, sh);
    var s4 := Solo(t, l, sh, c, 4);
    InvalidationEnters(t, s4.0, s4.1, c);
    SoloJoins(t, l, sh, c, 4, 2);
    var s6 := Solo(t, l, sh, c, 6);
    RetiresRoute(t, s6.0, s6.1, c);
    SoloJoins(t, l, sh, c, 6, 7);
    var s13 := Solo(t, l, sh, c, 13);
    InvalidationLeaves(t, s13.0, s13.1, c);
    SoloJoins(t, l, sh, c, 13, 1);
    var s14 := Solo(t, l, sh, c, 14);
    LeavesQuiet(t, s14.0, s14.1);
    SoloJoins(t, l, sh, c, 14, 7);
  }
}
