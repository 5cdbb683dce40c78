/**
 Invalidations and claims on their own: they take effect at once if nobody writes, are handed to
 the writer if somebody does, and leave alone what they were not meant for.
 */
module HidRouteHandover {
  import opened HidRoute
  import opened HidRouteSolo
  import opened HidRouteRefusals

  // ---------------------------------------------------------------- invalidate_if_matches

  lemma ComparesAlone(t: nat, l: Local, sh: Shared, exp: Snap)
    requires l.pc.Idle? && QuietShared(sh) && exp.coherent && !exp.f.active.NoRoute?
    ensures var s := Solo(t, l, sh, CallInvalidateIf(exp), 10);
      && s.1 == sh && s.0.pc == Invalidating(InvCompare) && s.0.a.exp == exp && s.0.a.exact
      && s.0.s.snap == Snap(sh.r.f, false, true)
  {
    hide Step, SnapReturn;
    var c := CallInvalidateIf(exp);
    LooksAtRoute(t, l, sh, exp);
    var s1 := Solo(t, l, sh, c, 1);
    SnapsAlone(t, s1.0, s1.1, c);
    SoloJoins(t, l, sh, c, 1, 9);
    ReturnsToCompare();
  }

  lemma ReturnsToCompare()
    ensures SnapReturn(SnapForInvalidate) == Invalidating(InvCompare)
  {
  }

  lemma LooksAtRoute(t: nat, l: Local, sh: Shared, exp: Snap)
    requires l.pc.Idle? && exp.coherent && !exp.f.active.NoRoute?
    ensures var s := Solo(t, l, sh, CallInvalidateIf(exp), 1);
      s.1 == sh && s.0.pc == Snapping(SnapBefore) && s.0.s.ret == SnapForInvalidate && s.0.a.exp == exp && s.0.a.exact
  {
    hide StepSnapshot, StepMatches, StepPending, StepEntering, StepCommit, StepStage, StepRelease, StepVerdict;
    hide StepRetire, StepLeave, StepClaim, StepClaimHeld, StepCancel, StepHeldClaim, StepUsb;
    SoloSteps(t, l, sh, CallInvalidateIf(exp));
  }

  lemma ComparesOther(t: nat, l: Local, sh: Shared, c: Call)
    requires l.pc == Invalidating(InvCompare) && l.s.snap.f != l.a.exp.f
    ensures var s := Solo(t, l, sh, c, 1); s.0.pc.Done? && !s.0.out.ok && s.1 == sh
  {
    hide StepIdle, StepSnapshot, StepMatches, StepPending, StepEntering, StepCommit, StepStage, StepRelease;
    hide StepVerdict, StepRetire, StepLeave, StepClaim, StepClaimHeld, StepCancel, StepHeldClaim, StepUsb;
    SoloSteps(t, l, sh, c);
  }

  /** invalidate_if_matches on another route than the expected one changes nothing and answers false. */
  lemma OtherRouteIsNotInvalidated(t: nat, l: Local, sh: Shared, exp: Snap)
    requires l.pc.Idle? && QuietShared(sh) && exp.coherent && !exp.f.active.NoRoute? && exp.f != sh.r.f
    ensures var s := Solo(t, l, sh, CallInvalidateIf(exp), 11); s.0.pc.Done? && !s.0.out.ok && s.1 == sh
  {
    hide Step;
    var c := CallInvalidateIf(exp);
    ComparesAlone(t, l, sh, exp);
    var s := Solo(t, l, sh, c, 10);
    ComparesOther(t, s.0, s.1, c);
    SoloJoins(t, l, sh, c, 10, 1);
  }

  lemma ReservesSlot(t: nat, l: Local, sh: Shared, c: Call)
    requires l.pc == Invalidating(InvCompare) && l.s.snap.coherent && l.s.snap.f == l.a.exp.f && sh.d.state.DurableNone?
    ensures var s := Solo(t, l, sh, c, 4);
      && s.0.pc == Invalidating(InvEnter) && s.0.a == l.a.(gen := l.a.exp.f.gen)
      && s.1.r == sh.r && s.1.k == sh.k && s.1.u == sh.u && s.1.c == sh.c
      && s.1.d.state.DurableActive? && s.1.d.target == l.a.exp.f.gen
  {
    hide StepIdle, StepSnapshot, StepMatches, StepPending, StepEntering, StepCommit, StepStage, StepRelease;
    hide StepVerdict, StepRetire, StepLeave, StepClaim, StepClaimHeld, StepCancel, StepHeldClaim, StepUsb;
    SoloSteps(t, l, sh, c);
  }

  lemma EntersToRetire(t: nat, l: Local, sh: Shared, c: Call)
    requires l.pc == Invalidating(InvEnter) && l.a.exact && sh.r.owner.None?
    ensures var s := Solo(t, l, sh, c, 1);
      && s.0.pc == Retiring(RetireCheck)
      && s.0.n == RetireVars(l.a.exp.f.active, l.a.exp.f.gen, true, false, RetireForInvalidate)
      && s.1 == sh.(r := EnterWriter(t, sh.r))
  {
    hide StepIdle, StepSnapshot, StepMatches, StepPending, StepEntering, StepCommit, StepStage, StepRelease;
    hide StepVerdict, StepRetire, StepLeave, StepClaim, StepClaimHeld, StepCancel, StepHeldClaim, StepUsb;
    SoloSteps(t, l, sh, c);
  }

  lemma LeavesWithSlot(t: nat, l: Local, sh: Shared, c: Call)
    requires l.pc == Leaving(LeaveDurable) && sh.d.state.DurableActive?
    requires sh.r.f.active.NoRoute? && sh.k.token.NoToken?
    ensures var s := Solo(t, l, sh, c, 6);
      && s.0 == l.(pc := LeaveReturn(l.v.ret), v := s.0.v) && s.1.d == sh.d.(state := DurableNone)
      && s.1.r == sh.r.(owner := None) && s.1.k == sh.k && s.1.u == sh.u && s.1.c == sh.c
  {
    hide StepIdle, StepSnapshot, StepMatches, StepPending, StepEntering, StepCommit, StepStage, StepRelease;
    hide StepVerdict, StepRetire, StepInvalidate, StepClaim, StepClaimHeld, StepCancel, StepHeldClaim, StepUsb;
    SoloSteps(t, l, sh, c);
  }

  /** On exactly the expected route it retires it, consumes its slot, and answers true. */
  lemma InvalidatesIfAlone(t: nat, l: Local, sh: Shared, exp: Snap)
    requires l.pc.Idle? && Calm(sh) && exp.coherent && !exp.f.active.NoRoute? && exp.f == sh.r.f
    ensures var s := Solo(t, l, sh, CallInvalidateIf(exp), 29);
      s.0.pc.Done? && s.0.out.ok && Calm(s.1) && Publishes(sh.r, s.1.r, NoneAt(sh.r.f.gen + 1))
  {
    hide Step, RetireReturn;
    var c := CallInvalidateIf(exp);
    ComparesAlone(t, l, sh, exp);
    var s10 := Solo(t, l, sh, c, 10);
    ReservesSlot(t, s10.0, s10.1, c);
    SoloJoins(t, l, sh, c, 10, 4);
    var s14 := Solo(t, l, sh, c, 14);
    EntersToRetire(t, s14.0, s14.1, c);
    SoloJoins(t, l, sh, c, 14, 1);
    var s15 := Solo(t, l, sh, c, 15);
    RetiresAlone(t, s15.0, s15.1, c);
    SoloJoins(t, l, sh, c, 15, 7);
    RetireGoesOn();
    var s22 := Solo(t, l, sh, c, 22);
    InvalidationLeaves(t, s22.0, s22.1, c);
    SoloJoins(t, l, sh, c, 22, 1);
    var s23 := Solo(t, l, sh, c, 23);
    LeavesWithSlot(t, s23.0, s23.1, c);
    SoloJoins(t, l, sh, c, 23, 6);
  }

  lemma RetireGoesOn()
    ensures RetireReturn(RetireForInvalidate) == InvLeave && RetireReturn(RetireForLeave) == Leaving(LeaveConsume)
  {
  }

  /** Without a route to expect, invalidate_if_matches and a claim have nothing to do. */
  lemma NothingToExpect(t: nat, l: Local, sh: Shared, exp: Snap, idx: nat)
    requires l.pc.Idle? && (!exp.coherent || exp.f.active.NoRoute?) && CallAllowed(sh, l, CallClaim(exp, idx))
    ensures var s := Solo(t, l, sh, CallInvalidateIf(exp), 1); s.0.pc.Done? && !s.0.out.ok && s.1 == sh
    ensures var s := Solo(t, l, sh, CallClaim(exp, idx), 1);
      s.0.pc.Done? && !s.0.out.ok && s.0.out.res == Stale && s.0.caller == l.caller && s.1 == sh
  {
    hide StepSnapshot, StepMatches, StepPending, StepEntering, StepCommit, StepStage, StepRelease, StepVerdict;
    hide StepRetire, StepLeave, StepClaim, StepClaimHeld, StepCancel, StepHeldClaim, StepUsb;
    SoloSteps(t, l, sh, CallInvalidateIf(exp));
    SoloSteps(t, l, sh, CallClaim(exp, idx));
  }

  // ---------------------------------------------------------------- the hand-off

  /** While another thread writes, invalidate() leaves its request in the slot and answers false. */
  lemma InvalidateAsksTheWriter(t: nat, l: Local, sh: Shared)
    requires l.pc.Idle? && sh.r.owner.Some? && sh.d.state.DurableNone?
    ensures var s := Solo(t, l, sh, CallInvalidate, 6);
      && s.0.pc.Done? && !s.0.out.ok && SameButDurable(sh, s.1)
      && s.1.d.state.DurableActive? && s.1.d.target == sh.r.f.gen && sh.r.f.gen in s.1.d.accepted
  {
    hide StepSnapshot, StepMatches, StepPending, StepEntering, StepCommit, StepStage, StepRelease, StepVerdict;
    hide StepRetire, StepLeave, StepClaim, StepClaimHeld, StepCancel, StepHeldClaim, StepUsb;
    SoloSteps(t, l, sh, CallInvalidate);
  }

  /** If the slot holds the same generation already, the request joins it; for another one it is not accepted. */
  lemma InvalidateJoins(t: nat, l: Local, sh: Shared)
    requires l.pc.Idle? && sh.d.state.DurableActive?
    ensures sh.d.target == sh.r.f.gen ==>
              var s := Solo(t, l, sh, CallInvalidate, 4);
              s.0.pc == Invalidating(InvEnter) && s.1 == sh.(d := sh.d.(accepted := sh.d.accepted + {sh.r.f.gen}))
    ensures sh.d.target != sh.r.f.gen ==>
              var s := Solo(t, l, sh, CallInvalidate, 4); s.0.pc.Done? && !s.0.out.ok && s.1 == sh
  {
    hide StepSnapshot, StepMatches, StepPending, StepEntering, StepCommit, StepStage, StepRelease, StepVerdict;
    hide StepRetire, StepLeave, StepClaim, StepClaimHeld, StepCancel, StepHeldClaim, StepUsb;
    SoloSteps(t, l, sh, CallInvalidate);
  }

  /** A writer that leaves keeps a token that shuts the gate of the stable USB route, and drops any other. */
  lemma LeavingKeepsGate(t: nat, l: Local, sh: Shared, c: Call) returns (k: nat)
    requires l.pc == Leaving(LeaveDurable) && sh.d.state.DurableNone? && sh.k.token.Token?
    ensures var s := Solo(t, l, sh, c, k);
      var keeps := sh.r.f == Fields(Usb, Usb, sh.k.target, Stable);
      && s.0.pc == LeaveReturn(l.v.ret) && s.0.out == l.out
      && s.1 == sh.(r := sh.r.(owner := None), k := if keeps then sh.k else sh.k.(token := NoToken))
  {
    hide StepIdle, StepSnapshot, StepMatches, StepPending, StepEntering, StepCommit, StepStage, StepRelease;
    hide StepVerdict, StepRetire, StepInvalidate, StepClaim, StepClaimHeld, StepCancel, StepHeldClaim, StepUsb;
    SoloSteps(t, l, sh, c);
    k := if sh.r.f == Fields(Usb, Usb, sh.k.target, Stable) then 4 else 5;
  }

  lemma TakesOver(t: nat, l: Local, sh: Shared, c: Call)
    requires l.pc == Leaving(LeaveDurable) && sh.d.state.DurableActive? && sh.d.target == sh.r.f.gen
    requires !sh.r.f.active.NoRoute?
    ensures var s := Solo(t, l, sh, c, 3);
      && s.1 == sh && s.0.pc == Retiring(RetireCheck) && s.0.v == l.v.(target := sh.r.f.gen) && s.0.out == l.out
      && s.0.n == RetireVars(sh.r.f.active, sh.r.f.gen, true, false, RetireForLeave)
  {
    hide StepIdle, StepSnapshot, StepMatches, StepPending, StepEntering, StepCommit, StepStage, StepRelease;
    hide StepVerdict, StepRetire, StepInvalidate, StepClaim, StepClaimHeld, StepCancel, StepHeldClaim, StepUsb;
    SoloSteps(t, l, sh, c);
  }

  lemma ConsumesSlot(t: nat, l: Local, sh: Shared, c: Call)
    requires l.pc == Leaving(LeaveConsume) && sh.d.state.DurableActive? && sh.r.f.active.NoRoute? && sh.k.token.NoToken?
    ensures var s := Solo(t, l, sh, c, 3);
      && s.0 == l.(pc := LeaveReturn(l.v.ret), v := s.0.v) && s.1.d == sh.d.(state := DurableNone)
      && s.1.r == sh.r.(owner := None) && s.1.k == sh.k && s.1.u == sh.u && s.1.c == sh.c
  {
    hide StepIdle, StepSnapshot, StepMatches, StepPending, StepEntering, StepCommit, StepStage, StepRelease;
    hide StepVerdict, StepRetire, StepInvalidate, StepClaim, StepClaimHeld, StepCancel, StepHeldClaim, StepUsb;
    SoloSteps(t, l, sh, c);
  }

  /**
   A writer that leaves and finds an invalidation of the current generation carries it out for the
   thread that asked: the route is retired, the slot free, the writer free.
   */
  lemma LeavingWriterRetires(t: nat, l: Local, sh: Shared, c: Call)
    requires l.pc == Leaving(LeaveDurable) && sh.r.owner == Some(t) && sh.k.token.NoToken?
    requires sh.d.state.DurableActive? && sh.d.target == sh.r.f.gen && !sh.r.f.active.NoRoute?
    ensures var s := Solo(t, l, sh, c, 13);
      && s.0.pc == LeaveReturn(l.v.ret) && s.0.out == l.out
      && s.1.r.owner.None? && s.1.d.state.DurableNone? && s.1.k == sh.k && s.1.u == sh.u && s.1.c == sh.c
      && s.1.r.f == NoneAt(sh.r.f.gen + 1) && s.1.r.published == sh.r.published + [NoneAt(sh.r.f.gen + 1)]
  {
    hide Step, RetireReturn, LeaveReturn;
    TakesOver(t, l, sh, c);
    var s3 := Solo(t, l, sh, c, 3);
    RetiresAlone(t, s3.0, s3.1, c);
    SoloJoins(t, l, sh, c, 3, 7);
    RetireGoesOn();
    var s10 := Solo(t, l, sh, c, 10);
    ConsumesSlot(t, s10.0, s10.1, c);
    SoloJoins(t, l, sh, c, 10, 3);
  }

  // ---------------------------------------------------------------- claims

  lemma ClaimLooks(t: nat, l: Local, sh: Shared, c: Call)
    requires l.pc.Idle? && c.CallClaim? && CallAllowed(sh, l, c) && l.caller.claim.None?
    requires c.exp.coherent && !c.exp.f.active.NoRoute?
    ensures var s := Solo(t, l, sh, c, 1);
      && s.1 == sh && s.0.pc == Snapping(SnapBefore) && s.0.s.ret == SnapForClaim
      && s.0.a.exp == c.exp && s.0.caller == l.caller && s.0.out.res == Stale
  {
    hide StepSnapshot, StepMatches, StepPending, StepEntering, StepCommit, StepStage, StepRelease, StepVerdict;
    hide StepRetire, StepLeave, StepInvalidate, StepClaim, StepClaimHeld, StepCancel, StepHeldClaim, StepUsb;
    SoloSteps(t, l, sh, c);
  }

  lemma ReturnsToClaim()
    ensures SnapReturn(SnapForClaim) == Claiming(ClaimCompare)
  {
  }

  lemma ClaimCompares(t: nat, l: Local, sh: Shared, c: Call)
    requires l.pc.Idle? && c.CallClaim? && CallAllowed(sh, l, c) && l.caller.claim.None? && QuietShared(sh)
    requires c.exp.coherent && !c.exp.f.active.NoRoute?
    ensures var s := Solo(t, l, sh, c, 10);
      && s.1 == sh && s.0.pc == Claiming(ClaimCompare) && s.0.s.snap == Snap(sh.r.f, false, true)
      && s.0.a.exp == c.exp && s.0.caller == l.caller && s.0.out.res == Stale
  {
    hide Step, SnapReturn;
    ClaimLooks(t, l, sh, c);
    var s1 := Solo(t, l, sh, c, 1);
    SnapsAlone(t, s1.0, s1.1, c);
    SoloJoins(t, l, sh, c, 1, 9);
    ReturnsToClaim();
  }

  lemma ClaimIsStale(t: nat, l: Local, sh: Shared, c: Call)
    requires l.pc == Claiming(ClaimCompare) && l.s.snap.coherent && l.s.snap.f != l.a.exp.f && l.caller.tok.NoToken?
    ensures var s := Solo(t, l, sh, c, 1);
      s.0.pc.Done? && !s.0.out.ok && s.0.out.res == l.out.res && s.1 == sh && s.0.caller == l.caller
  {
    hide StepIdle, StepSnapshot, StepMatches, StepPending, StepEntering, StepCommit, StepStage, StepRelease;
    hide StepVerdict, StepRetire, StepLeave, StepInvalidate, StepClaimHeld, StepCancel, StepHeldClaim, StepUsb;
    SoloSteps(t, l, sh, c);
  }

  /** A claim on a route that is no longer there is stale and changes nothing. */
  lemma StaleClaimIsRefused(t: nat, l: Local, sh: Shared, c: Call)
    requires l.pc.Idle? && c.CallClaim? && CallAllowed(sh, l, c) && l.caller.claim.None? && l.caller.tok.NoToken?
    requires QuietShared(sh) && c.exp.coherent && !c.exp.f.active.NoRoute? && c.exp.f != sh.r.f
    ensures var s := Solo(t, l, sh, c, 11);
      s.0.pc.Done? && !s.0.out.ok && s.0.out.res == Stale && s.1 == sh && s.0.caller == l.caller
  {
    hide Step;
    ClaimCompares(t, l, sh, c);
    var s := Solo(t, l, sh, c, 10);
    ClaimIsStale(t, s.0, s.1, c);
    SoloJoins(t, l, sh, c, 10, 1);
  }

  lemma TakesToken(t: nat, l: Local, sh: Shared, c: Call)
    requires l.pc == Claiming(ClaimCompare) && l.s.snap.f == l.a.exp.f && l.caller.tok.NoToken? && sh.k.token.NoToken?
    ensures var s := Solo(t, l, sh, c, 5);
      && s.0.pc == Claiming(ClaimEnter) && s.0.a.exp == l.a.exp && s.0.caller == l.caller.(tok := Token(sh.k.next))
      && s.1.r == sh.r && s.1.d == sh.d && s.1.u == sh.u && s.1.c == sh.c
      && s.1.k.token == Token(sh.k.next) && s.1.k.target == l.a.exp.f.gen && s.1.k.next == sh.k.next + 1
  {
    hide StepIdle, StepSnapshot, StepMatches, StepPending, StepEntering, StepCommit, StepStage, StepRelease;
    hide StepVerdict, StepRetire, StepLeave, StepInvalidate, StepClaimHeld, StepCancel, StepHeldClaim, StepUsb;
    SoloSteps(t, l, sh, c);
  }

  lemma TakesWriter(t: nat, l: Local, sh: Shared, c: Call)
    requires l.pc == Claiming(ClaimEnter) && sh.r.f == l.a.exp.f
    ensures sh.r.owner.None? ==>
              var s := Solo(t, l, sh, c, 2);
              && s.0.pc.Done? && s.0.out.ok && s.0.out.res == ClaimedExact
              && s.0.caller == l.caller.(claim := Some(Held(l.a.exp, l.caller.tok)))
              && s.1 == sh.(r := EnterWriter(t, sh.r), c := s.1.c)
              && OwnClaim(t, s.1.c) && s.1.c.live.value.exp == sh.r.f
    ensures sh.r.owner.Some? ==>
              var s := Solo(t, l, sh, c, 1);
              s.0.pc.Done? && !s.0.out.ok && s.0.out.res == ClaimPending && s.0.caller == l.caller && s.1 == sh
  {
    hide StepIdle, StepSnapshot, StepMatches, StepPending, StepEntering, StepCommit, StepStage, StepRelease;
    hide StepVerdict, StepRetire, StepLeave, StepInvalidate, StepCancel, StepHeldClaim, StepUsb;
    SoloSteps(t, l, sh, c);
  }

  /** A claim on the current route is granted: its token is published, and it holds the writer. */
  lemma ClaimsAlone(t: nat, l: Local, sh: Shared, c: Call)
    requires l.pc.Idle? && c.CallClaim? && CallAllowed(sh, l, c) && l.caller.claim.None? && l.caller.tok.NoToken?
    requires Calm(sh) && c.exp.coherent && !c.exp.f.active.NoRoute? && c.exp.f == sh.r.f
    ensures var s := Solo(t, l, sh, c, 17);
      && s.0.pc.Done? && s.0.out.ok && s.0.out.res == ClaimedExact
      && s.0.caller.claim == Some(Held(c.exp, Token(sh.k.next)))
      && s.1.r == EnterWriter(t, sh.r) && s.1.d == sh.d && s.1.u == sh.u
      && s.1.k.token == Token(sh.k.next) && s.1.k.target == sh.r.f.gen
      && OwnClaim(t, s.1.c) && s.1.c.live.value.exp == sh.r.f
  {
    hide Step;
    ClaimCompares(t, l, sh, c);
    var s10 := Solo(t, l, sh, c, 10);
    TakesToken(t, s10.0, s10.1, c);
    SoloJoins(t, l, sh, c, 10, 5);
    var s15 := Solo(t, l, sh, c, 15);
    TakesWriter(t, s15.0, s15.1, c);
    SoloJoins(t, l, sh, c, 15, 2);
  }

  /** While another thread writes it stays pending, and keeps its token for another try. */
  lemma ClaimWaitsForWriter(t: nat, l: Local, sh: Shared, c: Call)
    requires l.pc.Idle? && c.CallClaim? && CallAllowed(sh, l, c) && l.caller.claim.None? && l.caller.tok.NoToken?
    requires QuietShared(sh) && sh.r.owner.Some? && c.exp.coherent && !c.exp.f.active.NoRoute? && c.exp.f == sh.r.f
    ensures var s := Solo(t, l, sh, c, 16);
      && s.0.pc.Done? && !s.0.out.ok && s.0.out.res == ClaimPending && s.0.caller == l.caller.(tok := Token(sh.k.next))
      && s.1.r == sh.r && s.1.d == sh.d && s.1.u == sh.u && s.1.c == sh.c
      && s.1.k.token == Token(sh.k.next) && s.1.k.target == sh.r.f.gen
  {
    hide Step;
    ClaimCompares(t, l, sh, c);
    var s10 := Solo(t, l, sh, c, 10);
    TakesToken(t, s10.0, s10.1, c);
    SoloJoins(t, l, sh, c, 10, 5);
    var s15 := Solo(t, l, sh, c, 15);
    TakesWriter(t, s15.0, s15.1, c);
    SoloJoins(t, l, sh, c, 15, 1);
  }

  /** While another thread's token is out it is not granted, and takes none. */
  lemma ForeignTokenBlocks(t: nat, l: Local, sh: Shared, c: Call)
    requires l.pc == Claiming(ClaimCompare) && l.s.snap.f == l.a.exp.f && !sh.k.token.NoToken?
    requires l.caller.tok.NoToken? && l.out.res == Stale
    ensures var s := Solo(t, l, sh, c, 2);
      s.0.pc.Done? && !s.0.out.ok && s.0.out.res == Stale && s.0.caller == l.caller && s.1 == sh
  {
    hide StepIdle, StepSnapshot, StepMatches, StepPending, StepEntering, StepCommit, StepStage, StepRelease;
    hide StepVerdict, StepRetire, StepLeave, StepInvalidate, StepClaimHeld, StepCancel, StepHeldClaim, StepUsb;
    SoloSteps(t, l, sh, c);
  }

  /** A claim that enters the writer and finds another route withdraws its token and leaves. */
  lemma InexactClaimWithdraws(t: nat, l: Local, sh: Shared, c: Call)
    requires l.pc == Claiming(ClaimEnter) && sh.r.owner.None? && sh.r.f != l.a.exp.f && l.caller.tok.Token?
    requires sh.k.token == l.caller.tok && sh.k.target == l.a.exp.f.gen
    ensures var s := Solo(t, l, sh, c, 6);
      && s.0.pc == Leaving(LeaveDurable) && s.0.v.ret == LeaveDone && !s.0.out.ok && s.0.out.res == l.out.res
      && s.0.caller == l.caller.(tok := NoToken)
      && s.1 == sh.(r := EnterWriter(t, sh.r), k := sh.k.(token := NoToken))
  {
    hide StepIdle, StepSnapshot, StepMatches, StepPending, StepEntering, StepCommit, StepStage, StepRelease;
    hide StepVerdict, StepRetire, StepLeave, StepInvalidate, StepHeldClaim, StepUsb;
    SoloSteps(t, l, sh, c);
  }

  // ---------------------------------------------------------------- a second try

  lemma SnapsGated(t: nat, l: Local, sh: Shared, c: Call)
    requires l.pc == Snapping(SnapTransition) && !UsbGateShut(sh.u.state) && !sh.k.token.NoToken?
    requires l.s.before == sh.r.seqno && sh.r.seqno % 2 == 0 && l.s.seen.(trans := sh.r.f.trans) == sh.r.f
    ensures var s := Solo(t, l, sh, c, 4);
      && s.1 == sh && s.0.pc == SnapReturn(l.s.ret) && s.0 == l.(pc := s.0.pc, s := s.0.s)
      && s.0.s.snap == Snap(sh.r.f, true, true)
  {
    hide StepIdle, StepMatches, StepPending, StepEntering, StepCommit, StepStage, StepRelease, StepVerdict;
    hide StepRetire, StepLeave, StepInvalidate, StepClaim, StepClaimHeld, StepCancel, StepHeldClaim, StepUsb;
    SoloSteps(t, l, sh, c);
  }

  lemma SnapsFields(t: nat, l: Local, sh: Shared, c: Call)
    requires l.pc == Snapping(SnapBefore) && sh.r.seqno % 2 == 0
    ensures var s := Solo(t, l, sh, c, 4);
      && s.1 == sh && s.0.pc == Snapping(SnapTransition) && s.0 == l.(pc := s.0.pc, s := s.0.s)
      && s.0.s.ret == l.s.ret && s.0.s.before == sh.r.seqno && s.0.s.seen.(trans := sh.r.f.trans) == sh.r.f
  {
    hide StepIdle, StepMatches, StepPending, StepEntering, StepCommit, StepStage, StepRelease, StepVerdict;
    hide StepRetire, StepLeave, StepInvalidate, StepClaim, StepClaimHeld, StepCancel, StepHeldClaim, StepUsb;
    SoloSteps(t, l, sh, c);
  }

  /** A snapshot while a token is out: the fields, coherent, and pending. */
  lemma SnapsPending(t: nat, l: Local, sh: Shared, c: Call)
    requires l.pc == Snapping(SnapBefore) && sh.r.seqno % 2 == 0 && !UsbGateShut(sh.u.state) && !sh.k.token.NoToken?
    ensures var s := Solo(t, l, sh, c, 8);
      && s.1 == sh && s.0.pc == SnapReturn(l.s.ret) && s.0 == l.(pc := s.0.pc, s := s.0.s)
      && s.0.s.snap == Snap(sh.r.f, true, true)
  {
    hide Step, SnapReturn;
    SnapsFields(t, l, sh, c);
    var s4 := Solo(t, l, sh, c, 4);
    SnapsGated(t, s4.0, s4.1, c);
    SoloJoins(t, l, sh, c, 4, 4);
  }

  lemma KeepsToken(t: nat, l: Local, sh: Shared, c: Call)
    requires l.pc == Claiming(ClaimCompare) && l.s.snap.f == l.a.exp.f && l.caller.tok.Token?
    requires sh.k.token == l.caller.tok && sh.k.target == l.a.exp.f.gen
    ensures Solo(t, l, sh, c, 3) == (l.(pc := Claiming(ClaimEnter)), sh)
  {
    hide StepIdle, StepSnapshot, StepMatches, StepPending, StepEntering, StepCommit, StepStage, StepRelease;
    hide StepVerdict, StepRetire, StepLeave, StepInvalidate, StepClaimHeld, StepCancel, StepHeldClaim, StepUsb;
    SoloSteps(t, l, sh, c);
  }

  /** The next try with the token of the last one, once the writer is free. */
  lemma ClaimsAgain(t: nat, l: Local, sh: Shared, c: Call)
    requires l.pc.Idle? && c.CallClaim? && CallAllowed(sh, l, c) && l.caller.claim.None? && l.caller.tok.Token?
    requires sh.k.token == l.caller.tok && sh.k.target == c.exp.f.gen && !UsbGateShut(sh.u.state)
    requires sh.r.seqno % 2 == 0 && sh.r.owner.None?
    requires c.exp.coherent && !c.exp.f.active.NoRoute? && c.exp.f == sh.r.f
    ensures var s := Solo(t, l, sh, c, 14);
      && s.0.pc.Done? && s.0.out.ok && s.0.out.res == ClaimedExact
      && s.0.caller.claim == Some(Held(c.exp, l.caller.tok))
      && s.1.r == EnterWriter(t, sh.r) && s.1.d == sh.d && s.1.u == sh.u && s.1.k == sh.k
      && OwnClaim(t, s.1.c) && s.1.c.live.value.exp == sh.r.f
  {
    hide Step, SnapReturn;
    ClaimLooks(t, l, sh, c);
    var s1 := Solo(t, l, sh, c, 1);
    SnapsPending(t, s1.0, s1.1, c);
    SoloJoins(t, l, sh, c, 1, 8);
    ReturnsToClaim();
    var s9 := Solo(t, l, sh, c, 9);
    KeepsToken(t, s9.0, s9.1, c);
    SoloJoins(t, l, sh, c, 9, 3);
    var s12 := Solo(t, l, sh, c, 12);
    TakesWriter(t, s12.0, s12.1, c);
    SoloJoins(t, l, sh, c, 12, 2);
  }

  lemma WithdrawsStale(t: nat, l: Local, sh: Shared, c: Call)
    requires l.pc == Claiming(ClaimCompare) && l.s.snap.coherent && l.s.snap.f != l.a.exp.f && l.caller.tok.Token?
    requires sh.k.token == l.caller.tok && sh.k.target == l.a.exp.f.gen
    ensures var s := Solo(t, l, sh, c, 5);
      && s.0.pc.Done? && !s.0.out.ok && s.0.out.res == l.out.res && s.0.caller == l.caller.(tok := NoToken)
      && s.1 == sh.(k := sh.k.(token := NoToken))
  {
    hide StepIdle, StepSnapshot, StepMatches, StepPending, StepEntering, StepCommit, StepStage, StepRelease;
    hide StepVerdict, StepRetire, StepLeave, StepInvalidate, StepClaimHeld, StepHeldClaim, StepUsb;
    SoloSteps(t, l, sh, c);
  }

  /** If the route has gone in the meantime, that try withdraws the token. */
  lemma StaleTryWithdrawsToken(t: nat, l: Local, sh: Shared, c: Call)
    requires l.pc.Idle? && c.CallClaim? && CallAllowed(sh, l, c) && l.caller.claim.None? && l.caller.tok.Token?
    requires sh.k.token == l.caller.tok && sh.k.target == c.exp.f.gen && !UsbGateShut(sh.u.state)
    requires sh.r.seqno % 2 == 0 && c.exp.coherent && !c.exp.f.active.NoRoute? && c.exp.f != sh.r.f
    ensures var s := Solo(t, l, sh, c, 14);
      && s.0.pc.Done? && !s.0.out.ok && s.0.out.res == Stale && s.0.caller == l.caller.(tok := NoToken)
      && s.1 == sh.(k := sh.k.(token := NoToken))
  {
    hide Step, SnapReturn;
    ClaimLooks(t, l, sh, c);
    var s1 := Solo(t, l, sh, c, 1);
    SnapsPending(t, s1.0, s1.1, c);
    SoloJoins(t, l, sh, c, 1, 8);
    ReturnsToClaim();
    var s9 := Solo(t, l, sh, c, 9);
    WithdrawsStale(t, s9.0, s9.1, c);
    SoloJoins(t, l, sh, c, 9, 5);
  }

  // ---------------------------------------------------------------- tokens, cuts and vetoes

  /** cancel_conditional_invalidation withdraws the caller's token exactly if it is out for that generation. */
  lemma CancelsAlone(t: nat, l: Local, sh: Shared, g: nat) returns (k: nat)
    requires l.pc.Idle?
    ensures var s := Solo(t, l, sh, CallCancel(g), k);
      var mine := l.caller.tok.Token? && sh.k.token == l.caller.tok && sh.k.target == g;
      && s.0.pc.Done? && (s.0.out.ok <==> mine) && s.1.r == sh.r && s.1.d == sh.d && s.1.u == sh.u
      && s.1.k == if mine then sh.k.(token := NoToken) else sh.k
  {
    hide StepSnapshot, StepMatches, StepPending, StepEntering, StepCommit, StepStage, StepRelease, StepVerdict;
    hide StepRetire, StepLeave, StepInvalidate, StepClaim, StepClaimHeld, StepHeldClaim, StepUsb;
    SoloSteps(t, l, sh, CallCancel(g));
    k := if !l.caller.tok.Token? || sh.k.target != g then 3 else if sh.k.token != l.caller.tok then 4 else 5;
  }

  /** A veto moves the serial on, so that every cut read before is out of date, and marks an active publication. */
  lemma VetoesAlone(t: nat, l: Local, sh: Shared)
    requires l.pc.Idle?
    ensures var s := Solo(t, l, sh, CallVeto, 2);
      && s.0.pc.Done? && s.1.r == sh.r && s.1.d == sh.d && s.1.k == sh.k && s.1.c == sh.c
      && s.1.u.state.serial == sh.u.state.serial + 1 && s.1.u.state.active == sh.u.state.active
      && (sh.u.state.active ==> s.1.u.state.veto)
      && (UsbGateShut(s.1.u.state) <==> UsbGateShut(sh.u.state))
  {
    hide StepSnapshot, StepMatches, StepPending, StepEntering, StepCommit, StepStage, StepRelease, StepVerdict;
    hide StepRetire, StepLeave, StepInvalidate, StepClaim, StepClaimHeld, StepCancel, StepHeldClaim;
    SoloSteps(t, l, sh, CallVeto);
  }

  /** A cut is the publication state of that moment, so a commit that follows undisturbed can use it. */
  lemma CutsAlone(t: nat, l: Local, sh: Shared)
    requires l.pc.Idle?
    ensures var s := Solo(t, l, sh, CallCut, 3); s.0.pc.Idle? && s.1 == sh && s.0.caller.cut == sh.u.state
  {
    hide StepSnapshot, StepMatches, StepPending, StepEntering, StepCommit, StepStage, StepRelease, StepVerdict;
    hide StepRetire, StepLeave, StepInvalidate, StepClaim, StepClaimHeld, StepCancel, StepHeldClaim;
    SoloSteps(t, l, sh, CallCut);
  }

  /** A snapshot that meets a publication at every try gives up after the third, closed. */
  lemma SnapsThreeTimes(t: nat, l: Local, sh: Shared, c: Call)
    requires l.pc == Snapping(SnapBefore) && l.s.attempt == 0 && sh.r.seqno % 2 == 1
    ensures Solo(t, l, sh, c, 2).0.pc == Snapping(SnapBefore) && Solo(t, l, sh, c, 3).0.pc == Snapping(SnapGiveUp)
    ensures var s := Solo(t, l, sh, c, 4);
      s.1 == sh && s.0.pc == SnapReturn(l.s.ret) && s.0.s.snap == Snap(NoneAt(sh.r.f.gen), true, false)
  {
    hide StepIdle, StepMatches, StepPending, StepEntering, StepCommit, StepStage, StepRelease, StepVerdict;
    hide StepRetire, StepLeave, StepInvalidate, StepClaim, StepClaimHeld, StepCancel, StepHeldClaim, StepUsb;
    SoloSteps(t, l, sh, c);
  }
}
