/**
 Where the gate does not hold, and that it holds everywhere else: matches() for "no route"
 after an invalidation, and claims on anything but a stable USB route.
 */
module HidRouteLimits {
  import opened HidRoute
  import opened HidRouteInvariant
  import opened HidRouteSafety
  import opened HidRouteSolo
  import Claims = HidRouteClaims

  // ---------------------------------------------------------------- one thread running alone

  ghost function SoloWorld(w: World, t: nat, c: Call, k: nat): World
    requires t < |w.ts|
  {
    var s := Solo(t, w.ts[t], w.sh, c, k);
    World(s.1, w.ts[t := s.0])
  }

  /** Any run can be continued by letting one thread run alone. */
  lemma {:induction false} Continue(n: nat, run: seq<World>, events: seq<Event>, t: nat, c: Call, m: nat)
    returns (run': seq<World>, events': seq<Event>)
    requires IsRun(n, run, events) && t < |run[|run| - 1].ts|
    ensures IsRun(n, run', events') && |run'| == |run| + m && run <= run' && events <= events'
    ensures forall k :: |events| <= k < |events'| ==> events'[k] == Event(t, c)
    ensures forall k :: |events| <= k < |run'| ==> run'[k] == SoloWorld(run[|events|], t, c, k - |events|)
  {
    hide Step;
    var w := run[|run| - 1];
    if m == 0 {
      run', events' := run, events;
      assert w.ts[t := w.ts[t]] == w.ts;
    } else {
      var run1, events1 := Continue(n, run, events, t, c, m - 1);
      var last := run1[|run1| - 1];
      assert last == SoloWorld(w, t, c, m - 1);
      run', events' := run1 + [Next(last, t, c)], events1 + [Event(t, c)];
      assert Next(last, t, c).ts == SoloWorld(w, t, c, m).ts;
    }
  }

  /** Nothing pending, nobody writing, and thread t between calls. */
  ghost predicate Quiet(w: World, t: nat) {
    && t < |w.ts| && w.ts[t].pc.Idle? && w.ts[t].caller.claim.None? && w.ts[t].caller.tok.NoToken?
    && w.sh.r.owner.None? && QuietShared(w.sh)
  }

  // ---------------------------------------------------------------- matches("no route")

  lemma RetiresNothing(t: nat, l: Local, sh: Shared)
    requires l.pc == Invalidating(DurActivate) && !l.a.exact && sh.r.owner.None? && sh.r.f.active.NoRoute?
    ensures var s := Solo(t, l, sh, CallInvalidate, 4);
      && s.0.pc == Leaving(LeaveDurable) && s.0.v.ret == LeaveDone
      && s.1.r == EnterWriter(t, sh.r) && s.1.k == sh.k && s.1.u == sh.u && s.1.c == sh.c
      && s.1.d.state.DurableActive? && s.1.d.target == sh.d.target
    ensures var s := Solo(t, l, sh, CallInvalidate, 1); s.0.pc == Invalidating(InvEnter) && s.0.a.gen == l.a.gen
  {
    hide StepIdle, StepSnapshot, StepMatches, StepPending, StepEntering, StepCommit, StepStage, StepRelease;
    hide StepVerdict, StepLeave, StepClaim, StepClaimHeld, StepCancel, StepHeldClaim, StepUsb;
    SoloSteps(t, l, sh, CallInvalidate);
  }

  lemma MatchesQuiet(t: nat, l: Local, sh: Shared)
    requires l.pc.Idle? && QuietShared(sh)
    ensures var s := Solo(t, l, sh, CallMatches(sh.r.f.active, sh.r.f.gen), 6);
      s.0.pc.DoneMatches? && s.0.out.ok && s.1 == sh
    ensures forall k :: 0 < k < 6 ==> Solo(t, l, sh, CallMatches(sh.r.f.active, sh.r.f.gen), k).0.pc.Matching?
  {
    hide StepSnapshot, StepPending, StepEntering, StepCommit, StepStage, StepRelease, StepVerdict, StepRetire;
    hide StepLeave, StepInvalidate, StepClaim, StepClaimHeld, StepCancel, StepHeldClaim, StepUsb;
    SoloSteps(t, l, sh, CallMatches(sh.r.f.active, sh.r.f.gen));
  }

  /** The whole of an invalidate() that finds no route. */
  lemma InvalidatesNothing(t: nat, l: Local, sh: Shared)
    requires l.pc.Idle? && QuietShared(sh) && sh.r.owner.None? && sh.r.f.active.NoRoute?
    ensures var s := Solo(t, l, sh, CallInvalidate, 4); s.0.pc == Invalidating(DurActivate)
    ensures var s := Solo(t, l, sh, CallInvalidate, 5); s.0.pc == Invalidating(InvEnter) && s.0.a.gen == sh.r.f.gen
    ensures var s := Solo(t, l, sh, CallInvalidate, 15); s.0.pc.Idle? && QuietShared(s.1) && s.1.r.f == sh.r.f
  {
    hide Step;
    var c := CallInvalidate;
    var s := Solo(t, l, sh, c, 4);
    PublishesDurable(t, l, sh);
    RetiresNothing(t, s.0, s.1);
    SoloJoins(t, l, sh, c, 4, 1);
    SoloJoins(t, l, sh, c, 4, 4);
    var s8 := Solo(t, l, sh, c, 8);
    LeavesQuiet(t, s8.0, s8.1);
    SoloJoins(t, l, sh, c, 8, 7);
  }

  /** matches() run alone: the call, given that it answers after six steps. */
  lemma MatchesCall(n: nat, run: seq<World>, events: seq<Event>, t: nat) returns (run': seq<World>, events': seq<Event>)
    requires IsRun(n, run, events) && t < |run[|events|].ts|
    requires run[|events|].ts[t].pc.Idle? && QuietShared(run[|events|].sh)
    ensures IsRun(n, run', events') && run <= run' && events <= events' && |events'| == |events| + 6
    ensures var f := run[|events|].sh.r.f; Calls(run', events', t, |events|, |events'|, CallMatches(f.active, f.gen))
    ensures run'[|events'|].ts[t].out.ok && run'[|events'|].sh == run[|events|].sh
  {
    hide Step;
    var w := run[|events|];
    var c := CallMatches(w.sh.r.f.active, w.sh.r.f.gen);
    run', events' := Continue(n, run, events, t, c, 6);
    MatchesQuiet(t, w.ts[t], w.sh);
  }

  /**
   "No route" can match again after the invalidation of its generation was accepted: whenever
   all is quiet and there is no route, invalidate() accepts the generation and consumes it, and
   matches(none, g) is true.
   */
  lemma NoRouteMatchesAfterInvalidation(n: nat, run: seq<World>, events: seq<Event>, t: nat)
    returns (run': seq<World>, events': seq<Event>, p: nat, i: nat, j: nat)
    requires IsRun(n, run, events) && Quiet(run[|events|], t) && run[|events|].sh.r.f.active.NoRoute?
    ensures IsRun(n, run', events') && run <= run' && p < i
    ensures AcceptsInvalidation(run', events', p, t, run[|events|].sh.r.f.gen)
    ensures Calls(run', events', t, i, j, CallMatches(NoRoute, run[|events|].sh.r.f.gen)) && run'[j].ts[t].out.ok
  {
    hide Step;
    var w := run[|events|];
    InvalidatesNothing(t, w.ts[t], w.sh);
    var run1, events1 := Continue(n, run, events, t, CallInvalidate, 15);
    assert run1[|events| + 4] == SoloWorld(w, t, CallInvalidate, 4);
    assert run1[|events| + 5] == SoloWorld(w, t, CallInvalidate, 5);
    assert run1[|events1|] == SoloWorld(w, t, CallInvalidate, 15);
    run', events' := MatchesCall(n, run1, events1, t);
    p, i, j := |events| + 4, |events1|, |events'|;
    assert run'[p] == run1[p] && run'[p + 1] == run1[p + 1] && events'[p] == events1[p];
  }

  // ---------------------------------------------------------------- claims on other routes

  lemma ClaimSnapshots(t: nat, l: Local, sh: Shared, c: Call)
    requires l.pc.Idle? && QuietShared(sh) && l.caller.claim.None? && c.CallClaim?
    requires c.exp.coherent && c.exp.f == sh.r.f && !sh.r.f.active.NoRoute? && c.idx == |sh.r.published| - 1
    ensures var s := Solo(t, l, sh, c, 1);
      && s.1 == sh && s.0.pc == Snapping(SnapBefore) && s.0.s.ret == SnapForClaim
      && s.0.a.exp == c.exp && s.0.caller == l.caller
  {
    hide StepSnapshot, StepMatches, StepPending, StepEntering, StepCommit, StepStage, StepRelease, StepVerdict;
    hide StepRetire, StepLeave, StepInvalidate, StepClaim, StepClaimHeld, StepCancel, StepHeldClaim, StepUsb;
    SoloSteps(t, l, sh, c);
  }

  lemma PublishesToken(t: nat, l: Local, sh: Shared, c: Call)
    requires l.pc == Claiming(ClaimCompare) && l.s.snap.f == l.a.exp.f && l.caller.tok.NoToken? && sh.k.token.NoToken?
    ensures var s := Solo(t, l, sh, c, 5);
      s.0.pc == Claiming(ClaimEnter) && s.0.a.exp == l.a.exp && s.0.caller == l.caller.(tok := Token(sh.k.next))
      && s.1.r == sh.r && s.1.d == sh.d && s.1.u == sh.u && s.1.c == sh.c
      && s.1.k.token == Token(sh.k.next) && s.1.k.target == l.a.exp.f.gen
  {
    hide StepIdle, StepSnapshot, StepMatches, StepPending, StepEntering, StepCommit, StepStage, StepRelease;
    hide StepVerdict, StepRetire, StepLeave, StepInvalidate, StepClaimHeld, StepCancel, StepHeldClaim, StepUsb;
    SoloSteps(t, l, sh, c);
  }

  lemma EntersWhileGated(t: nat, l: Local, sh: Shared, c: Call)
    requires l.pc.Idle? && c.CallBeginRelease? && !c.route.NoRoute? && sh.r.owner.None? && sh.k.token.Token?
    requires !UsbGateShut(sh.u.state)
    ensures var s := Solo(t, l, sh, c, 4);
      s.0.pc == Staging(StageCheck) && s.0.p.pend && s.0.caller == l.caller && s.1 == sh.(r := EnterWriter(t, sh.r))
  {
    hide StepSnapshot, StepMatches, StepCommit, StepStage, StepRelease, StepVerdict, StepRetire, StepLeave;
    hide StepInvalidate, StepClaim, StepClaimHeld, StepCancel, StepHeldClaim, StepUsb;
    SoloSteps(t, l, sh, c);
  }

  lemma LeavesClearing(t: nat, l: Local, sh: Shared, c: Call)
    requires l.pc == Staging(StageCheck) && l.p.pend && sh.d.state.DurableNone? && sh.k.token.Token?
    requires !StillExactUsb(sh.r.f, sh.k.target)
    ensures var s := Solo(t, l, sh, c, 7);
      && s.0.pc.Idle? && s.0.caller == l.caller && s.1.r == sh.r.(owner := None)
      && s.1.d == sh.d && s.1.u == sh.u && s.1.c == sh.c && s.1.k.token.NoToken?
  {
    hide StepIdle, StepSnapshot, StepMatches, StepPending, StepEntering, StepCommit, StepRelease, StepVerdict;
    hide StepRetire, StepInvalidate, StepClaim, StepClaimHeld, StepCancel, StepHeldClaim, StepUsb;
    SoloSteps(t, l, sh, c);
  }

  lemma EntersExact(t: nat, l: Local, sh: Shared, c: Call)
    requires l.pc == Claiming(ClaimEnter) && sh.r.owner.None? && sh.r.f == l.a.exp.f
    ensures var s := Solo(t, l, sh, c, 2);
      && s.1.r == sh.r.(owner := Some(t)) && s.1.d == sh.d && s.1.u == sh.u && s.1.k == sh.k
      && s.0.out.res.ClaimedExact?
      && OwnClaim(t, s.1.c) && s.1.c.live.value.exp == sh.r.f && !s.1.c.live.value.cancelled
  {
    hide StepIdle, StepSnapshot, StepMatches, StepPending, StepEntering, StepCommit, StepStage, StepRelease;
    hide StepVerdict, StepRetire, StepLeave, StepInvalidate, StepCancel, StepHeldClaim, StepUsb;
    SoloSteps(t, l, sh, c);
  }

  lemma ClaimsUpToWriter(t: nat, l: Local, sh: Shared, c: Call)
    requires l.pc.Idle? && QuietShared(sh) && l.caller.claim.None? && l.caller.tok.NoToken?
    requires c == CallClaim(Snap(sh.r.f, false, true), |sh.r.published| - 1) && !sh.r.f.active.NoRoute?
    ensures var s := Solo(t, l, sh, c, 15);
      && s.0.pc == Claiming(ClaimEnter) && s.0.a.exp.f == sh.r.f
      && s.1.r == sh.r && s.1.d == sh.d && s.1.u == sh.u && s.1.k.token.Token? && s.1.k.target == sh.r.f.gen
  {
    hide Step;
    ClaimSnapshots(t, l, sh, c);
    var s1 := Solo(t, l, sh, c, 1);
    SnapsAlone(t, s1.0, s1.1, c);
    SoloJoins(t, l, sh, c, 1, 9);
    var s10 := Solo(t, l, sh, c, 10);
    PublishesToken(t, s10.0, s10.1, c);
    SoloJoins(t, l, sh, c, 10, 5);
  }

  lemma FailedReleaseClears(u: nat, l: Local, sh: Shared, c: Call)
    requires l.pc.Idle? && c.CallBeginRelease? && !c.route.NoRoute? && sh.r.owner.None?
    requires sh.k.token.Token? && !UsbGateShut(sh.u.state) && sh.d.state.DurableNone?
    requires !StillExactUsb(sh.r.f, sh.k.target)
    ensures var s := Solo(u, l, sh, c, 11);
      s.0.pc.Idle? && s.1.r == sh.r && s.1.d == sh.d && s.1.u == sh.u && s.1.k.token.NoToken?
  {
    hide Step;
    EntersWhileGated(u, l, sh, c);
    var s := Solo(u, l, sh, c, 4);
    LeavesClearing(u, s.0, s.1, c);
    SoloJoins(u, l, sh, c, 4, 7);
  }

  /**
   On any other route a claim can be granted with its gate open: between the publication of the
   token and the entry of the writer, another thread's failed release clears the token.
   */
  lemma OtherClaimsLoseTheGate(n: nat, run: seq<World>, events: seq<Event>, t: nat, u: nat)
    returns (run': seq<World>, events': seq<Event>, i: nat, j: nat)
    requires IsRun(n, run, events) && Quiet(run[|events|], t) && Quiet(run[|events|], u) && t != u
    requires var f := run[|events|].sh.r.f; !f.active.NoRoute? && !StableUsb(f)
    ensures IsRun(n, run', events') && run <= run'
    ensures GateFails(run', events', u, i, j, run[|events|].sh.r.f)
  {
    hide Step;
    var w := run[|events|];
    var f := w.sh.r.f;
    var c := CallClaim(Snap(f, false, true), |w.sh.r.published| - 1);
    ClaimsUpToWriter(t, w.ts[t], w.sh, c);
    var run1, events1 := Continue(n, run, events, t, c, 15);
    var w1 := run1[|events1|];

    var d := CallBeginRelease(f.active);
    FailedReleaseClears(u, w1.ts[u], w1.sh, d);
    var run2, events2 := Continue(n, run1, events1, u, d, 11);
    var w2 := run2[|events2|];

    EntersExact(t, w2.ts[t], w2.sh, c);
    var run3, events3 := Continue(n, run2, events2, t, c, 2);
    run', events' := MatchesCall(n, run3, events3, u);
    i, j := |events3|, |events'|;
    assert run'[i] == run3[i];
  }

  /** matches() is called and answers true while one claim that expects f is live and not cancelled. */
  ghost predicate GateFails(run: seq<World>, events: seq<Event>, u: nat, i: nat, j: nat, f: Fields) {
    && Calls(run, events, u, i, j, CallMatches(f.active, f.gen)) && run[j].ts[u].out.ok
    && run[i].sh.c.live.Some? && run[j].sh.c.live.Some?
    && run[i].sh.c.live.value.serial == run[j].sh.c.live.value.serial
    && run[j].sh.c.live.value.exp == f && !run[j].sh.c.live.value.cancelled
  }

  /** Exactly the claims on a stable USB route keep matches() shut in every continuation of a quiet world. */
  lemma GateHoldsExactlyForStableUsb(n: nat, run: seq<World>, events: seq<Event>, t: nat, u: nat)
    requires IsRun(n, run, events) && Quiet(run[|events|], t) && Quiet(run[|events|], u) && t != u
    requires !run[|events|].sh.r.f.active.NoRoute?
    ensures var f := run[|events|].sh.r.f;
      f == Fields(Usb, Usb, f.gen, Stable) <==>
      forall run': seq<World>, events': seq<Event>, v: nat, i: nat, j: nat ::
        IsRun(n, run', events') && run <= run' ==> !GateFails(run', events', v, i, j, f)
  {
    var f := run[|events|].sh.r.f;
    if f == Fields(Usb, Usb, f.gen, Stable) {
      forall run': seq<World>, events': seq<Event>, v: nat, i: nat, j: nat | IsRun(n, run', events') && run <= run'
        ensures !GateFails(run', events', v, i, j, f)
      {
        if GateFails(run', events', v, i, j, f) {
          Claims.ClaimKeepsTheGateShut(n, run', events', v, i, j, f.active, f.gen, run'[j].sh.c.live.value.serial);
        }
      }
    } else {
      var run', events', i, j := OtherClaimsLoseTheGate(n, run, events, t, u);
      assert GateFails(run', events', u, i, j, f);
    }
  }

  // ---------------------------------------------------------------- from the cold boot

  /** The worlds in question are reached: at the cold boot everybody is quiet and there is no route. */
  lemma NoRouteMatchesFromColdBoot() returns (run: seq<World>, events: seq<Event>, p: nat, i: nat, j: nat)
    ensures IsRun(1, run, events) && p < i && AcceptsInvalidation(run, events, p, 0, 0)
    ensures Calls(run, events, 0, i, j, CallMatches(NoRoute, 0)) && run[j].ts[0].out.ok
  {
    hide Step;
    ColdBootIsCalm();
    run, events, p, i, j := NoRouteMatchesAfterInvalidation(1, [InitWorld(1)], [], 0);
  }

  /** Thread 2 commits BLE; then thread 0's claim on it loses the gate to thread 1. */
  lemma BleClaimLosesTheGate() returns (run: seq<World>, events: seq<Event>, i: nat, j: nat)
    ensures IsRun(4, run, events) && GateFails(run, events, 1, i, j, Fields(Ble, Ble, 1, Stable))
  {
    hide Step;
    ColdBootIsCalm();
    BleCommitsAlone(2, InitLocal, InitShared);
    var run1, events1 := Continue(4, [InitWorld(4)], [], 2, CallCommit(Ble), 28);
    run, events, i, j := OtherClaimsLoseTheGate(4, run1, events1, 0, 1);
  }

  /** Thread 2 commits USB and thread 3 begins its release; the claim on the releasing route loses the gate. */
  lemma ReleasingClaimLosesTheGate() returns (run: seq<World>, events: seq<Event>, i: nat, j: nat)
    ensures IsRun(4, run, events) && GateFails(run, events, 1, i, j, Fields(NoRoute, Usb, 1, Releasing))
  {
    hide Step;
    ColdBootIsCalm();
    UsbCommitsAlone(2, InitLocal, InitShared);
    var run1, events1 := Continue(4, [InitWorld(4)], [], 2, CallCommit(Usb), 31);
    BeginsReleaseAlone(3, InitLocal, run1[31].sh, Usb);
    var run2, events2 := Continue(4, run1, events1, 3, CallBeginRelease(Usb), 34);
    run, events, i, j := OtherClaimsLoseTheGate(4, run2, events2, 0, 1);
  }
}
