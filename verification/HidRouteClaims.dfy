/**
 Exact invalidation claims: while one is live nobody else changes the route, a stable USB
 route stays gated, it is retired at most once and exactly, and the way out frees the writer
 once and leaves the token withdrawn.
 */
module HidRouteClaims {
  import opened HidRoute
  import opened HidRouteInvariant
  import opened HidRouteSafety

  /** The claim with this serial number is live. */
  ghost predicate Live(sh: Shared, serial: nat) { sh.c.live.Some? && sh.c.live.value.serial == serial }

  /** Only the holder of a live claim changes anything about the route. */
  lemma ClaimedRouteIsTheHolders(n: nat, run: seq<World>, events: seq<Event>, i: nat, serial: nat)
    requires IsRun(n, run, events) && i < |events| && Live(run[i].sh, serial)
    requires events[i].t != run[i].sh.c.live.value.holder
    ensures run[i + 1].sh.r == run[i].sh.r && run[i + 1].sh.c == run[i].sh.c
  {
    RunInv(n, run, events, i);
    StepRely(n, run, events, i, run[i].sh.c.live.value.holder);
  }

  /** Serial numbers are given out once, and what a live claim expects never changes. */
  lemma LiveStep(t: nat, l: Local, sh: Shared, c: Call, serial: nat)
    requires Live(Step(t, l, sh, c).1, serial) && serial <= sh.c.count
    ensures Live(sh, serial)
    ensures SameClaim(sh.c.live.value, Step(t, l, sh, c).1.c.live.value)
  {
  }

  ghost predicate SameClaim(q: ClaimRecord, q': ClaimRecord) {
    && q'.exp == q.exp && q'.since == q.since && q'.holder == q.holder
    && (q.retired ==> q'.retired) && (q.cancelled ==> q'.cancelled)
  }

  lemma {:induction false} LiveThroughout(n: nat, run: seq<World>, events: seq<Event>, i: nat, j: nat, k: nat,
                                          serial: nat)
    requires IsRun(n, run, events) && i <= k <= j < |run|
    requires Live(run[i].sh, serial) && Live(run[j].sh, serial)
    ensures Live(run[k].sh, serial)
    ensures SameClaim(run[k].sh.c.live.value, run[j].sh.c.live.value)
    decreases j - k
  {
    hide Inv, Step;
    if k < j {
      LiveThroughout(n, run, events, i, j, k + 1, serial);
      RunInv(n, run, events, i);
      HistoryGrows(n, run, events, i, k);
      CountsClaims(run[i], serial);
      LiveStep(events[k].t, run[k].ts[events[k].t], run[k].sh, events[k].c, serial);
    }
  }

  lemma CountsClaims(w: World, serial: nat)
    requires Inv(w) && Live(w.sh, serial)
    ensures serial <= w.sh.c.count
  {
  }

  /**
   Between the grant of a claim and its release the route is published at most once more: none,
   in the generation after the one the claim expects.
   */
  lemma RetiredAtMostOnceAndExactly(n: nat, run: seq<World>, events: seq<Event>, j: nat, serial: nat)
    requires IsRun(n, run, events) && j < |run| && Live(run[j].sh, serial)
    ensures var r, q := run[j].sh.r, run[j].sh.c.live.value;
      && 0 < q.since <= |r.published| <= q.since + 1
      && r.published[q.since - 1] == q.exp
      && (q.retired ==> |r.published| == q.since + 1)
      && (|r.published| == q.since + 1 ==> r.published[q.since] == r.f == NoneAt(q.exp.gen + 1))
  {
    RunInv(n, run, events, j);
    assert Thread(run[j].sh.c.live.value.holder, run[j].ts[run[j].sh.c.live.value.holder], run[j].sh);
  }

  // ---------------------------------------------------------------- the grant

  /** The program points of claim_invalidation_if_matches before it returns. */
  ghost predicate InClaimCall(l: Local) {
    match l.pc
    case Snapping(_) => l.s.ret.SnapForClaim?
    case Claiming(_) => true
    case ClaimExact => true
    case ClaimInexact => true
    case Cancelling(_) => l.x.ret.CancelForStale? || l.x.ret.CancelForInexact?
    case Leaving(_) => l.v.ret.LeaveDone?
    case Retiring(_) => l.n.ret.RetireForLeave? && l.v.ret.LeaveDone?
    case _ => false
  }

  lemma ClaimContinues(t: nat, l: Local, sh: Shared, c: Call)
    requires InClaimCall(l) && !l.pc.ClaimExact?
    ensures var l' := Step(t, l, sh, c).0;
      l'.a.exp == l.a.exp && (InClaimCall(l') || l'.pc.Done?)
      && (l'.out.res.ClaimedExact? ==> l.out.res.ClaimedExact?)
  {
  }

  lemma ClaimDecides(t: nat, l: Local, sh: Shared, c: Call)
    requires l.pc.ClaimExact? && !l.out.res.ClaimedExact?
    ensures var (l', sh') := Step(t, l, sh, c);
      && l'.a.exp == l.a.exp
      && (l'.out.res.ClaimedExact? <==> sh.r.f == l.a.exp.f)
      && (if l'.out.res.ClaimedExact? then
            && l'.pc.Done? && sh'.r == sh.r && sh'.k == sh.k
            && OwnClaim(t, sh'.c) && sh'.c.live.value.serial == sh.c.count + 1
            && sh'.c.live.value.exp == l.a.exp.f && !sh'.c.live.value.retired && !sh'.c.live.value.cancelled
          else InClaimCall(l'))
  {
  }

  lemma ClaimCallStep(t: nat, l: Local, sh: Shared, c: Call)
    requires InClaimCall(l) && !l.out.res.ClaimedExact?
    ensures var (l', sh') := Step(t, l, sh, c);
      && l'.a.exp == l.a.exp && (InClaimCall(l') || l'.pc.Done?)
      && (l'.out.res.ClaimedExact? ==>
            && l'.pc.Done? && sh.r.f == l.a.exp.f && sh'.r == sh.r && sh'.k == sh.k
            && OwnClaim(t, sh'.c) && sh'.c.live.value.exp == l.a.exp.f
            && !sh'.c.live.value.retired && !sh'.c.live.value.cancelled)
  {
    hide Step;
    if l.pc.ClaimExact? { ClaimDecides(t, l, sh, c); } else { ClaimContinues(t, l, sh, c); }
  }

  lemma ClaimStarts(t: nat, l: Local, sh: Shared, exp: Snap, idx: nat)
    requires l.pc.Idle? && CallAllowed(sh, l, CallClaim(exp, idx))
    ensures var l' := Step(t, l, sh, CallClaim(exp, idx)).0;
      l'.a.exp == exp && !l'.out.res.ClaimedExact? && (InClaimCall(l') || l'.pc.Done?)
  {
  }

  lemma {:induction false} ClaimCallStays(n: nat, run: seq<World>, events: seq<Event>, t: nat, i: nat, j: nat,
                                          k: nat, exp: Snap, idx: nat)
    requires IsRun(n, run, events) && Calls(run, events, t, i, j, CallClaim(exp, idx)) && i < k < j
    ensures var l := run[k].ts[t]; InClaimCall(l) && l.a.exp == exp && !l.out.res.ClaimedExact?
    decreases k
  {
    hide Step, OwnClaim;
    if i + 1 < k {
      ClaimCallStays(n, run, events, t, i, j, k - 1, exp, idx);
      if events[k - 1].t == t {
        ClaimCallStep(t, run[k - 1].ts[t], run[k - 1].sh, events[k - 1].c);
      }
    } else {
      ClaimStarts(t, run[i].ts[t], run[i].sh, exp, idx);
    }
  }

  /**
   kClaimedExact: the writer is held, the route is exactly the expected one and not yet
   retired, and on a stable USB route the claim's token shuts the gate.
   */
  lemma GrantedClaimIsExact(n: nat, run: seq<World>, events: seq<Event>, t: nat, i: nat, j: nat, exp: Snap, idx: nat)
    requires IsRun(n, run, events) && Calls(run, events, t, i, j, CallClaim(exp, idx))
    requires run[j].ts[t].out.res.ClaimedExact?
    ensures var sh := run[j].sh;
      && sh.r.owner == Some(t) && sh.r.f == exp.f && sh.r.seqno % 2 == 0
      && OwnClaim(t, sh.c) && sh.c.live.value.exp == exp.f && !sh.c.live.value.retired
      && (exp.f == Fields(Usb, Usb, exp.f.gen, Stable) ==> sh.k.token == sh.c.live.value.tok)
  {
    hide Step, LReads, LUsb, LToken, Progress, GDur, GUsb, GCond;
    RunInv(n, run, events, j);
    if i + 1 < j {
      ClaimCallStays(n, run, events, t, i, j, j - 1, exp, idx);
      ClaimCallStep(t, run[j - 1].ts[t], run[j - 1].sh, events[j - 1].c);
      RunInv(n, run, events, j - 1);
    } else {
      ClaimStarts(t, run[i].ts[t], run[i].sh, exp, idx);
    }
  }

  // ---------------------------------------------------------------- retire()

  /** Where retire() has got to; `was` tells whether the claim had been retired before. */
  ghost predicate RetireCall(t: nat, l: Local, sh: Shared, was: bool) {
    && OwnClaim(t, sh.c) && l.caller.claim.Some?
    && match l.pc
       case Retiring(_) => l.n.ret.RetireForClaim? && sh.c.live.value.retired == was
       case ClaimRetired => sh.c.live.value.retired == was
       case Cancelling(_) => l.x.ret.CancelForRetire? && !was && sh.c.live.value.retired
       case ClaimRetireCancelled => !was && sh.c.live.value.retired
       case Done => l.out.ok == !was && sh.c.live.value.retired
       case _ => false
  }

  lemma RetireContinues(t: nat, l: Local, sh: Shared, c: Call, was: bool)
    requires LClaim(t, l, sh.r, sh.c) && RetireCall(t, l, sh, was) && !l.pc.Done?
    ensures var (l', sh') := Step(t, l, sh, c); RetireCall(t, l', sh', was)
    ensures Step(t, l, sh, c).1.c.live.value.serial == sh.c.live.value.serial
  {
  }

  lemma {:induction false} RetireStays(n: nat, run: seq<World>, events: seq<Event>, t: nat, i: nat, j: nat, k: nat)
    requires IsRun(n, run, events) && Calls(run, events, t, i, j, CallRetire) && i < k <= j
    ensures OwnClaim(t, run[i].sh.c) && OwnClaim(t, run[k].sh.c)
    ensures run[k].sh.c.live.value.serial == run[i].sh.c.live.value.serial
    ensures RetireCall(t, run[k].ts[t], run[k].sh, run[i].sh.c.live.value.retired)
    decreases k
  {
    hide Global, LControl, LReads, LToken, StepRetire, StepCancel, StepHeldClaim, RRoute, RDur, RUsb, RCond;
    RunInv(n, run, events, k - 1);
    if i + 1 < k {
      RetireStays(n, run, events, t, i, j, k - 1);
      if events[k - 1].t == t {
        RetireContinues(t, run[k - 1].ts[t], run[k - 1].sh, events[k - 1].c, run[i].sh.c.live.value.retired);
      } else {
        StepRely(n, run, events, k - 1, t);
      }
    }
  }

  /**
   retire() returns true exactly if the claim was not retired before; then it has published
   none in the generation after the expected one, and nothing else.
   */
  lemma RetireSucceedsOnce(n: nat, run: seq<World>, events: seq<Event>, t: nat, i: nat, j: nat)
    requires IsRun(n, run, events) && Calls(run, events, t, i, j, CallRetire)
    ensures OwnClaim(t, run[i].sh.c) && OwnClaim(t, run[j].sh.c)
    ensures run[j].sh.c.live.value.serial == run[i].sh.c.live.value.serial
    ensures run[j].ts[t].out.ok <==> !run[i].sh.c.live.value.retired
    ensures run[j].sh.c.live.value.retired
    ensures run[j].sh.r.published ==
            if run[j].ts[t].out.ok then run[i].sh.r.published + [NoneAt(run[i].sh.c.live.value.exp.gen + 1)]
            else run[i].sh.r.published
  {
    RetireStays(n, run, events, t, i, j, j);
    var serial := run[i].sh.c.live.value.serial;
    LiveThroughout(n, run, events, i, j, i, serial);
    RetiredAtMostOnceAndExactly(n, run, events, i, serial);
    RetiredAtMostOnceAndExactly(n, run, events, j, serial);
    HistoryGrows(n, run, events, i, j);
    RunInv(n, run, events, i);
    hide Step, GRoute, GDur, GUsb, GCond, GClaim, LControl, LReads, LToken;
  }

  // ---------------------------------------------------------------- release()

  ghost predicate ReleaseCall(l: Local, h: Held, k: CondPart) {
    match l.pc
    case Cancelling(_) => l.x.ret.CancelForRelease? && l.caller.claim == Some(h)
    case ClaimReleased => l.caller.claim == Some(h)
    case Leaving(_) => l.v.ret.LeaveDone? && l.caller.claim.None? && (h.tok.Token? ==> k.token != h.tok)
    case Retiring(_) =>
      l.n.ret.RetireForLeave? && l.v.ret.LeaveDone? && l.caller.claim.None? && (h.tok.Token? ==> k.token != h.tok)
    case Done => l.caller.claim.None? && (h.tok.Token? ==> k.token != h.tok)
    case _ => false
  }

  lemma ReleaseContinues(t: nat, l: Local, sh: Shared, c: Call, h: Held)
    requires LToken(t, l, sh.r, sh.k) && ReleaseCall(l, h, sh.k) && !l.pc.Done?
    ensures var (l', sh') := Step(t, l, sh, c); ReleaseCall(l', h, sh'.k)
  {
  }

  /** A token that has been withdrawn is never published again. */
  lemma TokenNeverReturns(n: nat, run: seq<World>, events: seq<Event>, i: nat, id: nat)
    requires IsRun(n, run, events) && i < |events|
    requires id in run[i].sh.k.used && run[i].sh.k.token != Token(id)
    ensures id in run[i + 1].sh.k.used && run[i + 1].sh.k.token != Token(id)
  {
    StepRely(n, run, events, i, events[i].t + 1);
  }

  lemma ReleaseUndisturbed(l: Local, h: Held, k: CondPart, k': CondPart)
    requires ReleaseCall(l, h, k) && (h.tok.Token? ==> h.tok.id in k.used)
    requires k'.token.Token? && k'.token.id in k.used ==> k'.token == k.token
    ensures ReleaseCall(l, h, k')
  {
  }

  lemma ReleaseStarts(t: nat, l: Local, sh: Shared)
    requires l.pc.Idle? && CallAllowed(sh, l, CallRelease)
    ensures l.caller.claim.Some?
    ensures var (l', sh') := Step(t, l, sh, CallRelease); ReleaseCall(l', l.caller.claim.value, sh'.k)
  {
  }

  lemma {:induction false} ReleaseStays(n: nat, run: seq<World>, events: seq<Event>, t: nat, i: nat, j: nat, k: nat)
    requires IsRun(n, run, events) && Calls(run, events, t, i, j, CallRelease) && i < k <= j
    ensures run[i].ts[t].caller.claim.Some?
    ensures var h := run[i].ts[t].caller.claim.value;
      && ReleaseCall(run[k].ts[t], h, run[k].sh.k)
      && (h.tok.Token? ==> h.tok.id in run[k].sh.k.used)
    decreases k
  {
    hide Step, Global, LControl, LReads, LClaim, RRoute, RDur, RUsb, RClaim, ReleaseCall;
    RunInv(n, run, events, k - 1);
    StepRely(n, run, events, k - 1, events[k - 1].t + 1);
    if i + 1 < k {
      var h := run[i].ts[t].caller.claim.value;
      ReleaseStays(n, run, events, t, i, j, k - 1);
      if events[k - 1].t == t {
        ReleaseContinues(t, run[k - 1].ts[t], run[k - 1].sh, events[k - 1].c, h);
      } else {
        ReleaseUndisturbed(run[k - 1].ts[t], h, run[k - 1].sh.k, run[k].sh.k);
      }
    } else {
      ReleaseStarts(t, run[i].ts[t], run[i].sh);
      assert LToken(t, run[i].ts[t], run[i].sh.r, run[i].sh.k);
    }
  }

  /**
   release() keeps the writer up to its last step and gives it up with that step; the claim's
   token, if it still had one, is withdrawn for good.
   */
  lemma ReleaseFreesWriterAndToken(n: nat, run: seq<World>, events: seq<Event>, t: nat, i: nat, j: nat)
    requires IsRun(n, run, events) && Calls(run, events, t, i, j, CallRelease)
    ensures run[i].ts[t].caller.claim.Some?
    ensures forall k :: i <= k < j ==> run[k].sh.r.owner == Some(t)
    ensures run[j].sh.r.owner != Some(t) && run[j].ts[t].caller.claim.None?
    ensures var tok := run[i].ts[t].caller.claim.value.tok;
      tok.Token? ==> tok.id in run[j].sh.k.used && run[j].sh.k.token != tok
  {
    hide Step, Global, LReads, LClaims, LUsb, Progress;
    ReleaseStays(n, run, events, t, i, j, j);
    RunInv(n, run, events, j);
    forall k | i <= k < j ensures run[k].sh.r.owner == Some(t) {
      RunInv(n, run, events, k);
      if i < k { ReleaseStays(n, run, events, t, i, j, k); }
    }
  }

  // ---------------------------------------------------------------- the gate

  /**
   While a claim on a stable USB route is live, and its holder has not withdrawn its own token,
   every matches() for a route that is called and answered returns false.
   */
  lemma ClaimKeepsTheGateShut(n: nat, run: seq<World>, events: seq<Event>, t: nat, i: nat, j: nat, route: Route,
                              g: nat, serial: nat)
    requires IsRun(n, run, events) && Calls(run, events, t, i, j, CallMatches(route, g)) && !route.NoRoute?
    requires Live(run[i].sh, serial) && Live(run[j].sh, serial)
    requires run[j].sh.c.live.value.exp == Fields(Usb, Usb, run[j].sh.c.live.value.exp.gen, Stable)
    requires !run[j].sh.c.live.value.cancelled
    ensures !run[j].ts[t].out.ok
  {
    MatchesOutcome(n, run, events, t, i, j, route, g);
  }
}
