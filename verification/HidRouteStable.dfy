/**
 What a thread knows survives the steps of the other threads.
 */
module HidRouteStable {
  import opened HidRoute
  import opened HidRouteInvariant

  lemma WriterStable(t: nat, l: Local, sh: Shared, sh': Shared)
    requires GRoute(sh.r) && GRoute(sh'.r) && RRoute(t, sh.r, sh'.r)
    requires LArgs(l) && LWriter(t, l, sh.r)
    ensures LWriter(t, l, sh'.r)
  {
  }

  lemma UsbStable(t: nat, l: Local, sh: Shared, sh': Shared)
    requires RRoute(t, sh.r, sh'.r) && RUsb(t, sh.r, sh.u, sh'.u)
    requires LUsb(t, l, sh.r, sh.u)
    ensures LUsb(t, l, sh'.r, sh'.u)
  {
  }

  lemma SnapStable(t: nat, pc: Pc, s: SnapVars, r: RoutePart, r': RoutePart)
    requires GRoute(r) && GRoute(r') && RRoute(t, r, r') && LSnap(pc, s, r)
    ensures LSnap(pc, s, r')
  {
  }

  lemma MatchStable(t: nat, l: Local, sh: Shared, sh': Shared)
    requires Rely(t, sh, sh') && GClaim(sh.r, sh.k, sh.c) && LMatch(l.pc, l.a, l.out, l.m, sh)
    ensures LMatch(l.pc, l.a, l.out, l.m, sh')
  {
  }

  lemma DurStable(t: nat, l: Local, sh: Shared, sh': Shared)
    requires GRoute(sh.r) && RRoute(t, sh.r, sh'.r) && RDur(t, sh.r, sh.d, sh'.d) && LWriter(t, l, sh.r)
    requires LDur(t, l, sh.r, sh.d)
    ensures LDur(t, l, sh'.r, sh'.d)
  {
  }

  /** In generation g of a published stable USB route, nothing but that route is USB-desired. */
  lemma SameGeneration(s: seq<Fields>, i: nat, j: nat)
    requires History(s) && i <= j < |s| && StableUsb(s[i]) && s[j].gen == s[i].gen
    ensures s[j] == s[i] || s[j] == Fields(NoRoute, Usb, s[i].gen, Releasing)
    decreases j
  {
    if i < j {
      assert Edge(s[j - 1], s[j]);
      GenerationsAscend(s, i, j - 1);
      SameGeneration(s, i, j - 1);
    }
  }

  lemma GenerationsAscend(s: seq<Fields>, i: nat, j: nat)
    requires History(s) && i <= j < |s|
    ensures s[i].gen <= s[j].gen
    decreases j
  {
    if i < j {
      assert Edge(s[j - 1], s[j]);
      GenerationsAscend(s, i, j - 1);
    }
  }

  /** Another writer drops a token only when the route it was published for is gone. */
  lemma DroppedMeansGone(r: RoutePart, i: nat, target: nat)
    requires GRoute(r) && Even(r) && r.mid.None? && !StillExactUsb(r.f, target)
    requires i < |r.published| && StableUsb(r.published[i]) && r.published[i].gen == target
    ensures Gone(r, target)
  {
    GenerationsAscend(r.published, i, |r.published| - 1);
    if r.f.gen == target {
      SameGeneration(r.published, i, |r.published| - 1);
    }
  }

  lemma GateStable(t: nat, l: Local, sh: Shared, sh': Shared)
    requires Rely(t, sh, sh') && GRoute(sh.r) && OwnsToken(t, l.caller.tok, sh.k)
    requires l.a.expIdx < |sh.r.published| && sh.r.published[l.a.expIdx] == l.a.exp.f
    requires GateOrGone(l, sh.r, sh.k)
    ensures GateOrGone(l, sh'.r, sh'.k)
  {
    if StableUsb(l.a.exp.f) && !Gone(sh.r, l.a.exp.f.gen)
       && (sh'.k.token != sh.k.token || sh'.k.target != sh.k.target)
    {
      DroppedMeansGone(sh.r, l.a.expIdx, l.a.exp.f.gen);
    }
  }

  lemma TokenStable(t: nat, l: Local, sh: Shared, sh': Shared)
    requires Rely(t, sh, sh') && GRoute(sh.r) && GCond(sh.k) && LWriter(t, l, sh.r)
    requires LToken(t, l, sh.r, sh.k)
    ensures LToken(t, l, sh'.r, sh'.k)
  {
    if (l.pc.Claiming? && l.pc.cl.ClaimEnter?) || l.pc.ClaimExact? {
      GateStable(t, l, sh, sh');
    }
  }

  lemma ClaimStable(t: nat, l: Local, sh: Shared, sh': Shared)
    requires Rely(t, sh, sh') && GRoute(sh.r) && GClaim(sh.r, sh.k, sh.c) && LWriter(t, l, sh.r)
    requires LClaim(t, l, sh.r, sh.c)
    ensures LClaim(t, l, sh'.r, sh'.c)
  {
  }

  lemma ThreadStable(t: nat, l: Local, sh: Shared, sh': Shared)
    requires Global(sh) && Global(sh') && Rely(t, sh, sh') && Thread(t, l, sh)
    ensures Thread(t, l, sh')
  {
    WriterStable(t, l, sh, sh');
    UsbStable(t, l, sh, sh');
    SnapStable(t, l.pc, l.s, sh.r, sh'.r);
    MatchStable(t, l, sh, sh');
    DurStable(t, l, sh, sh');
    TokenStable(t, l, sh, sh');
    ClaimStable(t, l, sh, sh');
  }
}
