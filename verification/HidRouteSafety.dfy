/**
 The route protocol over whole runs: any number of threads, any interleaving of their steps.
 */
module HidRouteSafety {
  import opened HidRoute
  import opened HidRouteInvariant
  import Steps = HidRouteSteps
  import Stable = HidRouteStable

  ghost predicate Inv(w: World) {
    && Global(w.sh)
    && (w.sh.r.owner.Some? ==> w.sh.r.owner.value < |w.ts|)
    && forall t :: 0 <= t < |w.ts| ==> Thread(t, w.ts[t], w.sh)
  }

  lemma OwnerStep(t: nat, l: Local, sh: Shared, c: Call)
    ensures var r := Step(t, l, sh, c).1.r; r.owner == sh.r.owner || r.owner == None || r.owner == Some(t)
  {
  }

  lemma InitInv(n: nat)
    ensures Inv(InitWorld(n))
  {
  }

  lemma NextInv(w: World, t: nat, c: Call)
    requires Inv(w) && t < |w.ts|
    ensures Inv(Next(w, t, c))
  {
    hide Thread, Rely, Step;
    var w' := Next(w, t, c);
    Steps.EveryStepKept(t, t, w.ts[t], w.sh, c);
    OwnerStep(t, w.ts[t], w.sh, c);
    forall u | 0 <= u < |w.ts|
      ensures Thread(u, w'.ts[u], w'.sh)
    {
      if u != t {
        Steps.EveryStepKept(t, u, w.ts[t], w.sh, c);
        Stable.ThreadStable(u, w.ts[u], w.sh, w'.sh);
      }
    }
  }

  /** Every world of every run satisfies the invariant. */
  lemma {:induction false} RunInv(n: nat, run: seq<World>, events: seq<Event>, i: nat)
    requires IsRun(n, run, events) && i < |run|
    ensures Inv(run[i]) && |run[i].ts| == n
  {
    hide Inv;
    if i == 0 {
      InitInv(n);
    } else {
      RunInv(n, run, events, i - 1);
      NextInv(run[i - 1], events[i - 1].t, events[i - 1].c);
    }
  }

  /** What the step from run[i] to run[i + 1] does to a thread other than the one that moves. */
  lemma StepRely(n: nat, run: seq<World>, events: seq<Event>, i: nat, u: nat)
    requires IsRun(n, run, events) && i < |events| && events[i].t != u
    ensures Rely(u, run[i].sh, run[i + 1].sh)
    ensures u < n ==> u < |run[i].ts| && u < |run[i + 1].ts| && run[i + 1].ts[u] == run[i].ts[u]
  {
    hide Global, Thread, Rely, Step;
    RunInv(n, run, events, i);
    Steps.EveryStepKept(events[i].t, u, run[i].ts[events[i].t], run[i].sh, events[i].c);
  }

  /** The shared history only grows. */
  ghost predicate Grows(sh: Shared, sh': Shared) {
    && sh.r.published <= sh'.r.published
    && sh.r.seqno <= sh'.r.seqno
    && sh.r.f.gen <= sh'.r.f.gen
    && sh.d.accepted <= sh'.d.accepted
    && sh.u.finished <= sh'.u.finished
    && sh.c.count <= sh'.c.count
  }

  lemma RelyGrows(t: nat, sh: Shared, sh': Shared)
    requires Rely(t, sh, sh')
    ensures Grows(sh, sh')
  {
  }

  lemma GrowsTwice(a: Shared, b: Shared, c: Shared)
    requires Grows(a, b) && Grows(b, c)
    ensures Grows(a, c)
  {
  }

  lemma GrowsNot(sh: Shared)
    ensures Grows(sh, sh)
  {
  }

  lemma {:induction false} HistoryGrows(n: nat, run: seq<World>, events: seq<Event>, i: nat, j: nat)
    requires IsRun(n, run, events) && i <= j < |run|
    ensures Grows(run[i].sh, run[j].sh)
    decreases j
  {
    hide Grows, Rely, Step;
    if i < j {
      HistoryGrows(n, run, events, i, j - 1);
      var t := events[j - 1].t + 1;
      StepRely(n, run, events, j - 1, t);
      RelyGrows(t, run[j - 1].sh, run[j].sh);
      GrowsTwice(run[i].sh, run[j - 1].sh, run[j].sh);
    } else {
      GrowsNot(run[i].sh);
    }
  }

  // ---------------------------------------------------------------- calls

  predicate Returned(pc: Pc) { pc.Done? || pc.DoneSnapshot? || pc.DoneMatches? || pc.DoneCommit? }

  /** Thread t starts operation c with the step from run[i], and has just returned from it in run[j]. */
  ghost predicate Calls(run: seq<World>, events: seq<Event>, t: nat, i: nat, j: nat, c: Call) {
    && |run| == |events| + 1 && i < j < |run|
    && (forall k :: i <= k <= j ==> t < |run[k].ts|)
    && events[i] == Event(t, c) && run[i].ts[t].pc.Idle? && CallAllowed(run[i].sh, run[i].ts[t], c)
    && (forall k :: i < k < j ==> !Returned(run[k].ts[t].pc))
    && Returned(run[j].ts[t].pc)
  }

  // ---------------------------------------------------------------- invalidation

  /** publish_durable_invalidation(g) returns true to thread u with the step from run[p]. */
  ghost predicate AcceptsInvalidation(run: seq<World>, events: seq<Event>, p: nat, u: nat, g: nat) {
    && |run| == |events| + 1 && p < |events| && events[p].t == u
    && u < |run[p].ts| && u < |run[p + 1].ts|
    && run[p].ts[u].pc.Invalidating? && !run[p].ts[u].pc.iv.InvEnter?
    && run[p + 1].ts[u].pc == Invalidating(InvEnter) && run[p + 1].ts[u].a.gen == g
  }

  lemma MatchesStarts(t: nat, l: Local, sh: Shared, route: Route, g: nat)
    requires l.pc.Idle?
    ensures var l' := Step(t, l, sh, CallMatches(route, g)).0;
      && l'.pc.Matching? && l'.a.route == route && l'.a.gen == g
      && l'.m == MatchAux(sh.d.accepted, sh.r.f.gen, if sh.c.live.Some? then sh.c.live.value.serial else 0)
  {
  }

  lemma MatchesStep(t: nat, l: Local, sh: Shared, c: Call)
    requires l.pc.Matching?
    ensures var l' := Step(t, l, sh, c).0;
      (l'.pc.Matching? || l'.pc.DoneMatches?) && l'.a == l.a && l'.m == l.m
  {
  }

  /** Inside a matches() call the arguments stay, and so does what was true when it began. */
  lemma {:induction false} MatchesArguments(n: nat, run: seq<World>, events: seq<Event>, t: nat, i: nat, j: nat,
                                            k: nat, route: Route, g: nat)
    requires IsRun(n, run, events) && Calls(run, events, t, i, j, CallMatches(route, g)) && i < k <= j
    ensures var l, sh := run[k].ts[t], run[i].sh;
      && (if k < j then l.pc.Matching? else l.pc.DoneMatches?)
      && l.a.route == route && l.a.gen == g
      && l.m == MatchAux(sh.d.accepted, sh.r.f.gen, if sh.c.live.Some? then sh.c.live.value.serial else 0)
    decreases k
  {
    hide Step, Rely, Inv;
    if i + 1 < k {
      MatchesArguments(n, run, events, t, i, j, k - 1, route, g);
      if events[k - 1].t != t {
        StepRely(n, run, events, k - 1, t);
      } else {
        MatchesStep(t, run[k - 1].ts[t], run[k - 1].sh, events[k - 1].c);
      }
    } else {
      MatchesStarts(t, run[i].ts[t], run[i].sh, route, g);
    }
  }

  lemma MatchesOutcome(n: nat, run: seq<World>, events: seq<Event>, t: nat, i: nat, j: nat, route: Route, g: nat)
    requires IsRun(n, run, events) && Calls(run, events, t, i, j, CallMatches(route, g))
    ensures var l, sh := run[j].ts[t], run[i].sh;
      && l.a.route == route && l.a.gen == g
      && l.m == MatchAux(sh.d.accepted, sh.r.f.gen, if sh.c.live.Some? then sh.c.live.value.serial else 0)
      && MatchResult(l.a, l.out, l.m, run[j].sh)
  {
    MatchesArguments(n, run, events, t, i, j, j, route, g);
    RunInv(n, run, events, j);
  }

  /**
   Once an invalidation of generation g has been accepted, no matches(route, g) that starts
   later returns true, whoever carries the retirement out.
   */
  lemma InvalidatedGenerationNeverMatches(n: nat, run: seq<World>, events: seq<Event>, p: nat, u: nat, t: nat,
                                          i: nat, j: nat, route: Route, g: nat)
    requires IsRun(n, run, events)
    requires AcceptsInvalidation(run, events, p, u, g)
    requires p < i && Calls(run, events, t, i, j, CallMatches(route, g)) && !route.NoRoute?
    ensures !run[j].ts[t].out.ok
  {
    assert g in run[p + 1].sh.d.accepted;
    HistoryGrows(n, run, events, p + 1, i);
    MatchesOutcome(n, run, events, t, i, j, route, g);
  }

  // ---------------------------------------------------------------- history

  /** Published settings: settled when stable, half way to none when releasing, and never USB next to BLE. */
  lemma HistoryIsOrderly(n: nat, run: seq<World>, events: seq<Event>, j: nat, i: nat)
    requires IsRun(n, run, events) && j < |run|
    requires i < |run[j].sh.r.published|
    ensures var s := run[j].sh.r.published;
      && (s[i].trans.Stable? ==> s[i].desired == s[i].active)
      && (s[i].trans.Releasing? ==> s[i].desired.NoRoute? && !s[i].active.NoRoute?)
      && (i + 1 < |s| ==>
            || s[i + 1].active == s[i].active
            || s[i].active.NoRoute?
            || s[i + 1].active.NoRoute?)
      && (run[j].sh.r.seqno % 2 == 0 ==> run[j].sh.r.f == s[|s| - 1])
  {
    RunInv(n, run, events, j);
    if i + 1 < |run[j].sh.r.published| {
      assert Edge(run[j].sh.r.published[i], run[j].sh.r.published[i + 1]);
    }
  }

  /** A generation labels one activation: wherever it is published with a route, it is that route throughout. */
  lemma {:induction false} SameGenerationSameActivation(s: seq<Fields>, a: nat, m: nat, b: nat)
    requires History(s) && a <= m <= b < |s|
    requires s[a].gen == s[b].gen && !s[a].active.NoRoute? && !s[b].active.NoRoute?
    ensures s[m].gen == s[a].gen && s[m].active == s[a].active
    decreases m
  {
    if a < m {
      Stable.GenerationsAscend(s, a, m - 1);
      Stable.GenerationsAscend(s, m - 1, m);
      Stable.GenerationsAscend(s, m, b);
      assert Edge(s[m - 1], s[m]);
      SameGenerationSameActivation(s, a, m - 1, b);
    }
  }

  lemma OneActivationAGeneration(n: nat, run: seq<World>, events: seq<Event>, j: nat, a: nat, m: nat, b: nat)
    requires IsRun(n, run, events) && j < |run|
    requires a <= m <= b < |run[j].sh.r.published|
    requires var s := run[j].sh.r.published;
      s[a].gen == s[b].gen && !s[a].active.NoRoute? && !s[b].active.NoRoute?
    ensures var s := run[j].sh.r.published; s[m].gen == s[a].gen && s[m].active == s[a].active
  {
    RunInv(n, run, events, j);
    SameGenerationSameActivation(run[j].sh.r.published, a, m, b);
  }

  lemma ActiveRouteStep(t: nat, l: Local, sh: Shared, c: Call)
    requires GRoute(sh.r) && LArgs(l) && LWriter(t, l, sh.r)
    ensures var f, f' := sh.r.f, Step(t, l, sh, c).1.r.f;
      f'.active == f.active || f.active.NoRoute? || f'.active.NoRoute?
  {
  }

  /** The active route as any reader may load it, in the middle of a publication or not. */
  lemma ActiveRouteChangesThroughNone(n: nat, run: seq<World>, events: seq<Event>, i: nat)
    requires IsRun(n, run, events) && i < |events|
    ensures var f, f' := run[i].sh.r.f, run[i + 1].sh.r.f;
      f'.active == f.active || f.active.NoRoute? || f'.active.NoRoute?
  {
    hide Step, GRoute, GDur, GUsb, GCond, GClaim, LWriter, LUsb, LReads, LClaims;
    RunInv(n, run, events, i);
    var t := events[i].t;
    ActiveRouteStep(t, run[i].ts[t], run[i].sh, events[i].c);
  }

  /** Nobody stores to the four fields but the thread that holds the writer. */
  lemma OnlyTheWriterStoresFields(n: nat, run: seq<World>, events: seq<Event>, i: nat)
    requires IsRun(n, run, events) && i < |events|
    requires run[i + 1].sh.r.f != run[i].sh.r.f || run[i + 1].sh.r.seqno != run[i].sh.r.seqno
    ensures run[i].sh.r.owner == Some(events[i].t)
  {
    RunInv(n, run, events, i);
  }

  /** A thread that is not inside an operation holds the writer exactly when it holds a claim. */
  lemma EveryExitFreesTheWriter(n: nat, run: seq<World>, events: seq<Event>, j: nat, t: nat)
    requires IsRun(n, run, events) && j < |run| && t < |run[j].ts|
    requires Returned(run[j].ts[t].pc) || run[j].ts[t].pc.Idle?
    ensures run[j].sh.r.owner == Some(t) <==> run[j].ts[t].caller.claim.Some?
  {
    RunInv(n, run, events, j);
  }
}
