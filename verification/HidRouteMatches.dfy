/**
 What an answer of matches() means, in every run: true, that the route was active in the
 generation asked for at an instant of the call, with nothing pending just before; false, that
 something spoke against it at an instant of the call.
 */
module HidRouteMatches {
  import opened HidRoute
  import opened HidRouteInvariant
  import opened HidRouteSafety
  import opened HidRouteSnapshots

  lemma MatchCameFrom(l: Local, sh: Shared)
    requires l.pc.Matching?
    ensures var l' := StepMatches(l.pc.ma, l, sh);
      && (l'.pc.DoneMatches? && l'.out.ok ==> l.pc.ma.MatchGeneration? && sh.r.f.gen == l.a.gen)
      && (l'.pc.DoneMatches? && !l'.out.ok ==> SpeaksAgainst(sh, l.a.route, l.a.gen))
      && (l'.pc == Matching(MatchGeneration) ==> l.pc.ma.MatchActive? && sh.r.f.active == l.a.route)
      && (l'.pc == Matching(MatchActive) ==> l.pc.ma.MatchDurable? && sh.d.state.DurableNone?)
      && (l'.pc == Matching(MatchDurable) ==> l.pc.ma.MatchToken? && sh.k.token.NoToken?)
      && (l'.pc == Matching(MatchToken) ==> l.pc.ma.MatchUsb? && !UsbGateShut(sh.u.state))
  {
  }

  /** Something is pending, or another route or generation is there. */
  ghost predicate SpeaksAgainst(sh: Shared, route: Route, g: nat) {
    UsbGateShut(sh.u.state) || !sh.k.token.NoToken? || !sh.d.state.DurableNone? || sh.r.f.active != route
    || sh.r.f.gen != g
  }

  /** The step of the call that has led to where it is at run[k]. */
  lemma MatchWasAt(n: nat, run: seq<World>, events: seq<Event>, t: nat, i: nat, j: nat, k: nat, route: Route, g: nat)
    returns (c: nat)
    requires IsRun(n, run, events) && Calls(run, events, t, i, j, CallMatches(route, g)) && t < n && i < k <= j
    requires run[k].ts[t].pc != Matching(MatchUsb)
    ensures i < c < k && run[c].ts[t].pc.Matching? && run[c].ts[t].a.route == route && run[c].ts[t].a.gen == g
    ensures run[k].ts[t] == StepMatches(run[c].ts[t].pc.ma, run[c].ts[t], run[c].sh)
  {
    hide StepMatches, Inv, Rely;
    c := LastStep(n, run, events, t, i, k);
    if i < c { MatchesArguments(n, run, events, t, i, j, c, route, g); }
  }

  /**
   true: no USB publication or veto at u, no token at x, no durable invalidation at d, the route
   active at a and the generation g at b, in this order; and if g is not yet to come when the call
   begins, as for a generation that a snapshot has shown, it was g at a too.
   */
  lemma MatchesTrueMeansActive(n: nat, run: seq<World>, events: seq<Event>, t: nat, i: nat, j: nat, route: Route,
                               g: nat) returns (u: nat, x: nat, d: nat, a: nat, b: nat)
    requires IsRun(n, run, events) && Calls(run, events, t, i, j, CallMatches(route, g)) && run[j].ts[t].out.ok
    ensures i < u < x < d < a < b < j
    ensures !UsbGateShut(run[u].sh.u.state) && run[x].sh.k.token.NoToken? && run[d].sh.d.state.DurableNone?
    ensures run[a].sh.r.f.active == route && run[b].sh.r.f.gen == g
    ensures g <= run[i].sh.r.f.gen ==> run[a].sh.r.f.gen == g
  {
    hide StepMatches, Inv, Grows;
    ThreadsStay(n, run, events, i);
    MatchesArguments(n, run, events, t, i, j, j, route, g);
    b := MatchWasAt(n, run, events, t, i, j, j, route, g);
    MatchCameFrom(run[b].ts[t], run[b].sh);
    a := MatchWasAt(n, run, events, t, i, j, b, route, g);
    MatchCameFrom(run[a].ts[t], run[a].sh);
    d := MatchWasAt(n, run, events, t, i, j, a, route, g);
    MatchCameFrom(run[d].ts[t], run[d].sh);
    x := MatchWasAt(n, run, events, t, i, j, d, route, g);
    MatchCameFrom(run[x].ts[t], run[x].sh);
    u := MatchWasAt(n, run, events, t, i, j, x, route, g);
    MatchCameFrom(run[u].ts[t], run[u].sh);
    GenerationGrows(n, run, events, i, a);
    GenerationGrows(n, run, events, a, b);
  }

  lemma GenerationGrows(n: nat, run: seq<World>, events: seq<Event>, i: nat, j: nat)
    requires IsRun(n, run, events) && i <= j < |run|
    ensures run[i].sh.r.f.gen <= run[j].sh.r.f.gen
  {
    HistoryGrows(n, run, events, i, j);
  }

  /** false: at an instant of the call something spoke against it. */
  lemma MatchesFalseMeansNot(n: nat, run: seq<World>, events: seq<Event>, t: nat, i: nat, j: nat, route: Route,
                             g: nat) returns (k: nat)
    requires IsRun(n, run, events) && Calls(run, events, t, i, j, CallMatches(route, g)) && !run[j].ts[t].out.ok
    ensures i < k < j && SpeaksAgainst(run[k].sh, route, g)
  {
    hide StepMatches, Inv;
    ThreadsStay(n, run, events, i);
    MatchesArguments(n, run, events, t, i, j, j, route, g);
    k := MatchWasAt(n, run, events, t, i, j, j, route, g);
    MatchCameFrom(run[k].ts[t], run[k].sh);
  }
}
