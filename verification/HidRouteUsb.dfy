/**
 The USB lifecycle veto: a USB commit succeeds only if no veto came between the reading of its
 cut and the end of its publication, and an unfinished publication never matches.
 */
module HidRouteUsb {
  import opened HidRoute
  import opened HidRouteInvariant
  import opened HidRouteSafety

  /** The step from run[i] is the swap of publish_usb_lifecycle_veto. */
  ghost predicate IsVeto(run: seq<World>, events: seq<Event>, i: nat) {
    i < |events| && i < |run| && events[i].t < |run[i].ts| && run[i].ts[events[i].t].pc == UsbCall(VetoSwap)
  }

  /** The step from run[i] is thread t's load in usb_publication_cut(). */
  ghost predicate ReadsCut(run: seq<World>, events: seq<Event>, i: nat, t: nat) {
    i < |events| && i < |run| && events[i].t == t && t < |run[i].ts| && run[i].ts[t].pc == UsbCall(CutRead)
  }

  /** Where thread t read the cut it has at run[k]; 0 for the cut of the cold boot. */
  ghost function CutAt(run: seq<World>, events: seq<Event>, t: nat, k: nat): nat {
    if k == 0 then 0 else if ReadsCut(run, events, k - 1, t) then k - 1 else CutAt(run, events, t, k - 1)
  }

  /** Thread t's finish_usb_publication succeeds with the step from run[f], for generation g. */
  ghost predicate Finishes(run: seq<World>, events: seq<Event>, f: nat, t: nat, g: nat) {
    && f < |events| && f < |run| && events[f].t == t && t < |run[f].ts|
    && run[f].ts[t].pc == Committing(CommitFinish)
    && run[f].sh.u.state == run[f].ts[t].w.ident
    && run[f].ts[t].w.gen == g
  }

  ghost predicate NoVetoBetween(run: seq<World>, events: seq<Event>, a: nat, b: nat) {
    forall k :: a <= k < b ==> !IsVeto(run, events, k)
  }

  /** Steps that the USB bookkeeping of thread t does not notice. */
  lemma StepFrame(t: nat, l: Local, sh: Shared, c: Call)
    ensures var (l', sh') := Step(t, l, sh, c);
      && (l.pc != UsbCall(CutRead) ==> l'.caller.cut == l.caller.cut && l'.caller.cutVetoes == l.caller.cutVetoes)
      && (l.pc == UsbCall(CutRead) ==> l'.caller.cutVetoes == sh.u.vetoes)
      && (l.pc.Idle? || l'.w.finVetoes == l.w.finVetoes
          || (l.pc == Committing(CommitFinish) && sh.u.state == l.w.ident && l'.w.finVetoes == Some(sh.u.vetoes)))
      && sh'.u.vetoes == sh.u.vetoes + (if l.pc == UsbCall(VetoSwap) then 1 else 0)
  {
  }

  lemma StepFinished(t: nat, l: Local, sh: Shared, c: Call)
    ensures var (l', sh') := Step(t, l, sh, c);
      sh'.u.finished == sh.u.finished
      || (l.pc == Committing(CommitFinish) && sh.u.state == l.w.ident
          && sh'.u.finished == sh.u.finished + {l.w.gen})
  {
  }

  lemma {:induction false} CutVetoes(n: nat, run: seq<World>, events: seq<Event>, t: nat, k: nat)
    requires IsRun(n, run, events) && k < |run| && t < n
    ensures var a := CutAt(run, events, t, k);
      a <= k && t < |run[k].ts| && run[k].ts[t].caller.cutVetoes == run[a].sh.u.vetoes
  {
    hide Step, Rely, Inv;
    RunInv(n, run, events, k);
    if k > 0 {
      CutVetoes(n, run, events, t, k - 1);
      if events[k - 1].t == t {
        StepFrame(t, run[k - 1].ts[t], run[k - 1].sh, events[k - 1].c);
      }
    }
  }

  /** As many vetoes at b as at a: none in between. */
  lemma {:induction false} CountedVetoes(n: nat, run: seq<World>, events: seq<Event>, a: nat, b: nat)
    requires IsRun(n, run, events) && a <= b < |run|
    ensures run[a].sh.u.vetoes <= run[b].sh.u.vetoes
    ensures run[a].sh.u.vetoes == run[b].sh.u.vetoes ==> NoVetoBetween(run, events, a, b)
    decreases b
  {
    hide Step;
    if a < b {
      CountedVetoes(n, run, events, a, b - 1);
      var t := events[b - 1].t;
      StepFrame(t, run[b - 1].ts[t], run[b - 1].sh, events[b - 1].c);
    }
  }

  /** A publication that finishes saw no veto since its thread read the cut. */
  lemma FinishMeansNoVeto(n: nat, run: seq<World>, events: seq<Event>, f: nat, t: nat, g: nat)
    requires IsRun(n, run, events) && Finishes(run, events, f, t, g) && t < n
    ensures CutAt(run, events, t, f) <= f
    ensures NoVetoBetween(run, events, CutAt(run, events, t, f), f)
  {
    RunInv(n, run, events, f);
    CutVetoes(n, run, events, t, f);
    CountedVetoes(n, run, events, CutAt(run, events, t, f), f);
  }

  /** The program points of commit_if_none. */
  ghost predicate InCommit(l: Local) {
    match l.pc
    case Entering(at) => at.CommitEnter?
    case Pending(_) => l.p.ret.PendForCommit?
    case Committing(_) => true
    case Retiring(_) => l.n.ret.RetireForVeto? || (l.n.ret.RetireForLeave? && LeavesCommit(l.v.ret))
    case Leaving(_) => LeavesCommit(l.v.ret)
    case Verdict(at) => at.CommitObserve? || at.CommitVerdict?
    case Snapping(_) => l.s.ret.SnapForCommit?
    case DoneCommit => true
    case _ => false
  }

  ghost predicate LeavesCommit(ret: LeaveRet) { ret.LeaveFailedCommit? || ret.LeaveToCommit? }

  lemma CommitStarts(t: nat, l: Local, sh: Shared, route: Route)
    requires l.pc.Idle? && CallAllowed(sh, l, CallCommit(route))
    ensures var l' := Step(t, l, sh, CallCommit(route)).0;
      InCommit(l') && l'.a.route == route && l'.w.finVetoes == None
  {
  }

  lemma CommitContinues(t: nat, l: Local, sh: Shared, c: Call)
    requires InCommit(l) && !l.pc.DoneCommit?
    ensures var l' := Step(t, l, sh, c).0; InCommit(l') && l'.a.route == l.a.route
  {
    hide Step;
    if l.pc.Committing? { LockedCommitContinues(t, l, sh, c); } else { OtherCommitContinues(t, l, sh, c); }
  }

  lemma LockedCommitContinues(t: nat, l: Local, sh: Shared, c: Call)
    requires l.pc.Committing?
    ensures var l' := Step(t, l, sh, c).0; InCommit(l') && l'.a.route == l.a.route
  {
    hide StepIdle, StepSnapshot, StepMatches, StepPending, StepEntering, StepStage, StepRelease, StepVerdict;
    hide StepRetire, StepLeave, StepInvalidate, StepClaim, StepClaimHeld, StepCancel, StepHeldClaim, StepUsb;
  }

  lemma OtherCommitContinues(t: nat, l: Local, sh: Shared, c: Call)
    requires InCommit(l) && !l.pc.DoneCommit? && !l.pc.Committing?
    ensures var l' := Step(t, l, sh, c).0; InCommit(l') && l'.a.route == l.a.route
  {
    hide StepIdle, StepMatches, StepCommit, StepStage, StepRelease, StepInvalidate, StepClaim, StepClaimHeld;
    hide StepCancel, StepHeldClaim, StepUsb;
  }

  /** Inside a commit the route and the cut stay the ones it was called with. */
  lemma {:induction false} CommitKeepsCut(n: nat, run: seq<World>, events: seq<Event>, t: nat, i: nat, j: nat,
                                          k: nat, route: Route)
    requires IsRun(n, run, events) && Calls(run, events, t, i, j, CallCommit(route)) && i < k <= j
    ensures InCommit(run[k].ts[t]) && run[k].ts[t].a.route == route
    ensures CutAt(run, events, t, k) == CutAt(run, events, t, i)
    decreases k
  {
    hide Step, Rely, Inv;
    if i + 1 < k {
      CommitKeepsCut(n, run, events, t, i, j, k - 1, route);
      if events[k - 1].t == t {
        CommitContinues(t, run[k - 1].ts[t], run[k - 1].sh, events[k - 1].c);
      }
    } else {
      CommitStarts(t, run[i].ts[t], run[i].sh, route);
    }
  }

  /** A finishing step that a commit remembers was taken by that commit. */
  lemma {:induction false} CommitFinished(n: nat, run: seq<World>, events: seq<Event>, t: nat, i: nat, j: nat,
                                          k: nat, route: Route) returns (f: nat)
    requires IsRun(n, run, events) && Calls(run, events, t, i, j, CallCommit(route)) && i < k <= j
    requires run[k].ts[t].w.finVetoes.Some?
    ensures i < f < k && Finishes(run, events, f, t, run[f].ts[t].w.gen)
    decreases k
  {
    hide Step, Rely, Inv;
    if k == i + 1 {
      f := 0;
      CommitStarts(t, run[i].ts[t], run[i].sh, route);
    } else {
      CommitKeepsCut(n, run, events, t, i, j, k - 1, route);
      var l := run[k - 1].ts[t];
      if events[k - 1].t == t {
        StepFrame(t, l, run[k - 1].sh, events[k - 1].c);
      }
      if l.w.finVetoes.Some? {
        f := CommitFinished(n, run, events, t, i, j, k - 1, route);
      } else {
        f := k - 1;
      }
    }
  }

  /**
   commit_usb_if_none(cut) returns true only if its publication finished at some step f of the
   call, with no lifecycle veto between the reading of the cut and f.
   */
  lemma UsbCommitTrueMeansNoVeto(n: nat, run: seq<World>, events: seq<Event>, t: nat, i: nat, j: nat) returns (f: nat)
    requires IsRun(n, run, events) && Calls(run, events, t, i, j, CallCommit(Usb)) && t < n
    requires run[j].ts[t].out.ok
    ensures i < f < j && Finishes(run, events, f, t, run[f].ts[t].w.gen)
    ensures CutAt(run, events, t, i) <= i && NoVetoBetween(run, events, CutAt(run, events, t, i), f)
  {
    CommitKeepsCut(n, run, events, t, i, j, j, Usb);
    RunInv(n, run, events, j);
    f := CommitFinished(n, run, events, t, i, j, j, Usb);
    CommitKeepsCut(n, run, events, t, i, j, f, Usb);
    CutVetoes(n, run, events, t, i);
    FinishMeansNoVeto(n, run, events, f, t, run[f].ts[t].w.gen);
  }

  /** A finished generation was finished by someone, unvetoed. */
  lemma {:induction false} FinishedMeansNoVeto(n: nat, run: seq<World>, events: seq<Event>, k: nat, g: nat)
    returns (f: nat, u: nat)
    requires IsRun(n, run, events) && k < |run| && g in run[k].sh.u.finished
    ensures f < k && u < n && Finishes(run, events, f, u, g)
    ensures CutAt(run, events, u, f) <= f && NoVetoBetween(run, events, CutAt(run, events, u, f), f)
  {
    hide Step, Inv;
    f, u := 0, 0;
    if k > 0 {
      var t := events[k - 1].t;
      RunInv(n, run, events, k - 1);
      StepFinished(t, run[k - 1].ts[t], run[k - 1].sh, events[k - 1].c);
      if g in run[k - 1].sh.u.finished {
        f, u := FinishedMeansNoVeto(n, run, events, k - 1, g);
      } else {
        f, u := k - 1, t;
        FinishMeansNoVeto(n, run, events, f, u, g);
      }
    }
  }

  /**
   A matches(USB, g) that starts once g is the generation, and returns true, does so after g's
   publication finished unvetoed; while that publication is active it cannot return true.
   */
  lemma UsbMatchMeansNoVeto(n: nat, run: seq<World>, events: seq<Event>, t: nat, i: nat, j: nat, g: nat)
    returns (f: nat, u: nat)
    requires IsRun(n, run, events) && Calls(run, events, t, i, j, CallMatches(Usb, g))
    requires g <= run[i].sh.r.f.gen && run[j].ts[t].out.ok
    ensures f < j && u < n && Finishes(run, events, f, u, g)
    ensures CutAt(run, events, u, f) <= f && NoVetoBetween(run, events, CutAt(run, events, u, f), f)
  {
    MatchesOutcome(n, run, events, t, i, j, Usb, g);
    f, u := FinishedMeansNoVeto(n, run, events, j, g);
  }

  /** The step from run[k] is the first of the call that thread t began at run[i]. */
  ghost predicate FirstStep(events: seq<Event>, t: nat, i: nat, k: nat) {
    i < k < |events| && events[k].t == t && forall q :: i < q < k ==> events[q].t != t
  }

  lemma {:induction false} WaitsForFirstStep(n: nat, run: seq<World>, events: seq<Event>, t: nat, i: nat, k: nat)
    requires IsRun(n, run, events) && i < k < |run| && t < n && forall q :: i < q < k ==> events[q].t != t
    ensures t < |run[k].ts| && t < |run[i + 1].ts| && run[k].ts[t] == run[i + 1].ts[t]
    decreases k
  {
    hide Step, Rely;
    if i + 1 < k {
      WaitsForFirstStep(n, run, events, t, i, k - 1);
      StepRely(n, run, events, k - 1, t);
    } else {
      RunInv(n, run, events, k);
    }
  }

  /**
   Every call of matches() that takes its first step while a USB publication is active, or
   vetoed, returns false, for any route and generation and whatever happens around it.
   */
  lemma ActivePublicationShutsTheGate(n: nat, run: seq<World>, events: seq<Event>, t: nat, i: nat, k: nat, j: nat,
                                      route: Route, g: nat)
    requires IsRun(n, run, events) && Calls(run, events, t, i, j, CallMatches(route, g))
    requires FirstStep(events, t, i, k) && k < j && UsbGateShut(run[k].sh.u.state)
    ensures !run[j].ts[t].out.ok
  {
    RunInv(n, run, events, i);
    WaitsForFirstStep(n, run, events, t, i, k);
    assert run[k].ts[t].pc == Matching(MatchUsb);
    assert run[k + 1].ts[t].pc.DoneMatches? && !run[k + 1].ts[t].out.ok;
    assert k + 1 == j;
  }
}
