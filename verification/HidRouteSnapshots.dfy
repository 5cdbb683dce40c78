/**
 A coherent snapshot() shows the four fields as they were at one instant inside the call.
 */
module HidRouteSnapshots {
  import opened HidRoute
  import opened HidRouteInvariant
  import opened HidRouteSafety

  lemma SequenceAdvancesByOne(n: nat, run: seq<World>, events: seq<Event>, i: nat)
    requires IsRun(n, run, events) && i < |events|
    ensures run[i].sh.r.seqno <= run[i + 1].sh.r.seqno <= run[i].sh.r.seqno + 1
  {
  }

  /** The publication counter takes every value between two it has. */
  lemma {:induction false} SequencePasses(n: nat, run: seq<World>, events: seq<Event>, i: nat, j: nat, v: nat)
    returns (k: nat)
    requires IsRun(n, run, events) && i <= j < |run|
    requires run[i].sh.r.seqno <= v <= run[j].sh.r.seqno
    ensures i <= k <= j && run[k].sh.r.seqno == v
    decreases j
  {
    if run[j].sh.r.seqno == v {
      k := j;
    } else {
      SequenceAdvancesByOne(n, run, events, j - 1);
      k := SequencePasses(n, run, events, i, j - 1, v);
    }
  }

  lemma SnapshotStep(l: Local, sh: Shared)
    requires l.pc.Snapping? && l.s.ret == SnapForCaller
    ensures var l' := StepSnapshot(l.pc.sn, l, sh);
      && (l'.pc.Snapping? || l'.pc.DoneSnapshot?)
      && l'.s.ret == SnapForCaller && l'.s.start == l.s.start
  {
  }

  /** A snapshot() call stays in its loop until it returns, and keeps the counter it started at. */
  lemma {:induction false} SnapshotLoops(n: nat, run: seq<World>, events: seq<Event>, t: nat, i: nat, j: nat, k: nat)
    requires IsRun(n, run, events) && Calls(run, events, t, i, j, CallSnapshot) && i < k <= j
    ensures var l := run[k].ts[t];
      && (if k < j then l.pc.Snapping? && l.s.ret == SnapForCaller else l.pc.DoneSnapshot?)
      && l.s.start == run[i].sh.r.seqno
    decreases k
  {
    hide StepSnapshot, Rely, Inv;
    if i + 1 < k {
      SnapshotLoops(n, run, events, t, i, j, k - 1);
      if events[k - 1].t != t {
        StepRely(n, run, events, k - 1, t);
      } else {
        SnapshotStep(run[k - 1].ts[t], run[k - 1].sh);
      }
    }
  }

  /**
   A coherent snapshot returned by a call is the value of all four fields at one instant k of
   that call, and no publication is under way at that instant.
   */
  lemma CoherentSnapshotIsOneInstant(n: nat, run: seq<World>, events: seq<Event>, t: nat, i: nat, j: nat)
    returns (k: nat)
    requires IsRun(n, run, events) && Calls(run, events, t, i, j, CallSnapshot)
    requires run[j].ts[t].s.snap.coherent
    ensures i <= k <= j
    ensures run[k].sh.r.seqno % 2 == 0 && run[k].sh.r.f == run[j].ts[t].s.snap.f
  {
    SnapshotLoops(n, run, events, t, i, j, j);
    RunInv(n, run, events, j);
    var s := run[j].ts[t].s;
    k := SequencePasses(n, run, events, i, j, 2 * s.idx);
    RunInv(n, run, events, k);
    HistoryGrows(n, run, events, k, j);
  }

  /** Any other snapshot is closed: no route, and pending. */
  lemma SnapshotIsSettledOrClosed(n: nat, run: seq<World>, events: seq<Event>, t: nat, i: nat, j: nat)
    requires IsRun(n, run, events) && Calls(run, events, t, i, j, CallSnapshot)
    ensures var snap := run[j].ts[t].s.snap;
      if snap.coherent then
        && (snap.f.trans.Stable? ==> snap.f.desired == snap.f.active)
        && (snap.f.trans.Releasing? ==> snap.f.desired.NoRoute? && !snap.f.active.NoRoute?)
      else snap == FailClosed(snap.f.gen)
  {
    SnapshotLoops(n, run, events, t, i, j, j);
    RunInv(n, run, events, j);
    if i + 1 < j { SnapshotLoops(n, run, events, t, i, j, j - 1); }
  }

  // ---------------------------------------------------------------- not pending

  /** The last step of thread t before run[k]. */
  lemma {:induction false} LastStep(n: nat, run: seq<World>, events: seq<Event>, t: nat, i: nat, k: nat)
    returns (c: nat)
    requires IsRun(n, run, events) && i < k < |run| && events[i].t == t && t < n
    ensures i <= c < k && events[c].t == t && t < |run[k].ts| && t < |run[c].ts| && run[c + 1].ts[t] == run[k].ts[t]
    ensures (run[k].ts[t], run[c + 1].sh) == Step(t, run[c].ts[t], run[c].sh, events[c].c)
    decreases k
  {
    hide Step;
    ThreadsStay(n, run, events, k);
    ThreadsStay(n, run, events, k - 1);
    if events[k - 1].t == t {
      c := k - 1;
    } else {
      c := LastStep(n, run, events, t, i, k - 1);
    }
  }

  lemma {:induction false} ThreadsStay(n: nat, run: seq<World>, events: seq<Event>, k: nat)
    requires IsRun(n, run, events) && k < |run|
    ensures |run[k].ts| == n
  {
    hide Step;
    if k > 0 { ThreadsStay(n, run, events, k - 1); }
  }

  /** How the last four positions of an attempt are reached. */
  lemma SnapshotCameFrom(l: Local, sh: Shared)
    requires l.pc.Snapping? && l.s.ret == SnapForCaller
    ensures var l' := StepSnapshot(l.pc.sn, l, sh);
      && (l'.pc.DoneSnapshot? && l'.s.snap.coherent ==>
            && l.pc.sn.SnapAfter? && l.s.before == sh.r.seqno && l'.s.snap == Snap(l.s.seen, l.s.pend, true)
            && l'.s.idx == l.s.before / 2)
      && (l'.pc == Snapping(SnapAfter) && !l'.s.pend ==>
            l.pc.sn.SnapDurable? && sh.d.state.DurableNone? && l'.s.before == l.s.before)
      && (l'.pc == Snapping(SnapDurable) ==>
            l.pc.sn.SnapToken? && sh.k.token.NoToken? && l'.s.before == l.s.before)
      && (l'.pc == Snapping(SnapToken) ==>
            l.pc.sn.SnapUsb? && !UsbGateShut(sh.u.state) && l'.s.before == l.s.before)
  {
  }

  /** The same in a run. */
  lemma SnapshotWasAt(n: nat, run: seq<World>, events: seq<Event>, t: nat, i: nat, j: nat, k: nat) returns (c: nat)
    requires IsRun(n, run, events) && Calls(run, events, t, i, j, CallSnapshot) && t < n && i + 1 < k <= j
    requires !run[k].ts[t].pc.Snapping? || !run[k].ts[t].pc.sn.SnapBefore?
    ensures i < c < k && run[c].ts[t].pc.Snapping? && run[c].ts[t].s.ret == SnapForCaller
    ensures run[k].ts[t] == StepSnapshot(run[c].ts[t].pc.sn, run[c].ts[t], run[c].sh)
  {
    hide StepSnapshot;
    c := LastStep(n, run, events, t, i, k);
    if i < c { SnapshotLoops(n, run, events, t, i, j, c); }
  }

  /**
   A coherent snapshot that says "not pending": no USB publication or veto at a, no conditional
   token at b, no durable invalidation at c, one after the other inside the call, and from a to
   c the fields were the snapshot's, with no publication under way.
   */
  lemma NotPendingWasSeen(n: nat, run: seq<World>, events: seq<Event>, t: nat, i: nat, j: nat)
    returns (a: nat, b: nat, c: nat)
    requires IsRun(n, run, events) && Calls(run, events, t, i, j, CallSnapshot)
    requires var snap := run[j].ts[t].s.snap; snap.coherent && !snap.pending
    ensures i < a < b < c < j
    ensures !UsbGateShut(run[a].sh.u.state) && run[b].sh.k.token.NoToken? && run[c].sh.d.state.DurableNone?
    ensures forall k :: a <= k <= c ==>
              run[k].sh.r.seqno == run[a].sh.r.seqno && run[k].sh.r.seqno % 2 == 0
              && run[k].sh.r.f == run[j].ts[t].s.snap.f
  {
    hide StepSnapshot;
    ThreadsStay(n, run, events, i);
    SnapshotLoops(n, run, events, t, i, j, j);
    var d := SnapshotWasAt(n, run, events, t, i, j, j);
    SnapshotCameFrom(run[d].ts[t], run[d].sh);
    c := SnapshotWasAt(n, run, events, t, i, j, d);
    SnapshotCameFrom(run[c].ts[t], run[c].sh);
    b := SnapshotWasAt(n, run, events, t, i, j, c);
    SnapshotCameFrom(run[b].ts[t], run[b].sh);
    a := SnapshotWasAt(n, run, events, t, i, j, b);
    SnapshotCameFrom(run[a].ts[t], run[a].sh);
    RunInv(n, run, events, a);
    var before := run[a].ts[t].s.before;
    assert before % 2 == 0 && before <= run[a].sh.r.seqno;
    forall k | a <= k <= c
      ensures run[k].sh.r.seqno == before && run[k].sh.r.f == run[j].ts[t].s.snap.f
    {
      HistoryGrows(n, run, events, a, k);
      HistoryGrows(n, run, events, k, d);
      ShownFields(n, run, events, t, i, j, k);
    }
  }

  /** At any instant of the call at which the counter is the snapshot's, the fields are. */
  lemma ShownFields(n: nat, run: seq<World>, events: seq<Event>, t: nat, i: nat, j: nat, k: nat)
    requires IsRun(n, run, events) && Calls(run, events, t, i, j, CallSnapshot) && k <= j
    requires run[j].ts[t].s.snap.coherent && run[k].sh.r.seqno == 2 * run[j].ts[t].s.idx
    ensures run[k].sh.r.f == run[j].ts[t].s.snap.f
  {
    SnapshotLoops(n, run, events, t, i, j, j);
    RunInv(n, run, events, j);
    RunInv(n, run, events, k);
    HistoryGrows(n, run, events, k, j);
  }
}
