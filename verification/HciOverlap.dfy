/**
 A run in which the worker's begin_stop reopens ingress while the host's reset callback is still
 clearing the record: a connection that completes then is recorded without its handle, although
 ingress is enabled in one epoch all along.
 */
module HciOverlap {
  import opened HciEstablishment
  import opened HciSafety
  import opened HciConnections

  /** The same move k times. */
  function Repeat(w: World, e: Event, k: nat): World {
    if k == 0 then w else Next(Repeat(w, e, k - 1), e)
  }

  lemma {:induction false} Extend(run: seq<World>, events: seq<Event>, e: Event, n: nat)
    returns (run': seq<World>, events': seq<Event>)
    requires IsRun(run, events)
    ensures IsRun(run', events') && |events'| == |events| + n && run <= run' && events <= events'
    ensures forall k :: |events| <= k < |events'| ==> events'[k] == e
    ensures forall k :: |events| <= k <= |events'| ==> run'[k] == Repeat(run[|events|], e, k - |events|)
  {
    hide Next;
    if n == 0 {
      run', events' := run, events;
    } else {
      run', events' := Extend(run, events, e, n - 1);
      run', events' := run' + [Next(run'[|events'|], e)], events' + [e];
    }
  }

  const INITIALIZE := WorkerMoves(Retire(true))
  const RESET := ResetMoves(Retire(true))
  const STOP := WorkerMoves(BeginStop(true))
  const CONNECT := IngressMoves(Connected(5))

  /** Ingress is open. */
  const Open: World := InitWorld.(
    sh := InitWorld.sh.(enabled := true, epoch := 1), worker := Manager(ManagerIdle, true, true))

  lemma Opens()
    ensures Repeat(InitWorld, INITIALIZE, 9) == Open
  {
  }

  /** The reset callback has everything cleared but the handle. */
  const Resetting: World := Open.(
    sh := Open.sh.(enabled := false, epoch := 2), reset := Manager(ClearHandle, true, true))

  lemma Resets()
    ensures Repeat(Open, RESET, 7) == Resetting
  {
  }

  /** begin_stop was refused and has enabled ingress again. */
  const Overlapping: World :=
    Resetting.(sh := Resetting.sh.(enabled := true, epoch := 3), worker := Manager(ManagerIdle, false, true))

  lemma Stops()
    ensures Repeat(Resetting, STOP, 6) == Overlapping
  {
  }

  /** A connection on handle 5 has found nothing recorded. */
  const Arrived: World := Overlapping.(i := Ingress(Allocate, Connected(5), 3, NONE, false, 0, NoOutcome))

  lemma Arrives(k: nat)
    ensures Repeat(Overlapping, CONNECT, 6) == Arrived
    ensures k <= 6 ==> !Repeat(Overlapping, CONNECT, k).i.at.IngressDone?
  {
    hide RecordStep;
    assert k == 0 || k == 1 || k == 2 || k == 3 || k == 4 || k == 5 || k >= 6;
  }

  /** It has reserved the record. */
  const Reserved: World := Arrived.(
    sh := Arrived.sh.(id := RESERVED, next := 2), i := Ingress(StoreStack, Connected(5), 3, NONE, false, 1, NoOutcome))

  lemma Reserves(k: nat)
    ensures Repeat(Arrived, CONNECT, 4) == Reserved
    ensures k <= 4 ==> !Repeat(Arrived, CONNECT, k).i.at.IngressDone?
  {
    hide EntryStep;
    assert k == 0 || k == 1 || k == 2 || k == 3 || k >= 4;
  }

  /** It has stored its record but not published it. */
  const Filled: World := Reserved.(
    sh := Reserved.sh.(est := Record(0, 0, 5)), i := Ingress(StoreOwner, Connected(5), 3, NONE, false, 1, NoOutcome))

  lemma Fills(k: nat)
    ensures Repeat(Reserved, CONNECT, 3) == Filled
    ensures k <= 3 ==> !Repeat(Reserved, CONNECT, k).i.at.IngressDone?
  {
    hide EntryStep;
    assert k == 0 || k == 1 || k == 2 || k >= 3;
  }

  /** The reset callback clears the handle and is done but for enabling ingress. */
  const Cleared: World := Filled.(
    sh := Filled.sh.(est := NoRecord), reset := Manager(Reopen, true, true))

  lemma Clears()
    ensures Repeat(Filled, RESET, 1) == Cleared
  {
  }

  lemma Ends(k: nat)
    ensures var w := Repeat(Cleared, CONNECT, 1); w.i.at.Publish? && w.sh.est.handle == NO_CONNECTION
    ensures var w := Repeat(Cleared, CONNECT, 4); w.i.at.IngressDone? && w.i.outcome.Recorded?
    ensures k <= 3 ==> !Repeat(Cleared, CONNECT, k).i.at.IngressDone?
  {
    hide EntryStep;
    assert k == 0 || k == 1 || k == 2 || k >= 3;
  }

  lemma SteadyMove(w: World)
    ensures var w' := Next(w, CONNECT); w'.sh.enabled == w.sh.enabled && w'.sh.epoch == w.sh.epoch
  {
  }

  lemma {:induction false} IngressIsSteady(w: World, k: nat)
    ensures var w' := Repeat(w, CONNECT, k); w'.sh.enabled == w.sh.enabled && w'.sh.epoch == w.sh.epoch
  {
    hide Next;
    if k > 0 {
      IngressIsSteady(w, k - 1);
      SteadyMove(Repeat(w, CONNECT, k - 1));
    }
  }

  lemma Opening() returns (run: seq<World>, events: seq<Event>)
    ensures IsRun(run, events) && |events| == 22 && run[22] == Overlapping
  {
    hide Next;
    run, events := Extend([InitWorld], [], INITIALIZE, 9);
    Opens();
    run, events := Extend(run, events, RESET, 7);
    Resets();
    run, events := Extend(run, events, STOP, 6);
    Stops();
  }

  /** The observation begins after the first 22 moves. */
  lemma Plays() returns (run: seq<World>, events: seq<Event>)
    ensures IsRun(run, events) && |events| == 40 && events[22] == CONNECT == events[37]
    ensures forall k :: 22 <= k <= 28 ==> run[k] == Repeat(Overlapping, CONNECT, k - 22)
    ensures forall k :: 28 <= k <= 32 ==> run[k] == Repeat(Arrived, CONNECT, k - 28)
    ensures forall k :: 32 <= k <= 35 ==> run[k] == Repeat(Reserved, CONNECT, k - 32)
    ensures forall k :: 36 <= k <= 40 ==> run[k] == Repeat(Cleared, CONNECT, k - 36)
    ensures run[22] == Overlapping
  {
    hide Next;
    run, events := Opening();
    run, events := Extend(run, events, CONNECT, 6);
    Arrives(6);
    run, events := Extend(run, events, CONNECT, 4);
    Reserves(4);
    run, events := Extend(run, events, CONNECT, 3);
    Fills(3);
    run, events := Extend(run, events, RESET, 1);
    Clears();
    run, events := Extend(run, events, CONNECT, 4);
  }

  /** What needs two lifecycle tasks at once, and what happens then. */
  lemma OverlappingStopAndResetLoseTheHandle()
    returns (run: seq<World>, events: seq<Event>, i: nat, p: nat, j: nat)
    ensures IsRun(run, events) && Observes(run, events, i, j, 5) && SteadyIngress(run, i, j) && i < p < j
    ensures run[j].i.outcome.Recorded? && Publishes(run, events, p) && run[p].sh.est.handle == NO_CONNECTION
  {
    hide Next, Repeat;
    run, events := Plays();
    i, p, j := 22, 37, 40;
    forall k | i <= k <= j
      ensures run[k].sh.enabled && run[k].sh.epoch == 3
      ensures k < j ==> !run[k].i.at.IngressDone?
    {
      if k <= 28 {
        IngressIsSteady(Overlapping, k - 22);
        Arrives(k - 22);
      } else if k <= 32 {
        IngressIsSteady(Arrived, k - 28);
        Reserves(k - 28);
      } else if k <= 35 {
        IngressIsSteady(Reserved, k - 32);
        Fills(k - 32);
      } else {
        IngressIsSteady(Cleared, k - 36);
        Ends(k - 36);
      }
    }
    Ends(0);
    RunInv(run, events, p);
    PublishStep(run[p], events[p]);
  }
}
