/**
 The session driven as the protocol does it: inspect a request, execute it if it is new, then
 cache it.  Within a session every id is executed at most once, in increasing order.
 */
module SessionRuns {
  import opened Session

  /** One executed request of the session. */
  datatype Executed = Executed(id: int, payload: Payload, response: Response)

  /** The session's fields, what was executed in it, and the owners of all sessions so far. */
  datatype Machine = Machine(f: Fields, log: seq<Executed>, moved: bool, owners: seq<nat>)

  datatype Action =
    | HelloAction(nonce: string, request: string, session: string, epoch: nat, response: Response, now: nat)
    | RequestAction(session: string, id: int, payload: Payload, epoch: nat, response: Response)
    | TransitionAction(session: string, id: int, request: string, response: Response)
    | ForgetTransition
    | Refresh(now: nat)
    | Lease(now: nat)
    | Takeover
    | Lifecycle(epoch: nat)

  const InitMachine: Machine := Machine(Fields(false, "", 0, 0, 1, 0, None, Normal(None)), [], false, [])

  /** `response` is what executing the request yields; it is used only if the request is new. */
  function Act(m: Machine, a: Action): Machine {
    match a
    case HelloAction(nonce, request, session, epoch, response, now) =>
      (match HelloInspected(m.f, nonce, request, epoch)
       case HelloRetry(_) => if m.f.active then m.(f := m.f.(lease := now + LEASE_MICROSECONDS)) else m
       case NonceConflict => m
       case NewClient =>
         // revoke_for_takeover, activate_hello, clear_transition_retry
         var f := if m.f.active then Cleared(m.f) else m.f;
         if f.nextOwner == 0 then m.(f := f)
         else Machine(TransitionDropped(Activated(f, nonce, request, session, epoch, response, now)), [], false,
                      m.owners + [f.nextOwner]))
    case RequestAction(session, id, payload, epoch, response) =>
      if Inspected(m.f, session, id, payload, epoch).AcceptNew? then
        m.(f := Completed(m.f, id, payload, epoch, response), log := m.log + [Executed(id, payload, response)])
      else m
    case TransitionAction(session, id, request, response) =>
      m.(f := TransitionKept(m.f, session, id, request, response),
         moved := m.moved || Keepable(session, request, response))
    case ForgetTransition => m.(f := TransitionDropped(m.f))
    case Refresh(now) => if m.f.active then m.(f := m.f.(lease := now + LEASE_MICROSECONDS)) else m
    case Lease(now) => m.(f := Expired(m.f, now))
    case Takeover => m.(f := Cleared(m.f))
    case Lifecycle(epoch) => m.(f := Revoked(m.f, epoch))
  }

  function After(actions: seq<Action>): Machine {
    if actions == [] then InitMachine else Act(After(actions[..|actions| - 1]), actions[|actions| - 1])
  }

  /** Ids go up. */
  predicate Increasing(log: seq<Executed>) { forall i, j :: 0 <= i < j < |log| ==> log[i].id < log[j].id }

  /** In an unmoved active session the cache holds the last executed request, if there is one. */
  ghost predicate Inv(m: Machine) {
    && (!m.moved ==> Increasing(m.log))
    && (m.f.active && !m.moved ==>
          && m.f.retry.Normal?
          && (m.log == [] <==> m.f.retry.cached.None?)
          && (m.log != [] ==>
                var e := m.log[|m.log| - 1];
                m.f.retry.cached.value == Cached(e.id, e.payload, m.f.epoch, e.response)))
    && (forall i, j :: 0 <= i < j < |m.owners| ==> m.owners[i] < m.owners[j])
    && (forall i :: 0 <= i < |m.owners| ==> 0 < m.owners[i] <= LAST_OWNER)
    && m.f.nextOwner <= LAST_OWNER
    && (m.f.nextOwner != 0 ==> forall i :: 0 <= i < |m.owners| ==> m.owners[i] < m.f.nextOwner)
    && (m.f.active ==> m.owners != [] && m.f.owner == m.owners[|m.owners| - 1])
  }

  lemma HelloKeepsInv(m: Machine, a: Action)
    requires Inv(m) && a.HelloAction?
    ensures Inv(Act(m, a))
  {
    hide HelloInspected;
  }

  lemma ActKeepsInv(m: Machine, a: Action)
    requires Inv(m)
    ensures Inv(Act(m, a))
  {
    if a.HelloAction? {
      hide Act;
      HelloKeepsInv(m, a);
    }
  }

  lemma {:induction false} AfterInv(actions: seq<Action>)
    ensures Inv(After(actions))
  {
    if actions != [] {
      AfterInv(actions[..|actions| - 1]);
      ActKeepsInv(After(actions[..|actions| - 1]), actions[|actions| - 1]);
    }
  }

  // ---------------------------------------------------------------- transitions

  /**
   A transition is cached only to end the session: the next action is the lifecycle invalidation
   with the epoch that the transition has opened.
   */
  predicate Disciplined(actions: seq<Action>) {
    forall k :: 0 <= k < |actions| - 1 && actions[k].TransitionAction? ==> EndsSession(actions, k)
  }

  /** The action after actions[k] invalidates the session of that moment. */
  predicate EndsSession(actions: seq<Action>, k: nat)
    requires k < |actions| - 1
  {
    actions[k + 1].Lifecycle? && (After(actions[..k]).f.active ==> actions[k + 1].epoch != After(actions[..k]).f.epoch)
  }

  predicate Moved(actions: seq<Action>) { |actions| > 0 && actions[|actions| - 1].TransitionAction? }

  /** Except between the two actions, no active session holds a cached transition. */
  lemma {:induction false} DisciplineKeepsIds(actions: seq<Action>)
    requires Disciplined(actions)
    ensures Increasing(After(actions).log)
    ensures After(actions).f.active && !Moved(actions) ==> !After(actions).moved
  {
    if actions != [] {
      var n := |actions| - 1;
      var front := actions[..n];
      AfterInv(front);
      DisciplineStays(actions, n);
      DisciplineKeepsIds(front);
      if Moved(front) {
        var before := front[..n - 1];
        assert actions[..n - 1] == before && actions[n - 1] == front[n - 1];
        assert EndsSession(actions, n - 1);
      }
    }
  }

  lemma DisciplineStays(actions: seq<Action>, n: nat)
    requires Disciplined(actions) && n <= |actions|
    ensures Disciplined(actions[..n])
  {
    forall k | 0 <= k < n - 1 && actions[..n][k].TransitionAction? ensures EndsSession(actions[..n], k) {
      assert actions[..n][..k] == actions[..k];
      assert EndsSession(actions, k);
    }
  }

  /** Whatever sessions come and go, in each every id is executed at most once, in increasing order. */
  lemma EachIdOnce(actions: seq<Action>, i: nat, j: nat)
    requires Disciplined(actions) && i < j < |After(actions).log|
    ensures After(actions).log[i].id < After(actions).log[j].id
  {
    DisciplineKeepsIds(actions);
  }

  /**
   A request is answered from the cache exactly if it is the last executed one again, in the
   active session and epoch, and then with the response of that execution.
   */
  lemma RetryIsTheSameRequest(actions: seq<Action>, session: string, id: int, payload: Payload, epoch: nat,
                              response: Response)
    requires Disciplined(actions) && !Moved(actions)
    ensures var m := After(actions);
      Inspected(m.f, session, id, payload, epoch) == ExactRetry(response) <==>
      Current(m.f, session, epoch) && m.log != [] && m.log[|m.log| - 1] == Executed(id, payload, response)
  {
    DisciplineKeepsIds(actions);
    AfterInv(actions);
  }

  /**
   After a lifecycle invalidation and until the next hello, no request of any session is accepted
   or replayed for another epoch than the one invalidated to.
   */
  lemma {:induction false} NothingFromAnotherEpoch(actions: seq<Action>, current: nat, more: seq<Action>,
                                                   session: string, id: int, payload: Payload, epoch: nat)
    requires epoch != current && forall k :: 0 <= k < |more| ==> !more[k].HelloAction?
    ensures var f := After(actions + [Lifecycle(current)] + more).f;
      && (f.active ==> f.epoch == current)
      && Inspected(f, session, id, payload, epoch).SessionMismatch?
  {
    var first := actions + [Lifecycle(current)];
    if more == [] {
      assert first + more == first && first[..|actions|] == actions;
    } else {
      var n := |more| - 1;
      NothingFromAnotherEpoch(actions, current, more[..n], session, id, payload, epoch);
      assert (first + more)[..|first| + n] == first + more[..n];
    }
  }

  /** No two sessions have the same owner, also when the owner ids run out: then there are no more sessions. */
  lemma OwnersNeverRepeat(actions: seq<Action>, a: Action)
    ensures var m := After(actions);
      && (forall i, j :: 0 <= i < j < |m.owners| ==> m.owners[i] != m.owners[j])
      && (m.f.active ==> m.owners != [] && m.f.owner == m.owners[|m.owners| - 1] != 0)
      && (m.f.nextOwner == 0 ==> Act(m, a).owners == m.owners)
  {
    AfterInv(actions);
  }

  // ---------------------------------------------------------------- without the discipline

  lemma AfterOne(actions: seq<Action>, a: Action)
    ensures After(actions + [a]) == Act(After(actions), a)
  {
    assert (actions + [a])[..|actions|] == actions;
  }

  /** An active session's hello is of its epoch. */
  lemma {:induction false} HelloOfThisEpoch(actions: seq<Action>)
    ensures var f := After(actions).f; f.active ==> f.hello.Some? && f.hello.value.epoch == f.epoch
  {
    if actions != [] { HelloOfThisEpoch(actions[..|actions| - 1]); }
  }

  /**
   The invalidation after a transition is needed, and with a new epoch: exactly if it repeats the
   session's epoch, the next request of that session is executed, whatever its id.
   */
  lemma TransitionReopensIds(actions: seq<Action>, t: Action, epoch: nat, r: Action)
    requires t.TransitionAction? && Keepable(t.session, t.request, t.response) && r.RequestAction?
    requires Current(After(actions).f, r.session, r.epoch)
    ensures var log := After(actions).log;
      After(actions + [t] + [Lifecycle(epoch)] + [r]).log ==
      if epoch == After(actions).f.epoch then log + [Executed(r.id, r.payload, r.response)] else log
  {
    HelloOfThisEpoch(actions);
    AfterOne(actions, t);
    AfterOne(actions + [t], Lifecycle(epoch));
    AfterOne(actions + [t] + [Lifecycle(epoch)], r);
  }

  /** A run in which request 5 is executed twice in one session. */
  lemma SameIdTwice(session: string, response: Response) returns (actions: seq<Action>)
    requires |session| == TOKEN_LENGTH && response != ""
    ensures var log := After(actions).log; |log| == 2 && log[0].id == 5 == log[1].id
  {
    var r := RequestAction(session, 5, Plain(""), 0, response);
    var t := TransitionAction(session, 6, "", response);
    AfterOne([], HelloAction("", "", session, 0, response, 0));
    actions := [] + [HelloAction("", "", session, 0, response, 0)];
    AfterOne(actions, r);
    actions := actions + [r];
    TransitionReopensIds(actions, t, 0, r);
    actions := actions + [t] + [Lifecycle(0)] + [r];
  }

  /** With the discipline an id that is not above the last executed one is never executed. */
  lemma IdsStayClosed(actions: seq<Action>, r: Action)
    requires Disciplined(actions) && !Moved(actions) && r.RequestAction?
    requires var m := After(actions); m.log != [] && r.id <= m.log[|m.log| - 1].id
    ensures Act(After(actions), r) == After(actions)
  {
    AfterInv(actions);
    DisciplineKeepsIds(actions);
  }
}
