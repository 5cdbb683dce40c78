/**
 What a session answers, over whole runs: new requests are executed, old ones told apart, hellos
 and transitions answered again, and a session ends five seconds after it was last used.
 */
module SessionAnswers {
  import opened Session
  import opened SessionRuns

  // ---------------------------------------------------------------- requests

  /**
   In a disciplined run the verdict on a request of the current session is decided by the last
   executed one: a higher id is new, a lower one stale, the same id a retry or a conflict.
   */
  lemma VerdictByLastExecuted(actions: seq<Action>, session: string, id: int, payload: Payload, epoch: nat)
    requires Disciplined(actions) && !Moved(actions)
    ensures var m := After(actions);
      var v := Inspected(m.f, session, id, payload, epoch);
      if !Current(m.f, session, epoch) then v == SessionMismatch
      else if m.log == [] then v == AcceptNew
      else
        var last := m.log[|m.log| - 1];
        && (v == AcceptNew <==> id > last.id)
        && (v == IdStale <==> id < last.id)
        && (v == IdConflict <==> id == last.id && payload != last.payload)
        && (v == ExactRetry(last.response) <==> id == last.id && payload == last.payload)
  {
    AfterInv(actions);
    DisciplineKeepsIds(actions);
  }

  /** So a request with an id that was not yet used is executed, exactly as it was sent. */
  lemma NewRequestsAreExecuted(actions: seq<Action>, r: Action)
    requires Disciplined(actions) && !Moved(actions) && r.RequestAction?
    requires var m := After(actions);
      && Current(m.f, r.session, r.epoch)
      && forall i :: 0 <= i < |m.log| ==> r.id > m.log[i].id
    ensures After(actions + [r]).log == After(actions).log + [Executed(r.id, r.payload, r.response)]
    ensures var f := After(actions + [r]).f;
      Inspected(f, r.session, r.id, r.payload, r.epoch) == ExactRetry(r.response)
  {
    AfterOne(actions, r);
    VerdictByLastExecuted(actions, r.session, r.id, r.payload, r.epoch);
  }

  // ---------------------------------------------------------------- hellos

  ghost predicate NoHello(more: seq<Action>) { forall k :: 0 <= k < |more| ==> !more[k].HelloAction? }

  /** The active session is the one that hello h has begun. */
  ghost predicate BegunBy(f: Fields, h: Action)
    requires h.HelloAction?
  {
    && SameToken(f.session, h.session) && f.epoch == h.epoch
    && f.hello == Some(Hello(h.nonce, h.request, h.epoch, h.response))
  }

  lemma HelloBegins(m: Machine, h: Action)
    requires h.HelloAction? && |h.session| == TOKEN_LENGTH && m.f.nextOwner != 0
    requires HelloInspected(m.f, h.nonce, h.request, h.epoch).NewClient?
    ensures var m' := Act(m, h);
      && m'.f.active && BegunBy(m'.f, h) && m'.f.owner == m.f.nextOwner && m'.log == []
      && m'.owners == m.owners + [m.f.nextOwner] && m'.f.lease == h.now + LEASE_MICROSECONDS
  {
  }

  lemma StaysBegun(m: Machine, a: Action, h: Action)
    requires h.HelloAction? && !a.HelloAction? && (m.f.active ==> BegunBy(m.f, h))
    ensures var m' := Act(m, a); (m'.f.active ==> m.f.active && BegunBy(m'.f, h)) && m'.owners == m.owners
  {
  }

  lemma {:induction false} BegunThroughout(actions: seq<Action>, h: Action, more: seq<Action>)
    requires h.HelloAction? && |h.session| == TOKEN_LENGTH && NoHello(more) && After(actions).f.nextOwner != 0
    requires HelloInspected(After(actions).f, h.nonce, h.request, h.epoch).NewClient?
    ensures var m := After(actions + [h] + more);
      && (m.f.active ==> BegunBy(m.f, h))
      && m.owners == After(actions).owners + [After(actions).f.nextOwner]
  {
    hide Act;
    var first := actions + [h];
    if more == [] {
      assert first + more == first;
      AfterOne(actions, h);
      HelloBegins(After(actions), h);
    } else {
      var n := |more| - 1;
      BegunThroughout(actions, h, more[..n]);
      assert (first + more)[..|first| + n] == first + more[..n];
      StaysBegun(After(first + more[..n]), more[n], h);
    }
  }

  /**
   A hello that begins a session is answered again, byte for byte, for as long as that session
   lasts, without another session; the same nonce with other bytes is a conflict.
   */
  lemma HelloIsAnsweredAgain(actions: seq<Action>, h: Action, more: seq<Action>, request: string)
    requires h.HelloAction? && |h.session| == TOKEN_LENGTH && |h.nonce| == TOKEN_LENGTH && NoHello(more)
    requires After(actions).f.nextOwner != 0
    requires HelloInspected(After(actions).f, h.nonce, h.request, h.epoch).NewClient?
    requires After(actions + [h] + more).f.active
    ensures var m := After(actions + [h] + more);
      && HelloInspected(m.f, h.nonce, h.request, h.epoch) == HelloRetry(h.response)
      && Act(m, h).owners == m.owners && Act(m, h).f.session == m.f.session == h.session
      && (request != h.request ==> HelloInspected(m.f, h.nonce, request, h.epoch) == NonceConflict)
  {
    BegunThroughout(actions, h, more);
  }

  lemma {:induction false} NoSessionNoHello(actions: seq<Action>)
    ensures !After(actions).f.active ==> After(actions).f.hello.None?
  {
    if actions != [] { NoSessionNoHello(actions[..|actions| - 1]); }
  }

  /** When a session is over, however it ended, its hello is forgotten: the same hello begins a new one. */
  lemma EndedSessionIsForgotten(actions: seq<Action>, nonce: string, request: string, epoch: nat)
    requires !After(actions).f.active
    ensures HelloInspected(After(actions).f, nonce, request, epoch).NewClient?
  {
    NoSessionNoHello(actions);
  }

  /** A hello of a new client ends the session there is, also if it cannot begin another one. */
  lemma NewClientTakesOver(actions: seq<Action>, h: Action, id: int, payload: Payload)
    requires h.HelloAction? && |h.session| == TOKEN_LENGTH
    requires HelloInspected(After(actions).f, h.nonce, h.request, h.epoch).NewClient?
    ensures var m, m' := After(actions), After(actions + [h]);
      && (m'.f.active <==> m.f.nextOwner != 0)
      && (m'.f.active ==> BegunBy(m'.f, h) && m'.f.owner == m.f.nextOwner && m'.log == [])
      && (m.f.session != h.session ==>
            Inspected(m'.f, m.f.session, id, payload, m.f.epoch).SessionMismatch?)
  {
    AfterOne(actions, h);
    if After(actions).f.nextOwner != 0 { HelloBegins(After(actions), h); }
  }

  // ---------------------------------------------------------------- transitions

  lemma KeepsTransition(m: Machine, a: Action, t: Transition)
    requires m.f.retry == Moving(t) && !m.f.active
    requires !a.HelloAction? && !a.TransitionAction? && !a.ForgetTransition?
    ensures Act(m, a).f.retry == Moving(t) && !Act(m, a).f.active
  {
  }

  lemma {:induction false} TransitionKeptThroughout(actions: seq<Action>, t: Action, epoch: nat, more: seq<Action>)
    requires t.TransitionAction? && Keepable(t.session, t.request, t.response)
    requires After(actions).f.active ==> epoch != After(actions).f.epoch
    requires forall k :: 0 <= k < |more| ==>
               !more[k].HelloAction? && !more[k].TransitionAction? && !more[k].ForgetTransition?
    ensures var f := After(actions + [t] + [Lifecycle(epoch)] + more).f;
      f.retry == Moving(Transition(t.session, t.id, t.request, t.response)) && !f.active
  {
    var first := actions + [t] + [Lifecycle(epoch)];
    if more == [] {
      assert first + more == first;
      AfterOne(actions, t);
      AfterOne(actions + [t], Lifecycle(epoch));
    } else {
      hide Act;
      var n := |more| - 1;
      TransitionKeptThroughout(actions, t, epoch, more[..n]);
      assert (first + more)[..|first| + n] == first + more[..n];
      KeepsTransition(After(first + more[..n]), more[n], Transition(t.session, t.id, t.request, t.response));
    }
  }

  /**
   A transition that ends its session is answered again, byte for byte and whatever happens until
   the next hello, to exactly the request that was accepted and to no other.
   */
  lemma TransitionIsAnsweredAgain(actions: seq<Action>, t: Action, epoch: nat, more: seq<Action>, session: string,
                                  id: int, request: string)
    requires t.TransitionAction? && Keepable(t.session, t.request, t.response)
    requires After(actions).f.active ==> epoch != After(actions).f.epoch
    requires forall k :: 0 <= k < |more| ==>
               !more[k].HelloAction? && !more[k].TransitionAction? && !more[k].ForgetTransition?
    ensures var f := After(actions + [t] + [Lifecycle(epoch)] + more).f;
      TransitionAnswer(f, session, id, request) ==
      if session == t.session && id == t.id && request == t.request then Some(t.response) else None
  {
    TransitionKeptThroughout(actions, t, epoch, more);
  }

  /** The hello that begins the next session drops it. */
  lemma HelloDropsTransition(actions: seq<Action>, h: Action, session: string, id: int, request: string)
    requires h.HelloAction? && |h.session| == TOKEN_LENGTH && After(actions).f.nextOwner != 0
    requires HelloInspected(After(actions).f, h.nonce, h.request, h.epoch).NewClient?
    ensures TransitionAnswer(After(actions + [h]).f, session, id, request).None?
  {
    AfterOne(actions, h);
  }

  // ---------------------------------------------------------------- the lease

  /** When the session was last begun or refreshed. */
  ghost function LastUsed(actions: seq<Action>): nat {
    if actions == [] then 0
    else
      var front, a := actions[..|actions| - 1], actions[|actions| - 1];
      var m := After(front);
      match a
      case HelloAction(nonce, request, _, epoch, _, now) =>
        var v := HelloInspected(m.f, nonce, request, epoch);
        if v.NonceConflict? || (v.HelloRetry? && !m.f.active) || (v.NewClient? && m.f.nextOwner == 0)
        then LastUsed(front) else now
      case Refresh(now) => if m.f.active then now else LastUsed(front)
      case _ => LastUsed(front)
  }

  lemma {:induction false} LeaseIsFiveSeconds(actions: seq<Action>)
    ensures After(actions).f.active ==> After(actions).f.lease == LastUsed(actions) + 5_000_000
  {
    hide HelloInspected;
    if actions != [] { LeaseIsFiveSeconds(actions[..|actions| - 1]); }
  }

  /**
   A session that has not been used for five seconds is over when the lease is serviced, and nothing
   is accepted for it any more; one that has been used since goes on.
   */
  lemma UnusedSessionIsOver(actions: seq<Action>, now: nat, session: string, id: int, payload: Payload, epoch: nat)
    ensures var m, m' := After(actions), After(actions + [Lease(now)]);
      && (m'.f.active <==> m.f.active && now < LastUsed(actions) + 5_000_000)
      && (m'.f.active ==> m'.f == m.f)
      && (!m'.f.active ==> Inspected(m'.f, session, id, payload, epoch).SessionMismatch?)
  {
    AfterOne(actions, Lease(now));
    LeaseIsFiveSeconds(actions);
  }

  /** A takeover ends the session at once. */
  lemma TakeoverEnds(actions: seq<Action>, session: string, id: int, payload: Payload, epoch: nat)
    ensures var f := After(actions + [Takeover]).f;
      !f.active && f.owner == 0 && Inspected(f, session, id, payload, epoch).SessionMismatch?
  {
    AfterOne(actions, Takeover);
  }
}
