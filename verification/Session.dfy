/**
 The control session (control_session.cpp): one active session at a time, a lease, and the retry
 caches that make a repeated request harmless.
 */
module Session {

  datatype Option<T> = None | Some(value: T)

  const TOKEN_LENGTH := 32
  const MAX_REQUEST_BYTES := 504
  const LEASE_MICROSECONDS := 5_000_000
  const LAST_OWNER := 0xffff_ffff_ffff_ffff

  /** What identifies a request: its bytes, or for a sensitive one its length and digest. */
  datatype Payload = Plain(bytes: string) | Sensitive(length: nat, digest: string)

  type Response = string

  datatype Hello = Hello(nonce: string, request: string, epoch: nat, response: Response)

  datatype Cached = Cached(id: int, payload: Payload, epoch: nat, response: Response)

  datatype Transition = Transition(session: string, id: int, request: string, response: Response)

  /** The tagged union: the cache of the last request, or the retry of a lifecycle transition. */
  datatype Retry = Normal(cached: Option<Cached>) | Moving(transition: Transition)

  datatype Verdict = AcceptNew | ExactRetry(response: Response) | IdConflict | IdStale | SessionMismatch

  datatype HelloVerdict = NewClient | HelloRetry(response: Response) | NonceConflict

  /** The fields of State. */
  datatype Fields = Fields(
    active: bool, session: string, epoch: nat, owner: nat, nextOwner: nat, lease: nat,
    hello: Option<Hello>, retry: Retry)

  // ---------------------------------------------------------------- what the methods compute

  predicate SameToken(cached: string, value: string) { |value| == TOKEN_LENGTH && cached == value }

  /** The session that a request names is active in the current epoch. */
  predicate Current(f: Fields, session: string, epoch: nat) {
    f.active && f.epoch == epoch && SameToken(f.session, session)
  }

  function Inspected(f: Fields, session: string, id: int, payload: Payload, epoch: nat): Verdict {
    if !Current(f, session, epoch) then SessionMismatch
    else if f.retry.Moving? || f.retry.cached.None? || f.retry.cached.value.epoch != epoch then AcceptNew
    else
      var c := f.retry.cached.value;
      if id > c.id then AcceptNew
      else if id < c.id then IdStale
      else if c.payload != payload then IdConflict
      else ExactRetry(c.response)
  }

  function HelloInspected(f: Fields, nonce: string, request: string, epoch: nat): HelloVerdict {
    if f.hello.None? || f.hello.value.epoch != epoch || !SameToken(f.hello.value.nonce, nonce) then NewClient
    else if f.hello.value.request != request then NonceConflict
    else HelloRetry(f.hello.value.response)
  }

  function Completed(f: Fields, id: int, payload: Payload, epoch: nat, response: Response): Fields {
    f.(retry := Normal(Some(Cached(id, payload, epoch, response))))
  }

  function Cleared(f: Fields): Fields {
    f.(active := false, session := "", epoch := 0, owner := 0, lease := 0, hello := None,
       retry := if f.retry.Normal? then Normal(None) else f.retry)
  }

  function Activated(f: Fields, nonce: string, request: string, session: string, epoch: nat, response: Response,
                     now: nat): Fields {
    f.(active := true, session := session, epoch := epoch, owner := f.nextOwner,
       nextOwner := if f.nextOwner == LAST_OWNER then 0 else f.nextOwner + 1,
       lease := now + LEASE_MICROSECONDS, hello := Some(Hello(nonce, request, epoch, response)),
       retry := if f.retry.Normal? then Normal(None) else f.retry)
  }

  predicate Keepable(session: string, request: string, response: Response) {
    |session| == TOKEN_LENGTH && |request| <= MAX_REQUEST_BYTES && response != ""
  }

  function TransitionKept(f: Fields, session: string, id: int, request: string, response: Response): Fields {
    if Keepable(session, request, response) then f.(retry := Moving(Transition(session, id, request, response))) else f
  }

  function TransitionDropped(f: Fields): Fields { if f.retry.Moving? then f.(retry := Normal(None)) else f }

  /** The kept response, for exactly the request it was kept for. */
  function TransitionAnswer(f: Fields, session: string, id: int, request: string): Option<Response> {
    if f.retry.Moving? && f.retry.transition.id == id && SameToken(f.retry.transition.session, session)
       && f.retry.transition.request == request
    then Some(f.retry.transition.response) else None
  }

  predicate FromOtherEpoch(f: Fields, epoch: nat) {
    || (f.active && f.epoch != epoch)
    || (f.hello.Some? && f.hello.value.epoch != epoch)
    || (f.retry.Normal? && f.retry.cached.Some? && f.retry.cached.value.epoch != epoch)
  }

  function Revoked(f: Fields, epoch: nat): Fields { if FromOtherEpoch(f, epoch) then Cleared(f) else f }

  function Expired(f: Fields, now: nat): Fields { if f.active && now >= f.lease then Cleared(f) else f }

  // ---------------------------------------------------------------- the object

  class State {
    var active: bool
    var session: string
    var epoch: nat
    var owner: nat
    var nextOwner: nat
    var lease: nat
    var hello: Option<Hello>
    var retry: Retry

    ghost function Value(): Fields
      reads this
    {
      Fields(active, session, epoch, owner, nextOwner, lease, hello, retry)
    }

    /** initialize */
    constructor ()
      ensures Value() == Fields(false, "", 0, 0, 1, 0, None, Normal(None))
    {
      active, session, epoch, owner, nextOwner, lease := false, "", 0, 0, 1, 0;
      hello, retry := None, Normal(None);
    }

    method ClearNormalCache()
      modifies `retry
      ensures retry == if old(retry).Normal? then Normal(None) else old(retry)
    {
      if !retry.Normal? {
        return;
      }
      retry := Normal(None);
    }

    method ActivateNormalCache()
      modifies `retry
      ensures retry == if old(retry).Moving? then Normal(None) else old(retry)
    {
      if retry.Moving? {
        retry := Normal(None);
      }
    }

    method ClearAuthority()
      modifies this
      ensures Value() == Cleared(old(Value()))
    {
      active, session, epoch, owner, lease := false, "", 0, 0, 0;
      ClearNormalCache();
      hello := None;
    }

    method InspectHello(nonce: string, request: string, currentEpoch: nat) returns (v: HelloVerdict)
      ensures v == HelloInspected(Value(), nonce, request, currentEpoch)
      ensures v.HelloRetry? ==> hello.Some? && hello.value == Hello(nonce, request, currentEpoch, v.response)
      ensures v.NonceConflict? <==> hello.Some? && hello.value.epoch == currentEpoch
                                    && SameToken(hello.value.nonce, nonce) && hello.value.request != request
      ensures v.NewClient? <==> hello.None? || hello.value.epoch != currentEpoch || !SameToken(hello.value.nonce, nonce)
    {
      if hello.None? || hello.value.epoch != currentEpoch || !SameToken(hello.value.nonce, nonce) {
        return NewClient;
      }
      if hello.value.request != request {
        return NonceConflict;
      }
      return HelloRetry(hello.value.response);
    }

    /** Fails exactly once the owner ids are used up, and then changes nothing. */
    method ActivateHello(nonce: string, request: string, newSession: string, authorityEpoch: nat,
                         response: Response, now: nat) returns (ok: bool)
      requires |request| <= MAX_REQUEST_BYTES && |newSession| == TOKEN_LENGTH
      modifies this
      ensures ok <==> old(nextOwner) != 0
      ensures Value() == if ok then Activated(old(Value()), nonce, request, newSession, authorityEpoch, response, now)
                         else old(Value())
    {
      var ownerId := nextOwner;
      if ownerId == 0 {
        return false;
      }
      nextOwner := if ownerId == LAST_OWNER then 0 else ownerId + 1;
      session, active, epoch, owner := newSession, true, authorityEpoch, ownerId;
      lease := now + LEASE_MICROSECONDS;
      ClearNormalCache();
      hello := Some(Hello(nonce, request, authorityEpoch, response));
      return true;
    }

    /** inspect_request and inspect_sensitive_request, which differ in the payload they compare. */
    method InspectRequest(requested: string, id: int, payload: Payload, currentEpoch: nat) returns (v: Verdict)
      ensures v == Inspected(Value(), requested, id, payload, currentEpoch)
    {
      if !active || epoch != currentEpoch || !SameToken(session, requested) {
        return SessionMismatch;
      }
      if !retry.Normal? {
        return AcceptNew;
      }
      var cached := retry.cached;
      if cached.None? || cached.value.epoch != currentEpoch || id > cached.value.id {
        return AcceptNew;
      }
      if id < cached.value.id {
        return IdStale;
      }
      if cached.value.payload.Sensitive? != payload.Sensitive? || cached.value.payload != payload {
        return IdConflict;
      }
      return ExactRetry(cached.value.response);
    }

    method CacheCompletedRequest(id: int, payload: Payload, authorityEpoch: nat, response: Response)
      requires payload.Plain? ==> |payload.bytes| <= MAX_REQUEST_BYTES
      modifies this
      ensures Value() == Completed(old(Value()), id, payload, authorityEpoch, response)
    {
      if payload.Sensitive? { ClearNormalCache(); }
      ActivateNormalCache();
      retry := Normal(Some(Cached(id, payload, authorityEpoch, response)));
    }

    method InspectTransitionRetry(requested: string, id: int, request: string) returns (response: Option<Response>)
      ensures response == TransitionAnswer(Value(), requested, id, request)
      ensures response.Some? <==>
              retry.Moving? && retry.transition.id == id && SameToken(retry.transition.session, requested)
              && retry.transition.request == request
      ensures response.Some? ==> response.value == retry.transition.response
    {
      if !retry.Moving? {
        return None;
      }
      var t := retry.transition;
      if t.id != id || !SameToken(t.session, requested) || t.request != request {
        return None;
      }
      return Some(t.response);
    }

    method CacheTransitionRetry(requested: string, id: int, request: string, response: Response)
      modifies this
      ensures Value() == TransitionKept(old(Value()), requested, id, request, response)
    {
      if |requested| != TOKEN_LENGTH || |request| > MAX_REQUEST_BYTES || response == "" {
        return;
      }
      retry := Moving(Transition(requested, id, request, response));
    }

    method ClearTransitionRetry()
      modifies this
      ensures Value() == TransitionDropped(old(Value()))
    {
      if !retry.Moving? {
        return;
      }
      retry := Normal(None);
    }

    method RefreshLease(now: nat) returns (ok: bool)
      modifies `lease
      ensures ok == active
      ensures lease == if ok then now + LEASE_MICROSECONDS else old(lease)
    {
      if !active {
        return false;
      }
      lease := now + LEASE_MICROSECONDS;
      return true;
    }

    method ServiceLease(now: nat) returns (expired: bool)
      modifies this
      ensures expired <==> old(active) && now >= old(lease)
      ensures Value() == Expired(old(Value()), now)
    {
      if !active || now < lease {
        return false;
      }
      ClearAuthority();
      return true;
    }

    method RevokeForLifecycleInvalidation(currentEpoch: nat)
      modifies this
      ensures Value() == Revoked(old(Value()), currentEpoch)
    {
      if (active && epoch != currentEpoch)
         || (hello.Some? && hello.value.epoch != currentEpoch)
         || (retry.Normal? && retry.cached.Some? && retry.cached.value.epoch != currentEpoch)
      {
        ClearAuthority();
      }
    }
  }
}
