/**
 The output-route state machine of firmware/components/hid_route/hid_route.cpp, as an
 interleaving of atomic steps.  Any number of threads run the public operations at the same
 time; each thread has a program counter and the local variables of the operation it is in.

 One step is one atomic load, store or compare-and-swap of the source, with three merges:
   - a compare-and-swap loop is one step (its failed rounds have no effect on shared state);
   - loads of the four route fields made by the thread that holds the writer are one step
     (`HidRouteSafety.OnlyTheWriterStoresFields` proves that nobody else stores to them);
   - a step also runs the purely local code up to the next shared access.
 Counters (generation, publication sequence, publication serial, token) do not wrap here.
 */
module HidRoute {

  datatype Option<T> = None | Some(value: T)

  datatype Route = NoRoute | Usb | Ble

  datatype Transition = Stable | Releasing

  datatype Fields = Fields(desired: Route, active: Route, gen: nat, trans: Transition)

  datatype UsbPub = UsbPub(serial: nat, active: bool, veto: bool)

  datatype Token = NoToken | Publishing | Token(id: nat)

  datatype Durable = DurableNone | DurablePublishing | DurableActive

  /** The source's Snapshot. */
  datatype Snap = Snap(f: Fields, pending: bool, coherent: bool)

  /** A live exclusive claim, as auxiliary history sees it. */
  datatype ClaimRecord = ClaimRecord(
    holder: nat, serial: nat, exp: Fields, tok: Token, since: nat, retired: bool, cancelled: bool)

  // The atomic fields of StateMachine in five groups.  Fields marked aux are history that the
  // code does not store: they are written, and never read by a step's decisions.

  datatype RoutePart = RoutePart(
    seqno: nat,               // publication_sequence_
    f: Fields,                // desired_, active_, generation_, transition_
    owner: Option<nat>,       // writer_active_, with (aux) the thread that set it
    published: seq<Fields>,   // aux: the fields at every even publication sequence number
    mid: Option<Route>)       // aux: route of a commit between generation bump and active store

  datatype DurPart = DurPart(
    state: Durable,           // durable_state_
    target: nat,              // durable_generation_
    filler: Option<nat>,      // aux: thread filling the slot
    stored: bool,               // aux: that thread has stored its target
    accepted: set<nat>)       // aux: generations whose invalidation was accepted

  datatype CondPart = CondPart(
    token: Token,             // conditional_token_
    target: nat,              // conditional_generation_
    next: nat,                // next_conditional_token_
    filler: Option<nat>,      // aux: thread filling the slot
    owners: seq<nat>,         // aux: thread each token was allocated to
    used: set<nat>)           // aux: tokens that have been published

  datatype UsbPart = UsbPart(
    state: UsbPub,            // usb_publication_state_
    vetoes: nat,              // aux: publish_usb_lifecycle_veto calls so far
    finished: set<nat>)       // aux: generations whose USB publication finished

  datatype ClaimPart = ClaimPart(
    count: nat,               // aux: exact claims granted so far
    live: Option<ClaimRecord>)

  datatype Shared = Shared(r: RoutePart, d: DurPart, k: CondPart, u: UsbPart, c: ClaimPart)

  datatype ClaimResult = ClaimedExact | Stale | ClaimPending

  // Program points, one type a routine.
  datatype SnapAt =
    | SnapBefore | SnapDesired | SnapActive | SnapGeneration | SnapTransition
    | SnapUsb | SnapToken | SnapDurable | SnapAfter | SnapGiveUp

  datatype MatchAt = MatchUsb | MatchToken | MatchDurable | MatchActive | MatchGeneration

  datatype PendAt = PendUsb | PendToken | PendDurable

  datatype EnterAt = CommitEnter | StageEnter | ReleaseEnter

  datatype CommitAt =
    | CommitCheck | CommitRegister | CommitOpen | CommitBump
    | CommitSeeToken | CommitSeeDurable | CommitSeeUsb
    | UndoDesired | UndoActive | UndoTransition | UndoClose | CommitClearUsb
    | CommitDesired | CommitActive | CommitTransition | CommitClose | CommitFinish | CommitVetoed

  datatype StageAt = StageCheck | StageOpen | StageDesired | StageTransition | StageClose | StageKeep

  datatype ReleaseAt =
    | ReleaseCheck | ReleaseOpen | ReleaseActive | ReleaseBump | ReleaseTransition | ReleaseClose

  datatype AfterAt =
    | CommitObserve | CommitVerdict | StageObserve | StageVerdict | ReleasePending | ReleaseVerdict

  datatype RetireAt =
    | RetireCheck | RetireOpen | RetireDesired | RetireActive | RetireBump | RetireTransition | RetireClose

  datatype LeaveAt =
    | LeaveDurable | LeaveTarget | LeaveRetire | LeaveConsume | LeaveToken | LeaveExact | LeaveClear | LeaveFree

  datatype InvAt = InvTarget | InvCompare | DurReserve | DurCompare | DurTarget | DurActivate | InvEnter

  datatype ClaimAt =
    | ClaimCompare | ClaimStale | TokGeneration | TokCompare | TokReserve | TokAllocate
    | TokTarget | TokPublish | ClaimEnter

  datatype CancelAt = CancelGeneration | CancelToken | CancelSwap

  datatype UsbAt = CutRead | VetoSwap

  datatype Pc =
    | Idle
    | Done | DoneSnapshot | DoneMatches | DoneCommit
    | Snapping(sn: SnapAt)        // snapshot
    | Matching(ma: MatchAt)       // matches
    | Pending(pe: PendAt)         // invalidation_pending
    | Entering(en: EnterAt)       // try_enter_writer of the transitions
    | Committing(co: CommitAt)    // commit_if_none, writer held
    | Staging(st: StageAt)        // begin_release, writer held
    | Completing(re: ReleaseAt)   // complete_release, writer held
    | Verdict(af: AfterAt)        // the rest of the three, writer left
    | Retiring(rt: RetireAt)      // commit_none_locked
    | Leaving(le: LeaveAt)        // leave_writer_with_handoff
    | Invalidating(iv: InvAt)     // invalidate, invalidate_if_matches, publish_durable_invalidation
    | InvLeave
    | Claiming(cl: ClaimAt)       // claim_invalidation_if_matches, publish_conditional_invalidation
    | ClaimExact | ClaimInexact
    | Cancelling(ca: CancelAt)    // cancel_conditional_invalidation
    | CancelReturn
    | ClaimRetired | ClaimRetireCancelled | ClaimReleased   // ExactInvalidationClaim
    | UsbCall(us: UsbAt)          // usb_publication_cut, publish_usb_lifecycle_veto

  // Where each routine returns to.
  datatype SnapRet =
    SnapForCaller | SnapForCommit | SnapForStageA | SnapForStage | SnapForInvalidate | SnapForClaim
  datatype PendRet = PendForCommit | PendForStage | PendForRelease | PendAfterRelease
  datatype RetireRet = RetireForVeto | RetireForLeave | RetireForInvalidate | RetireForClaim
  datatype LeaveRet = LeaveDone | LeaveFailedCommit | LeaveToCommit | LeaveToStage | LeaveToRelease
  datatype CancelRet = CancelForStale | CancelForInexact | CancelForCaller | CancelForRetire | CancelForRelease

  function SnapReturn(ret: SnapRet): Pc {
    match ret
    case SnapForCaller => DoneSnapshot
    case SnapForCommit => Verdict(CommitVerdict)
    case SnapForStageA => Staging(StageKeep)
    case SnapForStage => Verdict(StageVerdict)
    case SnapForInvalidate => Invalidating(InvCompare)
    case SnapForClaim => Claiming(ClaimCompare)
  }

  function PendReturn(ret: PendRet): Pc {
    match ret
    case PendForCommit => Committing(CommitCheck)
    case PendForStage => Staging(StageCheck)
    case PendForRelease => Completing(ReleaseCheck)
    case PendAfterRelease => Verdict(ReleaseVerdict)
  }

  function RetireReturn(ret: RetireRet): Pc {
    match ret
    case RetireForVeto => Committing(CommitVetoed)
    case RetireForLeave => Leaving(LeaveConsume)
    case RetireForInvalidate => InvLeave
    case RetireForClaim => ClaimRetired
  }

  function LeaveReturn(ret: LeaveRet): Pc {
    match ret
    case LeaveDone => Done
    case LeaveFailedCommit => DoneCommit
    case LeaveToCommit => Verdict(CommitObserve)
    case LeaveToStage => Verdict(StageObserve)
    case LeaveToRelease => Verdict(ReleasePending)
  }

  function CancelReturnPoint(ret: CancelRet): Pc {
    match ret
    case CancelForStale => Claiming(ClaimStale)
    case CancelForInexact => ClaimInexact
    case CancelForCaller => CancelReturn
    case CancelForRetire => ClaimRetireCancelled
    case CancelForRelease => ClaimReleased
  }

  /** ExactInvalidationClaim::expected_ and conditional_token_ while owner_ is set. */
  datatype Held = Held(exp: Snap, tok: Token)

  // Local variables, one record a routine; `ret` is where the routine returns to.
  datatype Args = Args(route: Route, gen: nat, exp: Snap, expIdx: nat, exact: bool)
  datatype Caller = Caller(cut: UsbPub, cutVetoes: nat, tok: Token, claim: Option<Held>)
  datatype Out = Out(ok: bool, res: ClaimResult, stageA: Snap)
  datatype SnapVars = SnapVars(
    attempt: nat, before: nat, seen: Fields, pend: bool, snap: Snap, ret: SnapRet, start: nat, idx: nat)
  datatype PendVars = PendVars(pend: bool, ret: PendRet)
  datatype CommitVars = CommitVars(ident: UsbPub, gen: nat, finVetoes: Option<nat>)
  datatype RetireVars = RetireVars(route: Route, gen: nat, exact: bool, changed: bool, ret: RetireRet)
  datatype LeaveVars = LeaveVars(target: nat, tok: Token, ret: LeaveRet)
  datatype TokenVars = TokenVars(minted: nat, gen: nat, tok: Token, done: bool, ret: CancelRet)
  datatype MatchAux = MatchAux(accepted: set<nat>, gen: nat, claim: nat)

  datatype Local = Local(
    pc: Pc, a: Args, caller: Caller, out: Out,
    s: SnapVars, p: PendVars, w: CommitVars, n: RetireVars, v: LeaveVars, x: TokenVars, m: MatchAux)

  const ColdBoot: Fields := Fields(NoRoute, NoRoute, 0, Stable)

  function FailClosed(gen: nat): Snap { Snap(Fields(NoRoute, NoRoute, gen, Stable), true, false) }

  function NoneAt(gen: nat): Fields { Fields(NoRoute, NoRoute, gen, Stable) }

  const NoPub: UsbPub := UsbPub(0, false, false)

  const InitShared: Shared := Shared(
    RoutePart(0, ColdBoot, None, [ColdBoot], None),
    DurPart(DurableNone, 0, None, false, {}),
    CondPart(NoToken, 0, 1, None, [0], {}),
    UsbPart(NoPub, 0, {}),
    ClaimPart(0, None))

  const InitLocal: Local := Local(
    Idle, Args(NoRoute, 0, FailClosed(0), 0, false), Caller(NoPub, 0, NoToken, None),
    Out(false, Stale, FailClosed(0)),
    SnapVars(0, 0, ColdBoot, false, FailClosed(0), SnapForCaller, 0, 0), PendVars(false, PendForCommit),
    CommitVars(NoPub, 0, None), RetireVars(NoRoute, 0, false, false, RetireForVeto),
    LeaveVars(0, NoToken, LeaveDone), TokenVars(0, 0, NoToken, false, CancelForCaller), MatchAux({}, 0, 0))

  // ---------------------------------------------------------------- operations

  /** What an idle thread may call. */
  datatype Call =
    | CallSnapshot
    | CallMatches(route: Route, gen: nat)
    | CallCommit(route: Route)                    // with the cut the thread last read
    | CallBeginRelease(route: Route)
    | CallCompleteRelease(route: Route, exp: Snap)
    | CallInvalidate
    | CallInvalidateIf(exp: Snap)
    | CallClaim(exp: Snap, idx: nat)              // idx: the publication exp was read from
    | CallCancel(gen: nat)
    | CallForgetToken
    | CallRetire
    | CallRelease
    | CallVeto
    | CallCut

  /** A claim's `expected` is a value that snapshot() returned at some time. */
  predicate CallAllowed(sh: Shared, l: Local, c: Call) {
    match c
    case CallClaim(exp, idx) => exp.coherent ==> idx < |sh.r.published| && sh.r.published[idx] == exp.f
    case CallRetire => l.caller.claim.Some?
    case CallRelease => l.caller.claim.Some?
    case CallCommit(route) => !route.NoRoute?
    case CallBeginRelease(route) => !route.NoRoute?
    case CallCompleteRelease(route, _) => !route.NoRoute?
    case _ => true
  }

  function GoSnapshot(l: Local, r: RoutePart, ret: SnapRet): Local {
    l.(pc := Snapping(SnapBefore), s := l.s.(attempt := 0, start := r.seqno, ret := ret))
  }

  function GoPending(l: Local, ret: PendRet): Local { l.(pc := Pending(PendUsb), p := PendVars(false, ret)) }

  function GoRetire(l: Local, route: Route, gen: nat, exact: bool, ret: RetireRet): Local {
    l.(pc := Retiring(RetireCheck), n := RetireVars(route, gen, exact, false, ret))
  }

  function GoCancel(l: Local, gen: nat, tok: Token, ret: CancelRet): Local {
    l.(pc := Cancelling(CancelGeneration), x := l.x.(gen := gen, tok := tok, ret := ret))
  }

  function Leave(l: Local, ok: bool, ret: LeaveRet): Local {
    l.(pc := Leaving(LeaveDurable), out := l.out.(ok := ok), v := l.v.(ret := ret))
  }

  function Finish(l: Local, ok: bool): Local { l.(pc := Done, out := l.out.(ok := ok)) }

  function FinishMatches(l: Local, ok: bool): Local { l.(pc := DoneMatches, out := l.out.(ok := ok)) }

  function FinishCommit(l: Local, ok: bool): Local { l.(pc := DoneCommit, out := l.out.(ok := ok)) }

  function StepIdle(l: Local, sh: Shared, c: Call): (Local, Shared) {
    match c
    case CallSnapshot => (GoSnapshot(l, sh.r, SnapForCaller), sh)
    case CallMatches(route, gen) =>
      (l.(pc := Matching(MatchUsb), a := l.a.(route := route, gen := gen),
          m := MatchAux(sh.d.accepted, sh.r.f.gen,
                        if sh.c.live.Some? then sh.c.live.value.serial else 0)), sh)
    case CallCommit(route) =>
      (l.(pc := Entering(CommitEnter), a := l.a.(route := route), w := l.w.(finVetoes := None)), sh)
    case CallBeginRelease(route) => (l.(pc := Entering(StageEnter), a := l.a.(route := route)), sh)
    case CallCompleteRelease(route, exp) =>
      (l.(pc := Entering(ReleaseEnter), a := l.a.(route := route, exp := exp)), sh)
    case CallInvalidate => (l.(pc := Invalidating(InvTarget), a := l.a.(exact := false)), sh)
    case CallInvalidateIf(exp) =>
      var l' := l.(a := l.a.(exp := exp, exact := true));
      if !exp.coherent || exp.f.active.NoRoute? then (Finish(l', false), sh)
      else (GoSnapshot(l', sh.r, SnapForInvalidate), sh)
    case CallClaim(exp, idx) =>
      var l' := l.(a := l.a.(exp := exp, expIdx := idx), out := l.out.(res := Stale));
      if l.caller.claim.Some? || !exp.coherent || exp.f.active.NoRoute? then (Finish(l', false), sh)
      else (GoSnapshot(l', sh.r, SnapForClaim), sh)
    case CallCancel(gen) => (GoCancel(l, gen, l.caller.tok, CancelForCaller), sh)
    case CallForgetToken => (l.(caller := l.caller.(tok := NoToken)), sh)
    case CallRetire =>
      if l.caller.claim.None? then (l, sh) else
        var exp := l.caller.claim.value.exp.f;
        (GoRetire(l, exp.active, exp.gen, true, RetireForClaim), sh)
    case CallRelease =>
      if l.caller.claim.None? then (l, sh) else
        var h := l.caller.claim.value;
        (GoCancel(l, h.exp.f.gen, h.tok, CancelForRelease), sh.(c := sh.c.(live := None)))
    case CallVeto => (l.(pc := UsbCall(VetoSwap)), sh)
    case CallCut => (l.(pc := UsbCall(CutRead)), sh)
  }

  predicate UsbGateShut(usb: UsbPub) { usb.active || usb.veto }

  // snapshot(): three bounded attempts, then the fail-closed view.
  function SnapRetry(l: Local): Local {
    l.(s := l.s.(attempt := l.s.attempt + 1),
       pc := if l.s.attempt + 1 < 3 then Snapping(SnapBefore) else Snapping(SnapGiveUp))
  }

  function See(l: Local, seen: Fields, at: SnapAt): Local { l.(s := l.s.(seen := seen), pc := Snapping(at)) }

  function SeePending(l: Local, pend: bool): Local { l.(s := l.s.(pend := pend), pc := Snapping(SnapAfter)) }

  function StepSnapshot(at: SnapAt, l: Local, sh: Shared): Local {
    match at
    case SnapBefore =>
      if sh.r.seqno % 2 == 1 then SnapRetry(l)
      else l.(s := l.s.(before := sh.r.seqno), pc := Snapping(SnapDesired))
    case SnapDesired => See(l, l.s.seen.(desired := sh.r.f.desired), SnapActive)
    case SnapActive => See(l, l.s.seen.(active := sh.r.f.active), SnapGeneration)
    case SnapGeneration => See(l, l.s.seen.(gen := sh.r.f.gen), SnapTransition)
    case SnapTransition => See(l, l.s.seen.(trans := sh.r.f.trans), SnapUsb)
    case SnapUsb => if UsbGateShut(sh.u.state) then SeePending(l, true) else l.(pc := Snapping(SnapToken))
    case SnapToken =>
      if !sh.k.token.NoToken? then SeePending(l, true) else l.(pc := Snapping(SnapDurable))
    case SnapDurable => SeePending(l, !sh.d.state.DurableNone?)
    case SnapAfter =>
      if l.s.before == sh.r.seqno && sh.r.seqno % 2 == 0 then
        l.(s := l.s.(snap := Snap(l.s.seen, l.s.pend, true), idx := l.s.before / 2), pc := SnapReturn(l.s.ret))
      else SnapRetry(l)
    case SnapGiveUp => l.(s := l.s.(snap := FailClosed(sh.r.f.gen)), pc := SnapReturn(l.s.ret))
  }

  function StepMatches(at: MatchAt, l: Local, sh: Shared): Local {
    match at
    case MatchUsb =>
      if UsbGateShut(sh.u.state) then FinishMatches(l, false) else l.(pc := Matching(MatchToken))
    case MatchToken =>
      if !sh.k.token.NoToken? then FinishMatches(l, false) else l.(pc := Matching(MatchDurable))
    case MatchDurable =>
      if !sh.d.state.DurableNone? then FinishMatches(l, false) else l.(pc := Matching(MatchActive))
    case MatchActive =>
      if sh.r.f.active != l.a.route then FinishMatches(l, false) else l.(pc := Matching(MatchGeneration))
    case MatchGeneration => FinishMatches(l, sh.r.f.gen == l.a.gen)
  }

  function Pended(l: Local, pend: bool): Local { l.(p := l.p.(pend := pend), pc := PendReturn(l.p.ret)) }

  function StepPending(at: PendAt, l: Local, sh: Shared): Local {
    match at
    case PendUsb => if UsbGateShut(sh.u.state) then Pended(l, true) else l.(pc := Pending(PendToken))
    case PendToken => if !sh.k.token.NoToken? then Pended(l, true) else l.(pc := Pending(PendDurable))
    case PendDurable => Pended(l, !sh.d.state.DurableNone?)
  }

  /** advance_usb_publication_serial with both flags dropped. */
  function Advance(usb: UsbPub): UsbPub { UsbPub(usb.serial + 1, false, false) }

  function EnterWriter(t: nat, r: RoutePart): RoutePart { r.(owner := Some(t)) }

  /** begin_publication and end_publication; at the end the fields are published. */
  function Open(r: RoutePart): RoutePart { r.(seqno := r.seqno + 1) }

  function Close(r: RoutePart): RoutePart { r.(seqno := r.seqno + 1, published := r.published + [r.f]) }

  function Store(r: RoutePart, f: Fields): RoutePart { r.(f := f) }

  // try_enter_writer at the head of the three transitions
  function StepEntering(t: nat, at: EnterAt, l: Local, r: RoutePart): (Local, RoutePart) {
    match at
    case CommitEnter =>
      if r.owner.Some? then (FinishCommit(l, false), r)
      else (GoPending(l, PendForCommit), EnterWriter(t, r))
    case StageEnter =>
      if r.owner.Some? then (Finish(l, false), r)
      else (GoPending(l, PendForStage), EnterWriter(t, r))
    case ReleaseEnter =>
      if r.owner.Some? then (Finish(l, false), r)
      else (GoPending(l, PendForRelease), EnterWriter(t, r))
  }

  function AtCommit(l: Local, at: CommitAt): Local { l.(pc := Committing(at)) }

  function StepCommit(at: CommitAt, l: Local, sh: Shared): (Local, Shared) {
    var r, u := sh.r, sh.u;
    match at
    case CommitCheck =>
      if l.p.pend || !r.f.desired.NoRoute? || !r.f.active.NoRoute? || !r.f.trans.Stable?
      then (Leave(l, false, LeaveFailedCommit), sh)
      else (AtCommit(l, if l.a.route.Usb? then CommitRegister else CommitOpen), sh)
    case CommitRegister =>
      if UsbGateShut(l.caller.cut) || u.state != l.caller.cut then (Leave(l, false, LeaveFailedCommit), sh)
      else
        var ident := UsbPub(l.caller.cut.serial + 1, true, false);
        (AtCommit(l, CommitOpen).(w := l.w.(ident := ident)), sh.(u := u.(state := ident)))
    case CommitOpen => (AtCommit(l, CommitBump), sh.(r := Open(r)))
    case CommitBump =>
      (AtCommit(l, CommitSeeToken).(w := l.w.(gen := r.f.gen + 1)),
       sh.(r := r.(f := r.f.(gen := r.f.gen + 1), mid := Some(l.a.route))))
    case CommitSeeToken =>
      (AtCommit(l, if !sh.k.token.NoToken? then UndoDesired else CommitSeeDurable), sh)
    case CommitSeeDurable =>
      (AtCommit(l, if !sh.d.state.DurableNone? then UndoDesired
                   else if l.a.route.Usb? then CommitSeeUsb else CommitDesired), sh)
    case CommitSeeUsb => (AtCommit(l, if u.state != l.w.ident then UndoDesired else CommitDesired), sh)
    case UndoDesired =>
      (AtCommit(l, UndoActive), sh.(r := r.(f := r.f.(desired := NoRoute), mid := None)))
    case UndoActive => (AtCommit(l, UndoTransition), sh.(r := Store(r, r.f.(active := NoRoute))))
    case UndoTransition => (AtCommit(l, UndoClose), sh.(r := Store(r, r.f.(trans := Stable))))
    case UndoClose =>
      (if l.a.route.Usb? then AtCommit(l, CommitClearUsb) else Leave(l, false, LeaveFailedCommit),
       sh.(r := Close(r)))
    case CommitClearUsb =>
      (Leave(l, false, LeaveFailedCommit),
       if u.state.active then sh.(u := u.(state := Advance(u.state))) else sh)
    case CommitDesired => (AtCommit(l, CommitActive), sh.(r := Store(r, r.f.(desired := l.a.route))))
    case CommitActive =>
      (AtCommit(l, CommitTransition), sh.(r := r.(f := r.f.(active := l.a.route), mid := None)))
    case CommitTransition => (AtCommit(l, CommitClose), sh.(r := Store(r, r.f.(trans := Stable))))
    case CommitClose =>
      (if l.a.route.Usb? then AtCommit(l, CommitFinish) else Leave(l, false, LeaveToCommit),
       sh.(r := Close(r)))
    case CommitFinish =>
      if u.state == l.w.ident then
        (Leave(l, false, LeaveToCommit).(w := l.w.(finVetoes := Some(u.vetoes))),
         sh.(u := u.(state := Advance(u.state), finished := u.finished + {l.w.gen})))
      else (GoRetire(l, Usb, l.w.gen, true, RetireForVeto), sh)
    case CommitVetoed => (AtCommit(l, CommitClearUsb), sh)
  }

  function AtStage(l: Local, at: StageAt): Local { l.(pc := Staging(at)) }

  function StepStage(at: StageAt, l: Local, r: RoutePart): (Local, RoutePart) {
    match at
    case StageCheck =>
      if l.p.pend || r.f.desired != l.a.route || r.f.active != l.a.route || !r.f.trans.Stable?
      then (Leave(l, false, LeaveDone), r) else (AtStage(l, StageOpen), r)
    case StageOpen => (AtStage(l, StageDesired), Open(r))
    case StageDesired => (AtStage(l, StageTransition), Store(r, r.f.(desired := NoRoute)))
    case StageTransition => (AtStage(l, StageClose), Store(r, r.f.(trans := Releasing)))
    case StageClose => (GoSnapshot(l, Close(r), SnapForStageA), Close(r))
    case StageKeep => (Leave(l.(out := l.out.(stageA := l.s.snap)), false, LeaveToStage), r)
  }

  function AtRelease(l: Local, at: ReleaseAt): Local { l.(pc := Completing(at)) }

  function StepRelease(at: ReleaseAt, l: Local, r: RoutePart): (Local, RoutePart) {
    match at
    case ReleaseCheck =>
      var stageA := Fields(NoRoute, l.a.route, l.a.exp.f.gen, Releasing);
      if l.p.pend || l.a.exp.f != stageA || r.f != stageA
      then (Leave(l, false, LeaveDone), r) else (AtRelease(l, ReleaseOpen), r)
    case ReleaseOpen => (AtRelease(l, ReleaseActive), Open(r))
    case ReleaseActive => (AtRelease(l, ReleaseBump), Store(r, r.f.(active := NoRoute)))
    case ReleaseBump => (AtRelease(l, ReleaseTransition), Store(r, r.f.(gen := r.f.gen + 1)))
    case ReleaseTransition => (AtRelease(l, ReleaseClose), Store(r, r.f.(trans := Stable)))
    case ReleaseClose => (Leave(l, false, LeaveToRelease), Close(r))
  }

  // what the three transitions still look at after they have left the writer
  function StepVerdict(at: AfterAt, l: Local, r: RoutePart): Local {
    var snap := l.s.snap;
    match at
    case CommitObserve => GoSnapshot(l, r, SnapForCommit)
    case CommitVerdict =>
      FinishCommit(l, snap.coherent && !snap.pending
                      && snap.f == Fields(l.a.route, l.a.route, l.w.gen, Stable))
    case StageObserve => GoSnapshot(l, r, SnapForStage)
    case StageVerdict =>
      Finish(l, l.out.stageA.coherent && snap.coherent && !snap.pending
                && snap.f == Fields(NoRoute, l.a.route, l.out.stageA.f.gen, Releasing))
    case ReleasePending => GoPending(l, PendAfterRelease)
    case ReleaseVerdict => Finish(l, !l.p.pend)
  }

  function AtRetire(l: Local, at: RetireAt): Local { l.(pc := Retiring(at)) }

  // commit_none_locked
  function StepRetire(at: RetireAt, l: Local, r: RoutePart): (Local, RoutePart) {
    match at
    case RetireCheck =>
      if r.f.active.NoRoute? || (l.n.exact && (r.f.active != l.n.route || r.f.gen != l.n.gen))
      then (l.(n := l.n.(changed := false), pc := RetireReturn(l.n.ret)), r)
      else (AtRetire(l, RetireOpen), r)
    case RetireOpen => (AtRetire(l, RetireDesired), Open(r))
    case RetireDesired => (AtRetire(l, RetireActive), Store(r, r.f.(desired := NoRoute)))
    case RetireActive => (AtRetire(l, RetireBump), Store(r, r.f.(active := NoRoute)))
    case RetireBump => (AtRetire(l, RetireTransition), Store(r, r.f.(gen := r.f.gen + 1)))
    case RetireTransition => (AtRetire(l, RetireClose), Store(r, r.f.(trans := Stable)))
    case RetireClose => (l.(n := l.n.(changed := true), pc := RetireReturn(l.n.ret)), Close(r))
  }

  predicate StillExactUsb(f: Fields, gen: nat) { f == Fields(Usb, Usb, gen, Stable) }

  function AtLeave(l: Local, at: LeaveAt): Local { l.(pc := Leaving(at)) }

  function StepLeave(at: LeaveAt, l: Local, sh: Shared): (Local, Shared) {
    var f := sh.r.f;
    match at
    case LeaveDurable => (AtLeave(l, if sh.d.state.DurableActive? then LeaveTarget else LeaveToken), sh)
    case LeaveTarget => (AtLeave(l, LeaveRetire).(v := l.v.(target := sh.d.target)), sh)
    case LeaveRetire =>
      if f.gen == l.v.target && !f.active.NoRoute? then
        (GoRetire(l, f.active, l.v.target, true, RetireForLeave), sh)
      else (AtLeave(l, LeaveConsume), sh)
    case LeaveConsume =>
      (AtLeave(l, LeaveToken),
       if (f.gen != l.v.target || f.active.NoRoute?) && sh.d.state.DurableActive?
       then sh.(d := sh.d.(state := DurableNone)) else sh)
    case LeaveToken =>
      (AtLeave(l, if sh.k.token.Token? then LeaveExact else LeaveFree).(v := l.v.(tok := sh.k.token)), sh)
    case LeaveExact => (AtLeave(l, if StillExactUsb(f, sh.k.target) then LeaveFree else LeaveClear), sh)
    case LeaveClear =>
      (AtLeave(l, LeaveFree),
       if sh.k.token == l.v.tok then sh.(k := sh.k.(token := NoToken)) else sh)
    case LeaveFree => (l.(pc := LeaveReturn(l.v.ret)), sh.(r := sh.r.(owner := None)))
  }

  function AtInvalidate(l: Local, at: InvAt): Local { l.(pc := Invalidating(at)) }

  function StepInvalidate(t: nat, at: InvAt, l: Local, sh: Shared): (Local, Shared) {
    var d := sh.d;
    match at
    case InvTarget => (AtInvalidate(l, DurReserve).(a := l.a.(gen := sh.r.f.gen)), sh)
    case InvCompare =>
      if !l.s.snap.coherent || l.s.snap.f != l.a.exp.f then (Finish(l, false), sh)
      else (AtInvalidate(l, DurReserve).(a := l.a.(gen := l.a.exp.f.gen)), sh)
    case DurReserve =>
      if d.state.DurableNone? then
        (AtInvalidate(l, DurTarget),
         sh.(d := d.(state := DurablePublishing, filler := Some(t), stored := false)))
      else if d.state.DurableActive? then (AtInvalidate(l, DurCompare), sh)
      else (Finish(l, false), sh)
    case DurCompare =>
      if d.target == l.a.gen then
        (AtInvalidate(l, InvEnter), sh.(d := d.(accepted := d.accepted + {l.a.gen})))
      else (Finish(l, false), sh)
    case DurTarget => (AtInvalidate(l, DurActivate), sh.(d := d.(target := l.a.gen, stored := true)))
    case DurActivate =>
      (AtInvalidate(l, InvEnter),
       sh.(d := d.(state := DurableActive, filler := None, accepted := d.accepted + {l.a.gen})))
    case InvEnter =>
      if sh.r.owner.Some? then (Finish(l, false), sh)
      else
        (if l.a.exact then GoRetire(l, l.a.exp.f.active, l.a.exp.f.gen, true, RetireForInvalidate)
         else GoRetire(l, Usb, 0, false, RetireForInvalidate),
         sh.(r := EnterWriter(t, sh.r)))
  }

  function AtClaim(l: Local, at: ClaimAt): Local { l.(pc := Claiming(at)) }

  function StepClaim(t: nat, at: ClaimAt, l: Local, sh: Shared): (Local, Shared) {
    var k := sh.k;
    var exp := l.a.exp;
    match at
    case ClaimCompare =>
      if l.s.snap.coherent && l.s.snap.f != exp.f then
        if l.caller.tok.NoToken? then (Finish(l, false), sh)
        else (GoCancel(l, exp.f.gen, l.caller.tok, CancelForStale), sh)
      else (AtClaim(l, if l.caller.tok.NoToken? then TokReserve else TokGeneration), sh)
    case ClaimStale => (Finish(l.(caller := l.caller.(tok := NoToken)), false), sh)
    case TokGeneration =>
      if l.caller.tok.Token? && k.target == exp.f.gen then (AtClaim(l, TokCompare), sh)
      else (Finish(l, false), sh)
    case TokCompare =>
      if k.token == l.caller.tok then (AtClaim(l, ClaimEnter), sh) else (Finish(l, false), sh)
    case TokReserve =>
      if k.token.NoToken? then
        (AtClaim(l, TokAllocate), sh.(k := k.(token := Publishing, filler := Some(t))))
      else (Finish(l, false), sh)
    case TokAllocate =>
      (AtClaim(l, TokTarget).(x := l.x.(minted := k.next)),
       sh.(k := k.(next := k.next + 1, owners := k.owners + [t])))
    case TokTarget => (AtClaim(l, TokPublish), sh.(k := k.(target := exp.f.gen)))
    case TokPublish =>
      (AtClaim(l, ClaimEnter).(caller := l.caller.(tok := Token(l.x.minted))),
       sh.(k := k.(token := Token(l.x.minted), filler := None, used := k.used + {l.x.minted})))
    case ClaimEnter =>
      if sh.r.owner.Some? then (Finish(l.(out := l.out.(res := ClaimPending)), false), sh)
      else (l.(pc := ClaimExact), sh.(r := EnterWriter(t, sh.r)))
  }

  // claim_invalidation_if_matches with the writer held
  function StepClaimHeld(t: nat, l: Local, sh: Shared): (Local, Shared) {
    var exp := l.a.exp;
    match l.pc
    case ClaimExact =>
      if sh.r.f == exp.f then
        (Finish(l.(out := l.out.(res := ClaimedExact),
                   caller := l.caller.(claim := Some(Held(exp, l.caller.tok)))), true),
         sh.(c := ClaimPart(sh.c.count + 1,
           Some(ClaimRecord(t, sh.c.count + 1, exp.f, l.caller.tok, |sh.r.published|, false, false)))))
      else (GoCancel(l, exp.f.gen, l.caller.tok, CancelForInexact), sh)
    case ClaimInexact => (Leave(l.(caller := l.caller.(tok := NoToken)), false, LeaveDone), sh)
    case _ => (l, sh)
  }

  predicate OwnClaim(t: nat, c: ClaimPart) { c.live.Some? && c.live.value.holder == t }

  function Cancelled(l: Local, done: bool): Local {
    l.(x := l.x.(done := done), pc := CancelReturnPoint(l.x.ret))
  }

  /** Aux: the holder of a live claim withdraws that claim's own token. */
  predicate WithdrawsOwn(t: nat, l: Local, c: ClaimPart) {
    OwnClaim(t, c) && c.live.value.tok == l.x.tok && l.x.ret.CancelForCaller?
  }

  function StepCancel(t: nat, at: CancelAt, l: Local, sh: Shared): (Local, Shared) {
    match at
    case CancelGeneration =>
      (if l.x.tok.Token? && sh.k.target == l.x.gen then l.(pc := Cancelling(CancelToken))
       else Cancelled(l, false), sh)
    case CancelToken =>
      (if sh.k.token == l.x.tok then l.(pc := Cancelling(CancelSwap)) else Cancelled(l, false), sh)
    case CancelSwap =>
      if sh.k.token == l.x.tok then
        (Cancelled(l, true),
         sh.(k := sh.k.(token := NoToken),
             c := if WithdrawsOwn(t, l, sh.c)
                  then sh.c.(live := Some(sh.c.live.value.(cancelled := true))) else sh.c))
      else (Cancelled(l, false), sh)
  }

  // what retire() and release() do around commit_none_locked and the cancellation
  function StepHeldClaim(t: nat, l: Local, c: ClaimPart): (Local, ClaimPart) {
    var claim := l.caller.claim;
    match l.pc
    case ClaimRetired =>
      if l.n.changed && claim.Some? then
        (GoCancel(l, claim.value.exp.f.gen, claim.value.tok, CancelForRetire),
         if OwnClaim(t, c) then c.(live := Some(c.live.value.(retired := true))) else c)
      else (Finish(l, false), c)
    case ClaimRetireCancelled =>
      (Finish(if claim.Some? then l.(caller := l.caller.(claim := Some(claim.value.(tok := NoToken))))
              else l, true), c)
    case ClaimReleased => (Leave(l.(caller := l.caller.(claim := None)), false, LeaveDone), c)
    case _ => (l, c)
  }

  function StepUsb(at: UsbAt, l: Local, u: UsbPart): (Local, UsbPart) {
    match at
    case CutRead => (Finish(l.(caller := l.caller.(cut := u.state, cutVetoes := u.vetoes)), true), u)
    case VetoSwap =>
      (Finish(l, true),
       u.(state := UsbPub(u.state.serial + 1, u.state.active, u.state.veto || u.state.active),
          vetoes := u.vetoes + 1))
  }

  /** One atomic step of thread t.  A finished call first goes back to Idle. */
  function Step(t: nat, l: Local, sh: Shared, c: Call): (Local, Shared) {
    match l.pc
    case Idle => if CallAllowed(sh, l, c) then StepIdle(l, sh, c) else (l, sh)
    case Done | DoneSnapshot | DoneMatches | DoneCommit => (l.(pc := Idle), sh)
    case Snapping(at) => (StepSnapshot(at, l, sh), sh)
    case Matching(at) => (StepMatches(at, l, sh), sh)
    case Pending(at) => (StepPending(at, l, sh), sh)
    case Entering(at) => var (l', r) := StepEntering(t, at, l, sh.r); (l', sh.(r := r))
    case Committing(at) => StepCommit(at, l, sh)
    case Staging(at) => var (l', r) := StepStage(at, l, sh.r); (l', sh.(r := r))
    case Completing(at) => var (l', r) := StepRelease(at, l, sh.r); (l', sh.(r := r))
    case Verdict(at) => (StepVerdict(at, l, sh.r), sh)
    case Retiring(at) => var (l', r) := StepRetire(at, l, sh.r); (l', sh.(r := r))
    case Leaving(at) => StepLeave(at, l, sh)
    case Invalidating(at) => StepInvalidate(t, at, l, sh)
    case InvLeave => (Leave(l, l.n.changed, LeaveDone), sh)
    case Claiming(at) => StepClaim(t, at, l, sh)
    case ClaimExact | ClaimInexact => StepClaimHeld(t, l, sh)
    case Cancelling(at) => StepCancel(t, at, l, sh)
    case CancelReturn => (Finish(l, l.x.done), sh)
    case ClaimRetired | ClaimRetireCancelled | ClaimReleased =>
      var (l', c') := StepHeldClaim(t, l, sh.c); (l', sh.(c := c'))
    case UsbCall(at) => var (l', u) := StepUsb(at, l, sh.u); (l', sh.(u := u))
  }

  // ---------------------------------------------------------------- whole runs

  datatype World = World(sh: Shared, ts: seq<Local>)

  function InitWorld(n: nat): World { World(InitShared, seq(n, i => InitLocal)) }

  function Next(w: World, t: nat, c: Call): World
    requires t < |w.ts|
  {
    var (l, sh) := Step(t, w.ts[t], w.sh, c);
    World(sh, w.ts[t := l])
  }

  /** The thread that moved, and the operation it started if it was idle. */
  datatype Event = Event(t: nat, c: Call)

  /** A run of n threads: the worlds one after the other, and what happened between them. */
  predicate IsRun(n: nat, run: seq<World>, events: seq<Event>) {
    && |run| == |events| + 1
    && run[0] == InitWorld(n)
    && forall i :: 0 <= i < |events| ==>
      events[i].t < |run[i].ts| && run[i + 1] == Next(run[i], events[i].t, events[i].c)
  }
}
