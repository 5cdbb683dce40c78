/**
 The inductive invariant of the route protocol: what always holds of the shared fields
 (`Global`), what a thread may rely on at each program point (`Thread`), and what one thread's
 step never does to another (`Rely`).
 */
module HidRouteInvariant {
  import opened HidRoute

  // ---------------------------------------------------------------- notions

  ghost function Last(r: RoutePart): Fields
    requires |r.published| > 0
  {
    r.published[|r.published| - 1]
  }

  ghost predicate Good(f: Fields) {
    && (f.trans.Stable? ==> f.desired == f.active)
    && (f.trans.Releasing? ==> f.desired.NoRoute? && !f.active.NoRoute?)
  }

  /** Consecutive publications. */
  ghost predicate Edge(a: Fields, b: Fields) {
    || (a == NoneAt(a.gen) && b == Fields(b.active, b.active, a.gen + 1, Stable))   // commit, or its undoing
    || (!a.active.NoRoute? && a == Fields(a.active, a.active, a.gen, Stable)
        && b == Fields(NoRoute, a.active, a.gen, Releasing))                        // stage A of a release
    || (!a.active.NoRoute? && b == NoneAt(a.gen + 1))                               // release or retirement
  }

  /** No thread can be told any more that a route of generation g is current. */
  ghost predicate Dead(r: RoutePart, g: nat) {
    r.f.gen > g || (r.f.gen == g && r.f.active.NoRoute? && r.mid.None?)
  }

  /** The same for USB only. */
  ghost predicate NoUsb(r: RoutePart, g: nat) {
    r.f.gen > g || (r.f.gen == g && !r.f.active.Usb? && r.mid != Some(Usb))
  }

  /** The published stable USB route of generation g has been left for good. */
  ghost predicate Gone(r: RoutePart, g: nat) {
    r.f.gen > g || (r.f.gen == g && !r.f.desired.Usb? && r.mid.None?)
  }

  ghost predicate StableUsb(e: Fields) { StillExactUsb(e, e.gen) }

  ghost predicate Even(r: RoutePart) { r.seqno % 2 == 0 }

  /** Token `tok` was published by thread t. */
  ghost predicate OwnsToken(t: nat, tok: Token, k: CondPart) {
    tok.Token? ==> tok.id in k.used && tok.id < |k.owners| && k.owners[tok.id] == t
  }

  // ---------------------------------------------------------------- shared state

  ghost predicate History(s: seq<Fields>) {
    && |s| > 0 && s[0] == ColdBoot
    && (forall i :: 0 <= i < |s| - 1 ==> Edge(s[i], s[i + 1]))
    && (forall i :: 0 <= i < |s| ==> Good(s[i]) && s[i].gen <= s[|s| - 1].gen)
  }

  ghost predicate GRoute(r: RoutePart) {
    && History(r.published)
    && |r.published| == r.seqno / 2 + 1
    && Last(r).gen <= r.f.gen
    && (Even(r) ==> r.f == Last(r))
    && (!Even(r) ==> r.owner.Some?)
    && (r.mid.Some? ==> !Even(r) && r.f.gen == Last(r).gen + 1 && r.f.active.NoRoute?)
  }

  ghost predicate SlotFull(d: DurPart) { d.state.DurableActive? || (d.state.DurablePublishing? && d.stored) }

  ghost predicate GDur(r: RoutePart, d: DurPart) {
    && (d.state.DurablePublishing? <==> d.filler.Some?)
    && (!SlotFull(d) ==> Dead(r, d.target))
    && d.target <= r.f.gen
    && (forall g :: g in d.accepted ==> Dead(r, g) || (d.target == g && SlotFull(d)))
  }

  ghost predicate GUsb(r: RoutePart, u: UsbPart) {
    && (u.state.veto ==> u.state.active)
    && (u.state.active ==> r.owner.Some?)
    && (r.f.active.Usb? && !u.state.active ==> r.f.gen in u.finished)
    && (r.mid == Some(Usb) ==> u.state.active)
  }

  ghost predicate GCond(k: CondPart) {
    && k.next == |k.owners|
    && (k.token.Publishing? <==> k.filler.Some?)
    && (k.token.Token? ==> k.token.id in k.used)
    && (forall i :: i in k.used ==> i < |k.owners|)
  }

  ghost predicate GClaim(r: RoutePart, k: CondPart, c: ClaimPart) {
    c.live.Some? ==>
      var q := c.live.value;
      && r.owner == Some(q.holder)
      && q.serial == c.count
      && 0 < q.since <= |r.published| <= q.since + 1
      && r.published[q.since - 1] == q.exp
      && !q.exp.active.NoRoute?
      && q.tok.Token? && OwnsToken(q.holder, q.tok, k)
      && (q.retired ==> r.f == NoneAt(q.exp.gen + 1) && Even(r) && |r.published| == q.since + 1)
      && (!q.retired && !q.cancelled && StableUsb(q.exp) ==> k.token == q.tok)
  }

  ghost predicate Global(sh: Shared) {
    GRoute(sh.r) && GDur(sh.r, sh.d) && GUsb(sh.r, sh.u) && GCond(sh.k) && GClaim(sh.r, sh.k, sh.c)
  }

  // ---------------------------------------------------------------- one thread

  ghost predicate CancelsIn(l: Local, ret: CancelRet) { l.pc.Cancelling? && l.x.ret == ret }

  ghost predicate RetiresIn(l: Local, ret: RetireRet) { l.pc.Retiring? && l.n.ret == ret }

  /** The thread is inside a section that began with try_enter_writer (claims aside). */
  ghost predicate InWriter(l: Local) {
    match l.pc
    case Committing(_) => true
    case Staging(_) => true
    case Completing(_) => true
    case Leaving(_) => true
    case InvLeave => true
    case ClaimExact => true
    case ClaimInexact => true
    case Retiring(_) => !l.n.ret.RetireForClaim?
    case Pending(_) => !l.p.ret.PendAfterRelease?
    case Snapping(_) => l.s.ret.SnapForStageA?
    case Cancelling(_) => l.x.ret.CancelForInexact?
    case _ => false
  }

  ghost predicate HoldsWriter(l: Local) { InWriter(l) || l.caller.claim.Some? }

  /** The operation in progress is about route l.a.route, which is not none. */
  ghost predicate NamesRoute(l: Local) {
    match l.pc
    case Entering(_) => true
    case Committing(_) => true
    case Staging(at) => !at.StageKeep?
    case Completing(_) => true
    case Pending(_) => !l.p.ret.PendAfterRelease?
    case Retiring(_) => l.n.ret.RetireForVeto?
    case _ => false
  }

  /** The steps of a commit that only the USB route takes. */
  ghost predicate NamesUsb(l: Local) {
    match l.pc
    case Committing(at) => at.CommitRegister? || at.CommitFinish? || at.CommitVetoed? || at.CommitClearUsb?
    case Retiring(_) => l.n.ret.RetireForVeto?
    case _ => false
  }

  ghost predicate ReleasesClaim(l: Local) { l.pc.ClaimReleased? || CancelsIn(l, CancelForRelease) }

  ghost predicate RetiresClaim(l: Local) {
    match l.pc
    case Retiring(_) => l.n.ret.RetireForClaim?
    case ClaimRetired => true
    case ClaimRetireCancelled => true
    case Cancelling(_) => l.x.ret.CancelForRetire?
    case _ => false
  }

  ghost predicate LArgs(l: Local) {
    && (NamesRoute(l) ==> !l.a.route.NoRoute?)
    && (NamesUsb(l) ==> l.a.route.Usb?)
    && (RetiresIn(l, RetireForVeto) ==> l.n.exact && l.n.route.Usb? && l.n.gen == l.w.gen)
    && (l.pc.Leaving? || RetiresIn(l, RetireForLeave) ==> (l.v.ret.LeaveFailedCommit? ==> !l.out.ok))
    && (ReleasesClaim(l) || RetiresClaim(l) ==> l.caller.claim.Some?)
  }

  ghost predicate InPublication(pc: Pc) {
    match pc
    case Committing(at) =>
      !at.CommitCheck? && !at.CommitRegister? && !at.CommitOpen?
      && !at.CommitClearUsb? && !at.CommitFinish? && !at.CommitVetoed?
    case Staging(at) => at.StageDesired? || at.StageTransition? || at.StageClose?
    case Completing(at) => !at.ReleaseCheck? && !at.ReleaseOpen?
    case Retiring(at) => !at.RetireCheck? && !at.RetireOpen?
    case _ => false
  }

  ghost predicate MidCommit(pc: Pc) {
    match pc
    case Committing(at) =>
      at.CommitSeeToken? || at.CommitSeeDurable? || at.CommitSeeUsb? || at.UndoDesired?
      || at.CommitDesired? || at.CommitActive?
    case _ => false
  }

  /**
   What the holder of the writer knows of the fields f: `last` is the last publication, and f
   is as much of the next one as is already stored.
   */
  ghost predicate CommitProgress(at: CommitAt, route: Route, gen: nat, last: Fields, f: Fields) {
    match at
    case CommitRegister | CommitOpen | CommitBump => last == NoneAt(last.gen) && f == last
    case CommitSeeToken | CommitSeeDurable | CommitSeeUsb
         | UndoDesired | UndoActive | UndoTransition | UndoClose | CommitDesired =>
      last == NoneAt(last.gen) && gen == last.gen + 1 && f == NoneAt(gen)
    case CommitActive =>
      last == NoneAt(last.gen) && gen == last.gen + 1 && f == Fields(route, NoRoute, gen, Stable)
    case CommitTransition | CommitClose =>
      last == NoneAt(last.gen) && gen == last.gen + 1 && f == Fields(route, route, gen, Stable)
    case CommitFinish => f == last == Fields(Usb, Usb, gen, Stable)
    case CommitVetoed | CommitClearUsb => f == last && last.active.NoRoute?
    case CommitCheck => f == last
  }

  ghost predicate StageProgress(at: StageAt, route: Route, last: Fields, f: Fields) {
    match at
    case StageOpen | StageDesired => last == Fields(route, route, last.gen, Stable) && f == last
    case StageTransition =>
      last == Fields(route, route, last.gen, Stable) && f == Fields(NoRoute, route, last.gen, Stable)
    case StageClose =>
      last == Fields(route, route, last.gen, Stable) && f == Fields(NoRoute, route, last.gen, Releasing)
    case StageCheck | StageKeep => f == last
  }

  ghost predicate ReleaseProgress(at: ReleaseAt, route: Route, last: Fields, f: Fields) {
    || (at.ReleaseCheck? && f == last)
    || (last == Fields(NoRoute, route, last.gen, Releasing)
        && match at
           case ReleaseCheck => f == last
           case ReleaseOpen | ReleaseActive => f == last
           case ReleaseBump => f == Fields(NoRoute, NoRoute, last.gen, Releasing)
           case ReleaseTransition => f == Fields(NoRoute, NoRoute, last.gen + 1, Releasing)
           case ReleaseClose => f == NoneAt(last.gen + 1))
  }

  ghost predicate RetireProgress(at: RetireAt, last: Fields, f: Fields) {
    || (at.RetireCheck? && f == last)
    || (!last.active.NoRoute?
        && match at
           case RetireCheck => f == last
           case RetireOpen | RetireDesired => f == last
           case RetireActive => f == last.(desired := NoRoute)
           case RetireBump => f == last.(desired := NoRoute, active := NoRoute)
           case RetireTransition => f == last.(desired := NoRoute, active := NoRoute, gen := last.gen + 1)
           case RetireClose => f == NoneAt(last.gen + 1))
  }

  ghost predicate Progress(l: Local, last: Fields, f: Fields) {
    match l.pc
    case Committing(at) => CommitProgress(at, l.a.route, l.w.gen, last, f)
    case Staging(at) => StageProgress(at, l.a.route, last, f)
    case Completing(at) => ReleaseProgress(at, l.a.route, last, f)
    case Retiring(at) =>
      RetireProgress(at, last, f)
      && (at.RetireCheck? && l.n.ret.RetireForVeto? ==> f == Fields(Usb, Usb, l.w.gen, Stable))
    case _ => f == last
  }

  /** The thread's USB publication is registered and not yet finished or cleared. */
  ghost predicate InUsbPublication(l: Local) {
    match l.pc
    case Committing(at) => l.a.route.Usb? && !at.CommitCheck? && !at.CommitRegister?
    case Retiring(_) => l.n.ret.RetireForVeto?
    case _ => false
  }

  ghost predicate LWriter(t: nat, l: Local, r: RoutePart)
    requires |r.published| > 0
  {
    && (HoldsWriter(l) <==> r.owner == Some(t))
    && (InWriter(l) ==> l.caller.claim.None?)
    && (InPublication(l.pc) ==> r.owner == Some(t))
    && (r.owner == Some(t) ==>
          && (InPublication(l.pc) <==> !Even(r))
          && Progress(l, Last(r), r.f)
          && r.mid == if MidCommit(l.pc) then Some(l.a.route) else None)
  }

  /** A USB commit that has finished its publication, or is about to return true. */
  ghost predicate AfterFinish(l: Local) {
    l.a.route.Usb? &&
    match l.pc
    case Verdict(at) => at.CommitObserve? || at.CommitVerdict?
    case Snapping(_) => l.s.ret.SnapForCommit?
    case Leaving(_) => l.v.ret.LeaveToCommit?
    case Retiring(_) => l.n.ret.RetireForLeave? && l.v.ret.LeaveToCommit?
    case DoneCommit => l.out.ok
    case _ => false
  }

  ghost predicate LUsb(t: nat, l: Local, r: RoutePart, u: UsbPart) {
    && (r.owner == Some(t) ==> (u.state.active <==> InUsbPublication(l)))
    && l.caller.cut.serial <= u.state.serial
    && (l.caller.cut.serial == u.state.serial ==>
          u.state == l.caller.cut && u.vetoes == l.caller.cutVetoes)
    && (InUsbPublication(l) ==>
          && l.a.route.Usb?
          && l.w.ident.active && !l.w.ident.veto
          && l.w.ident.serial <= u.state.serial
          && (l.w.ident.serial == u.state.serial ==>
                u.state == l.w.ident && u.vetoes == l.caller.cutVetoes))
    && (AfterFinish(l) ==> l.w.finVetoes == Some(l.caller.cutVetoes))
  }

  /** A coherent snapshot is one of the publications. */
  ghost predicate SnapOk(s: SnapVars, r: RoutePart) {
    s.snap.coherent ==> s.idx < |r.published| && r.published[s.idx] == s.snap.f
  }

  /** Just after a snapshot: the instant it shows lies inside the call. */
  ghost predicate SnapFresh(s: SnapVars, r: RoutePart) {
    s.snap.coherent ==> s.start <= 2 * s.idx <= r.seqno
  }

  ghost predicate SnapJustReturned(pc: Pc) {
    match pc
    case DoneSnapshot => true
    case Verdict(at) => at.CommitVerdict? || at.StageVerdict?
    case Staging(at) => at.StageKeep?
    case Invalidating(at) => at.InvCompare?
    case Claiming(at) => at.ClaimCompare?
    case _ => false
  }

  ghost predicate SnapProgress(at: SnapAt, seen: Fields, f: Fields) {
    match at
    case SnapBefore | SnapGiveUp | SnapDesired => true
    case SnapActive => seen.desired == f.desired
    case SnapGeneration => seen.desired == f.desired && seen.active == f.active
    case SnapTransition => seen.desired == f.desired && seen.active == f.active && seen.gen == f.gen
    case SnapUsb | SnapToken | SnapDurable | SnapAfter => seen == f
  }

  ghost predicate LSnap(pc: Pc, s: SnapVars, r: RoutePart) {
    && SnapOk(s, r)
    && (SnapJustReturned(pc) ==> SnapFresh(s, r))
    && (pc.Snapping? ==>
          && s.start <= r.seqno
          && (!pc.sn.SnapBefore? && !pc.sn.SnapGiveUp? ==>
                && s.before % 2 == 0 && s.start <= s.before <= r.seqno
                && (s.before == r.seqno ==> SnapProgress(pc.sn, s.seen, r.f))))
  }

  /** The claim that was live when matches() was called is still live and gated. */
  ghost predicate StillGated(m: MatchAux, c: ClaimPart) {
    c.live.Some? && c.live.value.serial == m.claim && !c.live.value.cancelled
    && StableUsb(c.live.value.exp)
  }

  ghost predicate MatchProgress(at: MatchAt, a: Args, m: MatchAux, sh: Shared) {
    && m.accepted <= sh.d.accepted && m.gen <= sh.r.f.gen && m.claim <= sh.c.count
    && match at
       case MatchUsb => true
       case MatchToken => a.gen <= m.gen ==> a.gen in sh.u.finished || NoUsb(sh.r, a.gen)
       case MatchDurable =>
         && (a.gen <= m.gen ==> a.gen in sh.u.finished || NoUsb(sh.r, a.gen))
         && (StillGated(m, sh.c) ==> sh.c.live.value.retired)
       case MatchActive =>
         && (a.gen <= m.gen ==> a.gen in sh.u.finished || NoUsb(sh.r, a.gen))
         && (StillGated(m, sh.c) ==> sh.c.live.value.retired)
         && (a.gen in m.accepted ==> Dead(sh.r, a.gen))
       case MatchGeneration =>
         !a.route.NoRoute? ==>
           && (a.gen <= m.gen && a.route.Usb? ==> a.gen in sh.u.finished || sh.r.f.gen > a.gen)
           && !StillGated(m, sh.c)
           && (a.gen in m.accepted ==> sh.r.f.gen > a.gen)
  }

  /** What a matches() call that returned true is worth. */
  ghost predicate MatchResult(a: Args, out: Out, m: MatchAux, sh: Shared) {
    m.claim <= sh.c.count
    && (out.ok && !a.route.NoRoute? ==>
          && a.gen !in m.accepted
          && (a.gen <= m.gen && a.route.Usb? ==> a.gen in sh.u.finished)
          && !StillGated(m, sh.c))
  }

  ghost predicate LMatch(pc: Pc, a: Args, out: Out, m: MatchAux, sh: Shared) {
    match pc
    case Matching(at) => MatchProgress(at, a, m, sh)
    case DoneMatches => MatchResult(a, out, m, sh)
    case _ => true
  }

  ghost predicate FillsDurable(pc: Pc) { pc.Invalidating? && (pc.iv.DurTarget? || pc.iv.DurActivate?) }

  ghost predicate LDur(t: nat, l: Local, r: RoutePart, d: DurPart) {
    && (FillsDurable(l.pc) <==> d.filler == Some(t))
    && match l.pc
       case Invalidating(at) =>
         && (at.DurTarget? ==> !d.stored)
         && (at.DurActivate? ==> d.stored && d.target == l.a.gen)
         && (at.DurReserve? || at.DurCompare? || at.DurTarget? || at.DurActivate? ==> l.a.gen <= r.f.gen)
       case Leaving(at) =>
         && (at.LeaveTarget? ==> d.state.DurableActive?)
         && (at.LeaveRetire? ==> d.state.DurableActive? && d.target == l.v.target)
         && (at.LeaveConsume? ==>
               d.state.DurableActive? && d.target == l.v.target
               && (r.f.gen != l.v.target || r.f.active.NoRoute?))
       case Retiring(at) =>
         l.n.ret.RetireForLeave? ==>
           && d.state.DurableActive? && d.target == l.v.target
           && l.n.exact && l.n.gen == l.v.target
           && (at.RetireCheck? ==>
                 l.n.route == r.f.active && r.f.gen == l.v.target && !r.f.active.NoRoute?)
       case _ => true
  }

  /** In claim_invalidation_if_matches, with the publication `expected` was read from. */
  ghost predicate InClaim(l: Local) {
    match l.pc
    case Claiming(_) => true
    case ClaimExact => true
    case ClaimInexact => true
    case Snapping(_) => l.s.ret.SnapForClaim?
    case Cancelling(_) => l.x.ret.CancelForStale? || l.x.ret.CancelForInexact?
    case _ => false
  }

  ghost predicate FillsToken(pc: Pc) {
    pc.Claiming? && (pc.cl.TokAllocate? || pc.cl.TokTarget? || pc.cl.TokPublish?)
  }

  /** The thread's token still shuts the gate, or the route it expects is gone. */
  ghost predicate GateOrGone(l: Local, r: RoutePart, k: CondPart) {
    l.caller.tok.Token?
    && (k.token == l.caller.tok ==> k.target == l.a.exp.f.gen)
    && (StableUsb(l.a.exp.f) ==>
          (k.token == l.caller.tok && k.target == l.a.exp.f.gen) || Gone(r, l.a.exp.f.gen))
  }

  ghost predicate LToken(t: nat, l: Local, r: RoutePart, k: CondPart) {
    && !l.caller.tok.Publishing? && OwnsToken(t, l.caller.tok, k)
    && (l.caller.claim.Some? ==>
          var h := l.caller.claim.value;
          && !h.tok.Publishing? && OwnsToken(t, h.tok, k)
          && (h.tok.Token? && k.token == h.tok ==> k.target == h.exp.f.gen)
          && (CancelsIn(l, CancelForRetire) || CancelsIn(l, CancelForRelease) ==>
                l.x.tok == h.tok && l.x.gen == h.exp.f.gen)
          && (l.pc.ClaimReleased? || l.pc.ClaimRetireCancelled? ==> h.tok.Token? ==> k.token != h.tok))
    && (FillsToken(l.pc) <==> k.filler == Some(t))
    && (InClaim(l) ==>
          && l.caller.claim.None? && l.a.exp.coherent && !l.a.exp.f.active.NoRoute?
          && l.a.expIdx < |r.published| && r.published[l.a.expIdx] == l.a.exp.f)
    && match l.pc
       case Cancelling(at) =>
         OwnsToken(t, l.x.tok, k) && !l.x.tok.Publishing? && (!at.CancelGeneration? ==> l.x.tok.Token?)
       case Claiming(at) =>
         && (at.TokTarget? || at.TokPublish? ==>
               l.x.minted < |k.owners| && k.owners[l.x.minted] == t && l.x.minted !in k.used)
         && (at.TokPublish? ==> k.target == l.a.exp.f.gen)
         && (at.TokCompare? ==>
               l.caller.tok.Token? && (k.token == l.caller.tok ==> k.target == l.a.exp.f.gen))
         && (at.ClaimEnter? ==> GateOrGone(l, r, k))
       case ClaimExact => GateOrGone(l, r, k)
       case Leaving(at) =>
         && (at.LeaveExact? || at.LeaveClear? ==> l.v.tok.Token? && l.v.tok.id in k.used)
         && (at.LeaveClear? && k.token == l.v.tok ==> !StillExactUsb(r.f, k.target))
       case _ => true
  }

  ghost predicate ClaimProgress(l: Local, q: ClaimRecord, r: RoutePart) {
    match l.pc
    case Retiring(at) =>
      l.n.ret.RetireForClaim? ==>
        && l.n.exact && l.n.route == q.exp.active && l.n.gen == q.exp.gen
        && (!at.RetireCheck? ==> !q.retired)
        && (!q.retired ==> |r.published| == q.since)
    case ClaimRetired =>
      && (l.n.changed ==> !q.retired && |r.published| == q.since + 1 && r.f == NoneAt(q.exp.gen + 1))
      && (!l.n.changed ==> q.retired)
    case ClaimRetireCancelled => q.retired
    case Cancelling(_) =>
      && (l.x.ret.CancelForRetire? ==> q.retired)
      && (!q.retired ==> |r.published| == q.since)
    case _ => !q.retired ==> |r.published| == q.since
  }

  ghost predicate LClaim(t: nat, l: Local, r: RoutePart, c: ClaimPart) {
    && (OwnClaim(t, c) <==> l.caller.claim.Some? && !ReleasesClaim(l))
    && (OwnClaim(t, c) && l.caller.claim.Some? ==>
          var q, h := c.live.value, l.caller.claim.value;
          q.exp == h.exp.f && (!q.retired ==> h.tok == q.tok) && ClaimProgress(l, q, r))
  }

  ghost predicate LControl(t: nat, l: Local, sh: Shared)
    requires |sh.r.published| > 0
  {
    LArgs(l) && LWriter(t, l, sh.r) && LUsb(t, l, sh.r, sh.u)
  }

  ghost predicate LReads(t: nat, l: Local, sh: Shared) {
    LSnap(l.pc, l.s, sh.r) && LMatch(l.pc, l.a, l.out, l.m, sh) && LDur(t, l, sh.r, sh.d)
  }

  ghost predicate LClaims(t: nat, l: Local, sh: Shared) {
    LToken(t, l, sh.r, sh.k) && LClaim(t, l, sh.r, sh.c)
  }

  ghost predicate Thread(t: nat, l: Local, sh: Shared)
    requires |sh.r.published| > 0
  {
    LControl(t, l, sh) && LReads(t, l, sh) && LClaims(t, l, sh)
  }

  // ---------------------------------------------------------------- interference

  /** The writer's fields change only under their owner, and only forwards. */
  ghost predicate RRoute(t: nat, r: RoutePart, r': RoutePart) {
    && (r.owner == Some(t) <==> r'.owner == Some(t))
    && (r.owner == Some(t) ==> r' == r)
    && r.published <= r'.published && r.seqno <= r'.seqno && r.f.gen <= r'.f.gen
    && (r.seqno == r'.seqno && Even(r) ==> r'.f == r.f)
    && (forall g :: Dead(r, g) ==> Dead(r', g))
    && (forall g :: NoUsb(r, g) ==> NoUsb(r', g))
    && (forall i :: 0 <= i < |r.published| && Gone(r, r.published[i].gen) ==> Gone(r', r.published[i].gen))
  }

  ghost predicate RUsb(t: nat, r: RoutePart, u: UsbPart, u': UsbPart) {
    && u.finished <= u'.finished && u.state.serial <= u'.state.serial
    && (u.state.serial == u'.state.serial ==> u'.state == u.state && u'.vetoes == u.vetoes)
    && (r.owner == Some(t) ==> u'.state.active == u.state.active)
  }

  ghost predicate RDur(t: nat, r: RoutePart, d: DurPart, d': DurPart) {
    && d.accepted <= d'.accepted
    && (d.filler == Some(t) <==> d'.filler == Some(t))
    && (d.filler == Some(t) ==> d'.target == d.target && d'.stored == d.stored)
    && (r.owner == Some(t) && d.state.DurableActive? ==> d'.state.DurableActive? && d'.target == d.target)
  }

  ghost predicate RCond(t: nat, r: RoutePart, k: CondPart, k': CondPart) {
    && k.used <= k'.used && k.owners <= k'.owners
    && (k.filler == Some(t) <==> k'.filler == Some(t))
    && (k.filler == Some(t) ==> k'.target == k.target)
    && (forall i :: i in k'.used && i !in k.used ==> i < |k'.owners| && k'.owners[i] != t)
    && (k'.token.Token? && k'.token.id in k.used ==> k'.token == k.token && k'.target == k.target)
    && (k.token.Token? && OwnsToken(t, k.token, k) ==>
          || (k'.token == k.token && k'.target == k.target)
          || (Even(r) && r.mid.None? && !StillExactUsb(r.f, k.target)))
  }

  ghost predicate RClaim(t: nat, c: ClaimPart, c': ClaimPart) {
    && c.count <= c'.count
    && (OwnClaim(t, c) || OwnClaim(t, c') ==> c' == c)
    && (c'.live.Some? && c'.live.value.serial <= c.count ==>
          && c.live.Some?
          && c'.live.value.serial == c.live.value.serial
          && c'.live.value.exp == c.live.value.exp
          && (c.live.value.retired ==> c'.live.value.retired)
          && (c.live.value.cancelled ==> c'.live.value.cancelled))
  }

  /** What a step of some other thread may do, seen from thread t. */
  ghost predicate Rely(t: nat, sh: Shared, sh': Shared) {
    RRoute(t, sh.r, sh'.r) && RUsb(t, sh.r, sh.u, sh'.u) && RDur(t, sh.r, sh.d, sh'.d)
    && RCond(t, sh.r, sh.k, sh'.k) && RClaim(t, sh.c, sh'.c)
  }
}
