/**
 Every atomic step of every operation keeps the invariant of HidRouteInvariant.  For each
 routine: `Control` is what the stepping thread knows of the writer and of its own arguments,
 `Reads` what it has observed, `Claims` its tokens and claims, `Shared` the shared invariant,
 and `Quiet` what the step leaves alone for any other thread u.
 */
module HidRouteSteps {
  import opened HidRoute
  import opened HidRouteInvariant

  ghost predicate Control(t: nat, l: Local, sh: Shared) {
    |sh.r.published| > 0 && LControl(t, l, sh)
  }

  ghost predicate WriterKnown(t: nat, l: Local, sh: Shared) {
    GRoute(sh.r) && LArgs(l) && LWriter(t, l, sh.r)
  }

  ghost predicate CommitBegins(at: CommitAt) {
    at.CommitCheck? || at.CommitRegister? || at.CommitOpen? || at.CommitBump?
    || at.CommitSeeToken? || at.CommitSeeDurable? || at.CommitSeeUsb?
  }

  ghost predicate CommitUndoes(at: CommitAt) {
    at.UndoDesired? || at.UndoActive? || at.UndoTransition? || at.UndoClose? || at.CommitClearUsb?
    || at.CommitVetoed?
  }

  ghost predicate RetireBegins(at: RetireAt) { at.RetireCheck? || at.RetireOpen? || at.RetireDesired? }

  ghost predicate SnapLoads(at: SnapAt) {
    at.SnapDesired? || at.SnapActive? || at.SnapGeneration? || at.SnapTransition?
  }

  ghost predicate Returning(pc: Pc) {
    pc.Done? || pc.DoneSnapshot? || pc.DoneMatches? || pc.DoneCommit? || pc.InvLeave? || pc.CancelReturn?
  }

  lemma Quiet(u: nat, sh: Shared)
    ensures Rely(u, sh, sh)
  {
  }

  // ---- SnapshotLoad

  lemma SnapshotLoadControl(t: nat, l: Local, sh: Shared)
    requires WriterKnown(t, l, sh) && GUsb(sh.r, sh.u) && LUsb(t, l, sh.r, sh.u)
    requires l.pc.Snapping? && SnapLoads(l.pc.sn)
    ensures var l', sh' := StepSnapshot(l.pc.sn, l, sh), sh; Control(t, l', sh')
  {
  }

  lemma SnapshotLoadReads(t: nat, l: Local, sh: Shared)
    requires WriterKnown(t, l, sh) && GUsb(sh.r, sh.u) && GDur(sh.r, sh.d) && GClaim(sh.r, sh.k, sh.c)
    requires LReads(t, l, sh)
    requires l.pc.Snapping? && SnapLoads(l.pc.sn)
    ensures var l', sh' := StepSnapshot(l.pc.sn, l, sh), sh; LReads(t, l', sh')
  {
  }

  lemma SnapshotLoadClaims(t: nat, l: Local, sh: Shared)
    requires WriterKnown(t, l, sh) && GCond(sh.k) && GClaim(sh.r, sh.k, sh.c) && LClaims(t, l, sh)
    requires l.pc.Snapping? && SnapLoads(l.pc.sn)
    ensures var l', sh' := StepSnapshot(l.pc.sn, l, sh), sh; LClaims(t, l', sh')
  {
  }

  // ---- SnapshotEnd

  lemma SnapshotEndControl(t: nat, l: Local, sh: Shared)
    requires WriterKnown(t, l, sh) && GUsb(sh.r, sh.u) && LUsb(t, l, sh.r, sh.u)
    requires l.pc.Snapping? && !SnapLoads(l.pc.sn)
    ensures var l', sh' := StepSnapshot(l.pc.sn, l, sh), sh; Control(t, l', sh')
  {
    hide History;
  }

  lemma SnapshotEndSeen(t: nat, l: Local, sh: Shared)
    requires WriterKnown(t, l, sh) && GUsb(sh.r, sh.u) && GDur(sh.r, sh.d) && GClaim(sh.r, sh.k, sh.c)
    requires LReads(t, l, sh)
    requires l.pc.Snapping? && !SnapLoads(l.pc.sn)
    ensures var l', sh' := StepSnapshot(l.pc.sn, l, sh), sh;
        LSnap(l'.pc, l'.s, sh'.r) && LMatch(l'.pc, l'.a, l'.out, l'.m, sh')
  {
    hide History;
  }

  lemma SnapshotEndDurable(t: nat, l: Local, sh: Shared)
    requires WriterKnown(t, l, sh) && GDur(sh.r, sh.d) && LSnap(l.pc, l.s, sh.r) && LDur(t, l, sh.r, sh.d)
    requires l.pc.Snapping? && !SnapLoads(l.pc.sn)
    ensures var l', sh' := StepSnapshot(l.pc.sn, l, sh), sh; LDur(t, l', sh'.r, sh'.d)
  {
  }

  lemma SnapshotEndClaims(t: nat, l: Local, sh: Shared)
    requires WriterKnown(t, l, sh) && GCond(sh.k) && GClaim(sh.r, sh.k, sh.c) && LClaims(t, l, sh)
    requires l.pc.Snapping? && !SnapLoads(l.pc.sn)
    ensures var l', sh' := StepSnapshot(l.pc.sn, l, sh), sh; LClaims(t, l', sh')
  {
    hide History;
  }

  // ---- Matches

  lemma MatchesControl(t: nat, l: Local, sh: Shared)
    requires WriterKnown(t, l, sh) && GUsb(sh.r, sh.u) && LUsb(t, l, sh.r, sh.u)
    requires l.pc.Matching?
    ensures var l', sh' := StepMatches(l.pc.ma, l, sh), sh; Control(t, l', sh')
  {
  }

  lemma MatchesReads(t: nat, l: Local, sh: Shared)
    requires WriterKnown(t, l, sh) && GUsb(sh.r, sh.u) && GDur(sh.r, sh.d) && GClaim(sh.r, sh.k, sh.c)
    requires LReads(t, l, sh)
    requires l.pc.Matching?
    ensures var l', sh' := StepMatches(l.pc.ma, l, sh), sh; LReads(t, l', sh')
  {
    hide History;
  }

  lemma MatchesClaims(t: nat, l: Local, sh: Shared)
    requires WriterKnown(t, l, sh) && GCond(sh.k) && GClaim(sh.r, sh.k, sh.c) && LClaims(t, l, sh)
    requires l.pc.Matching?
    ensures var l', sh' := StepMatches(l.pc.ma, l, sh), sh; LClaims(t, l', sh')
  {
  }

  // ---- Pending

  lemma PendingControl(t: nat, l: Local, sh: Shared)
    requires WriterKnown(t, l, sh) && GUsb(sh.r, sh.u) && LUsb(t, l, sh.r, sh.u)
    requires l.pc.Pending?
    ensures var l', sh' := StepPending(l.pc.pe, l, sh), sh; Control(t, l', sh')
  {
  }

  lemma PendingReads(t: nat, l: Local, sh: Shared)
    requires WriterKnown(t, l, sh) && GUsb(sh.r, sh.u) && GDur(sh.r, sh.d) && GClaim(sh.r, sh.k, sh.c)
    requires LReads(t, l, sh)
    requires l.pc.Pending?
    ensures var l', sh' := StepPending(l.pc.pe, l, sh), sh; LReads(t, l', sh')
  {
  }

  lemma PendingClaims(t: nat, l: Local, sh: Shared)
    requires WriterKnown(t, l, sh) && GCond(sh.k) && GClaim(sh.r, sh.k, sh.c) && LClaims(t, l, sh)
    requires l.pc.Pending?
    ensures var l', sh' := StepPending(l.pc.pe, l, sh), sh; LClaims(t, l', sh')
  {
    hide History;
  }

  // ---- Verdict

  lemma VerdictControl(t: nat, l: Local, sh: Shared)
    requires WriterKnown(t, l, sh) && GUsb(sh.r, sh.u) && LUsb(t, l, sh.r, sh.u)
    requires l.pc.Verdict?
    ensures var l', sh' := StepVerdict(l.pc.af, l, sh.r), sh; Control(t, l', sh')
  {
  }

  lemma VerdictRest(t: nat, l: Local, sh: Shared)
    requires Global(sh) && WriterKnown(t, l, sh) && LReads(t, l, sh) && LClaims(t, l, sh)
    requires l.pc.Verdict?
    ensures var l', sh' := StepVerdict(l.pc.af, l, sh.r), sh; LReads(t, l', sh') && LClaims(t, l', sh')
  {
  }

  // ---- Entering

  lemma EnteringControl(t: nat, l: Local, sh: Shared)
    requires WriterKnown(t, l, sh) && GUsb(sh.r, sh.u) && LUsb(t, l, sh.r, sh.u)
    requires l.pc.Entering?
    ensures var (l', r) := StepEntering(t, l.pc.en, l, sh.r); var sh' := sh.(r := r); Control(t, l', sh')
  {
  }

  lemma EnteringReads(t: nat, l: Local, sh: Shared)
    requires WriterKnown(t, l, sh) && GUsb(sh.r, sh.u) && GDur(sh.r, sh.d) && GClaim(sh.r, sh.k, sh.c)
    requires LReads(t, l, sh)
    requires l.pc.Entering?
    ensures var (l', r) := StepEntering(t, l.pc.en, l, sh.r); var sh' := sh.(r := r); LReads(t, l', sh')
  {
  }

  lemma EnteringClaims(t: nat, l: Local, sh: Shared)
    requires WriterKnown(t, l, sh) && GCond(sh.k) && GClaim(sh.r, sh.k, sh.c) && LClaims(t, l, sh)
    requires l.pc.Entering?
    ensures var (l', r) := StepEntering(t, l.pc.en, l, sh.r); var sh' := sh.(r := r); LClaims(t, l', sh')
  {
  }

  lemma EnteringShared(t: nat, l: Local, sh: Shared)
    requires Global(sh) && Thread(t, l, sh)
    requires l.pc.Entering?
    ensures var sh' := sh.(r := StepEntering(t, l.pc.en, l, sh.r).1); Global(sh')
  {
    hide History;
  }

  lemma EnteringQuiet(t: nat, u: nat, l: Local, sh: Shared)
    requires Global(sh) && Thread(t, l, sh) && u != t
    requires l.pc.Entering?
    ensures var sh' := sh.(r := StepEntering(t, l.pc.en, l, sh.r).1); Rely(u, sh, sh')
  {
  }

  // ---- CommitBegin

  lemma CommitBeginWriter(t: nat, l: Local, sh: Shared)
    requires WriterKnown(t, l, sh)
    requires l.pc.Committing? && CommitBegins(l.pc.co)
    ensures var (l', sh') := StepCommit(l.pc.co, l, sh); |sh'.r.published| > 0 && LArgs(l') && LWriter(t, l', sh'.r)
  {
  }

  lemma CommitBeginUsb(t: nat, l: Local, sh: Shared)
    requires WriterKnown(t, l, sh) && GUsb(sh.r, sh.u) && LUsb(t, l, sh.r, sh.u)
    requires l.pc.Committing? && CommitBegins(l.pc.co)
    ensures var (l', sh') := StepCommit(l.pc.co, l, sh); LUsb(t, l', sh'.r, sh'.u)
  {
  }

  lemma CommitBeginReads(t: nat, l: Local, sh: Shared)
    requires WriterKnown(t, l, sh) && GUsb(sh.r, sh.u) && GDur(sh.r, sh.d) && GClaim(sh.r, sh.k, sh.c)
    requires LReads(t, l, sh)
    requires l.pc.Committing? && CommitBegins(l.pc.co)
    ensures var (l', sh') := StepCommit(l.pc.co, l, sh); LReads(t, l', sh')
  {
  }

  lemma CommitBeginClaims(t: nat, l: Local, sh: Shared)
    requires WriterKnown(t, l, sh) && GCond(sh.k) && GClaim(sh.r, sh.k, sh.c) && LClaims(t, l, sh)
    requires l.pc.Committing? && CommitBegins(l.pc.co)
    ensures var (l', sh') := StepCommit(l.pc.co, l, sh); LClaims(t, l', sh')
  {
  }

  lemma CommitBeginShared(t: nat, l: Local, sh: Shared)
    requires Global(sh) && Thread(t, l, sh)
    requires l.pc.Committing? && CommitBegins(l.pc.co)
    ensures var sh' := StepCommit(l.pc.co, l, sh).1; Global(sh')
  {
  }

  lemma CommitBeginQuiet(t: nat, u: nat, l: Local, sh: Shared)
    requires Global(sh) && Thread(t, l, sh) && u != t
    requires l.pc.Committing? && CommitBegins(l.pc.co)
    ensures var sh' := StepCommit(l.pc.co, l, sh).1; Rely(u, sh, sh')
  {
    hide History;
  }

  // ---- CommitUndo

  lemma CommitUndoWriter(t: nat, l: Local, sh: Shared)
    requires WriterKnown(t, l, sh)
    requires l.pc.Committing? && CommitUndoes(l.pc.co)
    ensures var (l', sh') := StepCommit(l.pc.co, l, sh); |sh'.r.published| > 0 && LArgs(l') && LWriter(t, l', sh'.r)
  {
    hide History;
  }

  lemma CommitUndoUsb(t: nat, l: Local, sh: Shared)
    requires WriterKnown(t, l, sh) && GUsb(sh.r, sh.u) && LUsb(t, l, sh.r, sh.u)
    requires l.pc.Committing? && CommitUndoes(l.pc.co)
    ensures var (l', sh') := StepCommit(l.pc.co, l, sh); LUsb(t, l', sh'.r, sh'.u)
  {
  }

  lemma CommitUndoReads(t: nat, l: Local, sh: Shared)
    requires WriterKnown(t, l, sh) && GUsb(sh.r, sh.u) && GDur(sh.r, sh.d) && GClaim(sh.r, sh.k, sh.c)
    requires LReads(t, l, sh)
    requires l.pc.Committing? && CommitUndoes(l.pc.co)
    ensures var (l', sh') := StepCommit(l.pc.co, l, sh); LReads(t, l', sh')
  {
  }

  lemma CommitUndoClaims(t: nat, l: Local, sh: Shared)
    requires WriterKnown(t, l, sh) && GCond(sh.k) && GClaim(sh.r, sh.k, sh.c) && LClaims(t, l, sh)
    requires l.pc.Committing? && CommitUndoes(l.pc.co)
    ensures var (l', sh') := StepCommit(l.pc.co, l, sh); LClaims(t, l', sh')
  {
  }

  lemma CommitUndoShared(t: nat, l: Local, sh: Shared)
    requires Global(sh) && Thread(t, l, sh)
    requires l.pc.Committing? && CommitUndoes(l.pc.co)
    ensures var sh' := StepCommit(l.pc.co, l, sh).1; Global(sh')
  {
  }

  lemma CommitUndoQuiet(t: nat, u: nat, l: Local, sh: Shared)
    requires Global(sh) && Thread(t, l, sh) && u != t
    requires l.pc.Committing? && CommitUndoes(l.pc.co)
    ensures var sh' := StepCommit(l.pc.co, l, sh).1; Rely(u, sh, sh')
  {
  }

  // ---- CommitStore

  lemma CommitStoreWriter(t: nat, l: Local, sh: Shared)
    requires WriterKnown(t, l, sh)
    requires l.pc.Committing? && !CommitBegins(l.pc.co) && !CommitUndoes(l.pc.co)
    ensures var (l', sh') := StepCommit(l.pc.co, l, sh); |sh'.r.published| > 0 && LArgs(l') && LWriter(t, l', sh'.r)
  {
    hide History;
  }

  lemma CommitStoreUsb(t: nat, l: Local, sh: Shared)
    requires WriterKnown(t, l, sh) && GUsb(sh.r, sh.u) && LUsb(t, l, sh.r, sh.u)
    requires l.pc.Committing? && !CommitBegins(l.pc.co) && !CommitUndoes(l.pc.co)
    ensures var (l', sh') := StepCommit(l.pc.co, l, sh); LUsb(t, l', sh'.r, sh'.u)
  {
  }

  lemma CommitStoreReads(t: nat, l: Local, sh: Shared)
    requires WriterKnown(t, l, sh) && GUsb(sh.r, sh.u) && GDur(sh.r, sh.d) && GClaim(sh.r, sh.k, sh.c)
    requires LReads(t, l, sh)
    requires l.pc.Committing? && !CommitBegins(l.pc.co) && !CommitUndoes(l.pc.co)
    ensures var (l', sh') := StepCommit(l.pc.co, l, sh); LReads(t, l', sh')
  {
  }

  lemma CommitStoreClaims(t: nat, l: Local, sh: Shared)
    requires WriterKnown(t, l, sh) && GCond(sh.k) && GClaim(sh.r, sh.k, sh.c) && LClaims(t, l, sh)
    requires l.pc.Committing? && !CommitBegins(l.pc.co) && !CommitUndoes(l.pc.co)
    ensures var (l', sh') := StepCommit(l.pc.co, l, sh); LClaims(t, l', sh')
  {
  }

  lemma CommitStoreShared(t: nat, l: Local, sh: Shared)
    requires Global(sh) && Thread(t, l, sh)
    requires l.pc.Committing? && !CommitBegins(l.pc.co) && !CommitUndoes(l.pc.co)
    ensures var sh' := StepCommit(l.pc.co, l, sh).1; Global(sh')
  {
    hide MatchProgress, MatchResult;
  }

  lemma CommitStoreQuiet(t: nat, u: nat, l: Local, sh: Shared)
    requires Global(sh) && Thread(t, l, sh) && u != t
    requires l.pc.Committing? && !CommitBegins(l.pc.co) && !CommitUndoes(l.pc.co)
    ensures var sh' := StepCommit(l.pc.co, l, sh).1; Rely(u, sh, sh')
  {
    hide MatchProgress, MatchResult;
  }

  // ---- Stage

  lemma StageControl(t: nat, l: Local, sh: Shared)
    requires WriterKnown(t, l, sh) && GUsb(sh.r, sh.u) && LUsb(t, l, sh.r, sh.u)
    requires l.pc.Staging?
    ensures var (l', r) := StepStage(l.pc.st, l, sh.r); var sh' := sh.(r := r); Control(t, l', sh')
  {
  }

  lemma StageSeen(t: nat, l: Local, sh: Shared)
    requires WriterKnown(t, l, sh) && GUsb(sh.r, sh.u) && GDur(sh.r, sh.d) && GClaim(sh.r, sh.k, sh.c)
    requires LReads(t, l, sh)
    requires l.pc.Staging?
    ensures var (l', r) := StepStage(l.pc.st, l, sh.r); var sh' := sh.(r := r);
        LSnap(l'.pc, l'.s, sh'.r) && LMatch(l'.pc, l'.a, l'.out, l'.m, sh')
  {
    hide History;
  }

  lemma StageDurable(t: nat, l: Local, sh: Shared)
    requires WriterKnown(t, l, sh) && GDur(sh.r, sh.d) && LSnap(l.pc, l.s, sh.r) && LDur(t, l, sh.r, sh.d)
    requires l.pc.Staging?
    ensures var (l', r) := StepStage(l.pc.st, l, sh.r); var sh' := sh.(r := r); LDur(t, l', sh'.r, sh'.d)
  {
  }

  lemma StageClaims(t: nat, l: Local, sh: Shared)
    requires WriterKnown(t, l, sh) && GCond(sh.k) && GClaim(sh.r, sh.k, sh.c) && LClaims(t, l, sh)
    requires l.pc.Staging?
    ensures var (l', r) := StepStage(l.pc.st, l, sh.r); var sh' := sh.(r := r); LClaims(t, l', sh')
  {
  }

  lemma StageRoute(t: nat, l: Local, sh: Shared)
    requires WriterKnown(t, l, sh) && GUsb(sh.r, sh.u) && LUsb(t, l, sh.r, sh.u)
    requires l.pc.Staging?
    ensures var sh' := sh.(r := StepStage(l.pc.st, l, sh.r).1); GRoute(sh'.r) && GUsb(sh'.r, sh'.u)
  {
  }

  lemma StageSlots(t: nat, l: Local, sh: Shared)
    requires Global(sh) && Thread(t, l, sh)
    requires l.pc.Staging?
    ensures var sh' := sh.(r := StepStage(l.pc.st, l, sh.r).1);
        GDur(sh'.r, sh'.d) && GCond(sh'.k) && GClaim(sh'.r, sh'.k, sh'.c)
  {
  }

  lemma StageQuiet(t: nat, u: nat, l: Local, sh: Shared)
    requires Global(sh) && Thread(t, l, sh) && u != t
    requires l.pc.Staging?
    ensures var sh' := sh.(r := StepStage(l.pc.st, l, sh.r).1); Rely(u, sh, sh')
  {
  }

  // ---- Release

  lemma ReleaseControl(t: nat, l: Local, sh: Shared)
    requires WriterKnown(t, l, sh) && GUsb(sh.r, sh.u) && LUsb(t, l, sh.r, sh.u)
    requires l.pc.Completing?
    ensures var (l', r) := StepRelease(l.pc.re, l, sh.r); var sh' := sh.(r := r); Control(t, l', sh')
  {
  }

  lemma ReleaseReads(t: nat, l: Local, sh: Shared)
    requires WriterKnown(t, l, sh) && GUsb(sh.r, sh.u) && GDur(sh.r, sh.d) && GClaim(sh.r, sh.k, sh.c)
    requires LReads(t, l, sh)
    requires l.pc.Completing?
    ensures var (l', r) := StepRelease(l.pc.re, l, sh.r); var sh' := sh.(r := r); LReads(t, l', sh')
  {
  }

  lemma ReleaseClaims(t: nat, l: Local, sh: Shared)
    requires WriterKnown(t, l, sh) && GCond(sh.k) && GClaim(sh.r, sh.k, sh.c) && LClaims(t, l, sh)
    requires l.pc.Completing?
    ensures var (l', r) := StepRelease(l.pc.re, l, sh.r); var sh' := sh.(r := r); LClaims(t, l', sh')
  {
  }

  lemma ReleaseShared(t: nat, l: Local, sh: Shared)
    requires Global(sh) && Thread(t, l, sh)
    requires l.pc.Completing?
    ensures var sh' := sh.(r := StepRelease(l.pc.re, l, sh.r).1); Global(sh')
  {
    hide MatchProgress, MatchResult;
  }

  lemma ReleaseQuiet(t: nat, u: nat, l: Local, sh: Shared)
    requires Global(sh) && Thread(t, l, sh) && u != t
    requires l.pc.Completing?
    ensures var sh' := sh.(r := StepRelease(l.pc.re, l, sh.r).1); Rely(u, sh, sh')
  {
  }

  // ---- RetireBegin

  lemma RetireBeginControl(t: nat, l: Local, sh: Shared)
    requires WriterKnown(t, l, sh) && GUsb(sh.r, sh.u) && LUsb(t, l, sh.r, sh.u)
    requires l.pc.Retiring? && RetireBegins(l.pc.rt)
    ensures var (l', r) := StepRetire(l.pc.rt, l, sh.r); var sh' := sh.(r := r); Control(t, l', sh')
  {
  }

  lemma RetireBeginReads(t: nat, l: Local, sh: Shared)
    requires WriterKnown(t, l, sh) && GUsb(sh.r, sh.u) && GDur(sh.r, sh.d) && GClaim(sh.r, sh.k, sh.c)
    requires LReads(t, l, sh)
    requires l.pc.Retiring? && RetireBegins(l.pc.rt)
    ensures var (l', r) := StepRetire(l.pc.rt, l, sh.r); var sh' := sh.(r := r); LReads(t, l', sh')
  {
  }

  lemma RetireBeginClaims(t: nat, l: Local, sh: Shared)
    requires WriterKnown(t, l, sh) && GCond(sh.k) && GClaim(sh.r, sh.k, sh.c) && LClaims(t, l, sh)
    requires l.pc.Retiring? && RetireBegins(l.pc.rt)
    ensures var (l', r) := StepRetire(l.pc.rt, l, sh.r); var sh' := sh.(r := r); LClaims(t, l', sh')
  {
  }

  lemma RetireBeginShared(t: nat, l: Local, sh: Shared)
    requires Global(sh) && Thread(t, l, sh)
    requires l.pc.Retiring? && RetireBegins(l.pc.rt)
    ensures var sh' := sh.(r := StepRetire(l.pc.rt, l, sh.r).1); Global(sh')
  {
  }

  lemma RetireBeginQuiet(t: nat, u: nat, l: Local, sh: Shared)
    requires Global(sh) && Thread(t, l, sh) && u != t
    requires l.pc.Retiring? && RetireBegins(l.pc.rt)
    ensures var sh' := sh.(r := StepRetire(l.pc.rt, l, sh.r).1); Rely(u, sh, sh')
  {
  }

  // ---- RetireStore

  lemma RetireStoreWriter(t: nat, l: Local, sh: Shared)
    requires WriterKnown(t, l, sh)
    requires l.pc.Retiring? && !RetireBegins(l.pc.rt)
    ensures var (l', r) := StepRetire(l.pc.rt, l, sh.r); var sh' := sh.(r := r);
        |sh'.r.published| > 0 && LArgs(l') && LWriter(t, l', sh'.r)
  {
    hide History;
  }

  lemma RetireStoreUsb(t: nat, l: Local, sh: Shared)
    requires WriterKnown(t, l, sh) && GUsb(sh.r, sh.u) && LUsb(t, l, sh.r, sh.u)
    requires l.pc.Retiring? && !RetireBegins(l.pc.rt)
    ensures var (l', r) := StepRetire(l.pc.rt, l, sh.r); var sh' := sh.(r := r); LUsb(t, l', sh'.r, sh'.u)
  {
  }

  lemma RetireStoreReads(t: nat, l: Local, sh: Shared)
    requires WriterKnown(t, l, sh) && GUsb(sh.r, sh.u) && GDur(sh.r, sh.d) && GClaim(sh.r, sh.k, sh.c)
    requires LReads(t, l, sh)
    requires l.pc.Retiring? && !RetireBegins(l.pc.rt)
    ensures var (l', r) := StepRetire(l.pc.rt, l, sh.r); var sh' := sh.(r := r); LReads(t, l', sh')
  {
  }

  lemma RetireStoreClaims(t: nat, l: Local, sh: Shared)
    requires WriterKnown(t, l, sh) && GCond(sh.k) && GClaim(sh.r, sh.k, sh.c) && LClaims(t, l, sh)
    requires l.pc.Retiring? && !RetireBegins(l.pc.rt)
    ensures var (l', r) := StepRetire(l.pc.rt, l, sh.r); var sh' := sh.(r := r); LClaims(t, l', sh')
  {
    hide History;
  }

  lemma RetireStoreRoute(t: nat, l: Local, sh: Shared)
    requires WriterKnown(t, l, sh) && GUsb(sh.r, sh.u) && LUsb(t, l, sh.r, sh.u)
    requires l.pc.Retiring? && !RetireBegins(l.pc.rt)
    ensures var sh' := sh.(r := StepRetire(l.pc.rt, l, sh.r).1); GRoute(sh'.r) && GUsb(sh'.r, sh'.u)
  {
  }

  lemma RetireStoreSlots(t: nat, l: Local, sh: Shared)
    requires Global(sh) && Thread(t, l, sh)
    requires l.pc.Retiring? && !RetireBegins(l.pc.rt)
    ensures var sh' := sh.(r := StepRetire(l.pc.rt, l, sh.r).1);
        GDur(sh'.r, sh'.d) && GCond(sh'.k) && GClaim(sh'.r, sh'.k, sh'.c)
  {
  }

  lemma RetireStoreQuiet(t: nat, u: nat, l: Local, sh: Shared)
    requires Global(sh) && Thread(t, l, sh) && u != t
    requires l.pc.Retiring? && !RetireBegins(l.pc.rt)
    ensures var sh' := sh.(r := StepRetire(l.pc.rt, l, sh.r).1); Rely(u, sh, sh')
  {
    hide History;
  }

  // ---- Leave

  lemma LeaveControl(t: nat, l: Local, sh: Shared)
    requires WriterKnown(t, l, sh) && GUsb(sh.r, sh.u) && LUsb(t, l, sh.r, sh.u)
    requires l.pc.Leaving?
    ensures var (l', sh') := StepLeave(l.pc.le, l, sh); Control(t, l', sh')
  {
  }

  lemma LeaveReads(t: nat, l: Local, sh: Shared)
    requires WriterKnown(t, l, sh) && GUsb(sh.r, sh.u) && GDur(sh.r, sh.d) && GClaim(sh.r, sh.k, sh.c)
    requires LReads(t, l, sh)
    requires l.pc.Leaving?
    ensures var (l', sh') := StepLeave(l.pc.le, l, sh); LReads(t, l', sh')
  {
    hide History;
  }

  lemma LeaveClaims(t: nat, l: Local, sh: Shared)
    requires WriterKnown(t, l, sh) && GCond(sh.k) && GClaim(sh.r, sh.k, sh.c) && LClaims(t, l, sh)
    requires l.pc.Leaving?
    ensures var (l', sh') := StepLeave(l.pc.le, l, sh); LClaims(t, l', sh')
  {
  }

  lemma LeaveShared(t: nat, l: Local, sh: Shared)
    requires Global(sh) && Thread(t, l, sh)
    requires l.pc.Leaving?
    ensures var sh' := StepLeave(l.pc.le, l, sh).1; Global(sh')
  {
  }

  lemma LeaveQuiet(t: nat, u: nat, l: Local, sh: Shared)
    requires Global(sh) && Thread(t, l, sh) && u != t
    requires l.pc.Leaving?
    ensures var sh' := StepLeave(l.pc.le, l, sh).1; Rely(u, sh, sh')
  {
    hide History;
  }

  // ---- Invalidate

  lemma InvalidateControl(t: nat, l: Local, sh: Shared)
    requires WriterKnown(t, l, sh) && GUsb(sh.r, sh.u) && LUsb(t, l, sh.r, sh.u)
    requires l.pc.Invalidating? && !l.pc.iv.InvEnter?
    ensures var (l', sh') := StepInvalidate(t, l.pc.iv, l, sh); Control(t, l', sh')
  {
  }

  lemma InvalidateSeen(t: nat, l: Local, sh: Shared)
    requires WriterKnown(t, l, sh) && GUsb(sh.r, sh.u) && GDur(sh.r, sh.d) && GClaim(sh.r, sh.k, sh.c)
    requires LReads(t, l, sh)
    requires l.pc.Invalidating? && !l.pc.iv.InvEnter?
    ensures var (l', sh') := StepInvalidate(t, l.pc.iv, l, sh);
        LSnap(l'.pc, l'.s, sh'.r) && LMatch(l'.pc, l'.a, l'.out, l'.m, sh')
  {
  }

  lemma InvalidateDurable(t: nat, l: Local, sh: Shared)
    requires WriterKnown(t, l, sh) && GDur(sh.r, sh.d) && LSnap(l.pc, l.s, sh.r) && LDur(t, l, sh.r, sh.d)
    requires l.pc.Invalidating? && !l.pc.iv.InvEnter?
    ensures var (l', sh') := StepInvalidate(t, l.pc.iv, l, sh); LDur(t, l', sh'.r, sh'.d)
  {
  }

  lemma InvalidateClaims(t: nat, l: Local, sh: Shared)
    requires WriterKnown(t, l, sh) && GCond(sh.k) && GClaim(sh.r, sh.k, sh.c) && LClaims(t, l, sh)
    requires l.pc.Invalidating? && !l.pc.iv.InvEnter?
    ensures var (l', sh') := StepInvalidate(t, l.pc.iv, l, sh); LClaims(t, l', sh')
  {
  }

  lemma InvalidateShared(t: nat, l: Local, sh: Shared)
    requires Global(sh) && Thread(t, l, sh)
    requires l.pc.Invalidating? && !l.pc.iv.InvEnter?
    ensures var sh' := StepInvalidate(t, l.pc.iv, l, sh).1; Global(sh')
  {
  }

  lemma InvalidateQuiet(t: nat, u: nat, l: Local, sh: Shared)
    requires Global(sh) && Thread(t, l, sh) && u != t
    requires l.pc.Invalidating? && !l.pc.iv.InvEnter?
    ensures var sh' := StepInvalidate(t, l.pc.iv, l, sh).1; Rely(u, sh, sh')
  {
    hide LWriter, LArgs, GRoute;
  }

  // ---- InvEnter

  lemma InvEnterControl(t: nat, l: Local, sh: Shared)
    requires WriterKnown(t, l, sh) && GUsb(sh.r, sh.u) && LUsb(t, l, sh.r, sh.u)
    requires l.pc.Invalidating? && l.pc.iv.InvEnter?
    ensures var (l', sh') := StepInvalidate(t, l.pc.iv, l, sh); Control(t, l', sh')
  {
  }

  lemma InvEnterRest(t: nat, l: Local, sh: Shared)
    requires Global(sh) && WriterKnown(t, l, sh) && LReads(t, l, sh) && LClaims(t, l, sh)
    requires l.pc.Invalidating? && l.pc.iv.InvEnter?
    ensures var (l', sh') := StepInvalidate(t, l.pc.iv, l, sh); LReads(t, l', sh') && LClaims(t, l', sh')
  {
  }

  lemma InvEnterShared(t: nat, l: Local, sh: Shared)
    requires Global(sh) && Thread(t, l, sh)
    requires l.pc.Invalidating? && l.pc.iv.InvEnter?
    ensures var sh' := StepInvalidate(t, l.pc.iv, l, sh).1; Global(sh')
  {
  }

  lemma InvEnterQuiet(t: nat, u: nat, l: Local, sh: Shared)
    requires Global(sh) && Thread(t, l, sh) && u != t
    requires l.pc.Invalidating? && l.pc.iv.InvEnter?
    ensures var sh' := StepInvalidate(t, l.pc.iv, l, sh).1; Rely(u, sh, sh')
  {
  }

  // ---- TokenFill

  lemma TokenFillControl(t: nat, l: Local, sh: Shared)
    requires WriterKnown(t, l, sh) && GUsb(sh.r, sh.u) && LUsb(t, l, sh.r, sh.u)
    requires l.pc.Claiming? && FillsToken(l.pc)
    ensures var (l', sh') := StepClaim(t, l.pc.cl, l, sh); Control(t, l', sh')
  {
  }

  lemma TokenFillRest(t: nat, l: Local, sh: Shared)
    requires Global(sh) && WriterKnown(t, l, sh) && LReads(t, l, sh) && LClaims(t, l, sh)
    requires l.pc.Claiming? && FillsToken(l.pc)
    ensures var (l', sh') := StepClaim(t, l.pc.cl, l, sh); LReads(t, l', sh') && LClaims(t, l', sh')
  {
  }

  lemma TokenFillShared(t: nat, l: Local, sh: Shared)
    requires Global(sh) && Thread(t, l, sh)
    requires l.pc.Claiming? && FillsToken(l.pc)
    ensures var sh' := StepClaim(t, l.pc.cl, l, sh).1; Global(sh')
  {
  }

  lemma TokenFillQuiet(t: nat, u: nat, l: Local, sh: Shared)
    requires Global(sh) && Thread(t, l, sh) && u != t
    requires l.pc.Claiming? && FillsToken(l.pc)
    ensures var sh' := StepClaim(t, l.pc.cl, l, sh).1; Rely(u, sh, sh')
  {
  }

  // ---- Claim

  lemma ClaimControl(t: nat, l: Local, sh: Shared)
    requires WriterKnown(t, l, sh) && GUsb(sh.r, sh.u) && LUsb(t, l, sh.r, sh.u)
    requires l.pc.Claiming? && !FillsToken(l.pc)
    ensures var (l', sh') := StepClaim(t, l.pc.cl, l, sh); Control(t, l', sh')
  {
  }

  lemma ClaimSeen(t: nat, l: Local, sh: Shared)
    requires WriterKnown(t, l, sh) && GUsb(sh.r, sh.u) && GDur(sh.r, sh.d) && GClaim(sh.r, sh.k, sh.c)
    requires LReads(t, l, sh)
    requires l.pc.Claiming? && !FillsToken(l.pc)
    ensures var (l', sh') := StepClaim(t, l.pc.cl, l, sh);
        LSnap(l'.pc, l'.s, sh'.r) && LMatch(l'.pc, l'.a, l'.out, l'.m, sh')
  {
  }

  lemma ClaimDurable(t: nat, l: Local, sh: Shared)
    requires WriterKnown(t, l, sh) && GDur(sh.r, sh.d) && LSnap(l.pc, l.s, sh.r) && LDur(t, l, sh.r, sh.d)
    requires l.pc.Claiming? && !FillsToken(l.pc)
    ensures var (l', sh') := StepClaim(t, l.pc.cl, l, sh); LDur(t, l', sh'.r, sh'.d)
  {
  }

  lemma ClaimToken(t: nat, l: Local, sh: Shared)
    requires WriterKnown(t, l, sh) && GCond(sh.k) && LToken(t, l, sh.r, sh.k)
    requires l.pc.Claiming? && !FillsToken(l.pc)
    ensures var (l', sh') := StepClaim(t, l.pc.cl, l, sh); LToken(t, l', sh'.r, sh'.k)
  {
    hide LWriter, LArgs, GRoute;
  }

  lemma ClaimClaim(t: nat, l: Local, sh: Shared)
    requires WriterKnown(t, l, sh) && GClaim(sh.r, sh.k, sh.c) && LClaim(t, l, sh.r, sh.c)
    requires l.pc.Claiming? && !FillsToken(l.pc)
    ensures var (l', sh') := StepClaim(t, l.pc.cl, l, sh); LClaim(t, l', sh'.r, sh'.c)
  {
  }

  lemma ClaimShared(t: nat, l: Local, sh: Shared)
    requires Global(sh) && Thread(t, l, sh)
    requires l.pc.Claiming? && !FillsToken(l.pc)
    ensures var sh' := StepClaim(t, l.pc.cl, l, sh).1; Global(sh')
  {
  }

  lemma ClaimQuiet(t: nat, u: nat, l: Local, sh: Shared)
    requires Global(sh) && Thread(t, l, sh) && u != t
    requires l.pc.Claiming? && !FillsToken(l.pc)
    ensures var sh' := StepClaim(t, l.pc.cl, l, sh).1; Rely(u, sh, sh')
  {
    hide LWriter, LArgs, GRoute;
  }

  // ---- ClaimHeld

  lemma ClaimHeldControl(t: nat, l: Local, sh: Shared)
    requires WriterKnown(t, l, sh) && GUsb(sh.r, sh.u) && LUsb(t, l, sh.r, sh.u)
    requires (l.pc.ClaimExact? || l.pc.ClaimInexact?)
    ensures var (l', sh') := StepClaimHeld(t, l, sh); Control(t, l', sh')
  {
  }

  lemma ClaimHeldRest(t: nat, l: Local, sh: Shared)
    requires Global(sh) && WriterKnown(t, l, sh) && LReads(t, l, sh) && LClaims(t, l, sh)
    requires (l.pc.ClaimExact? || l.pc.ClaimInexact?)
    ensures var (l', sh') := StepClaimHeld(t, l, sh); LReads(t, l', sh') && LClaims(t, l', sh')
  {
  }

  lemma ClaimHeldShared(t: nat, l: Local, sh: Shared)
    requires Global(sh) && Thread(t, l, sh)
    requires (l.pc.ClaimExact? || l.pc.ClaimInexact?)
    ensures var sh' := StepClaimHeld(t, l, sh).1; Global(sh')
  {
  }

  lemma ClaimHeldQuiet(t: nat, u: nat, l: Local, sh: Shared)
    requires Global(sh) && Thread(t, l, sh) && u != t
    requires (l.pc.ClaimExact? || l.pc.ClaimInexact?)
    ensures var sh' := StepClaimHeld(t, l, sh).1; Rely(u, sh, sh')
  {
  }

  // ---- Cancel

  lemma CancelWriter(t: nat, l: Local, sh: Shared)
    requires WriterKnown(t, l, sh)
    requires l.pc.Cancelling?
    ensures var (l', sh') := StepCancel(t, l.pc.ca, l, sh); |sh'.r.published| > 0 && LArgs(l') && LWriter(t, l', sh'.r)
  {
    hide History;
  }

  lemma CancelUsb(t: nat, l: Local, sh: Shared)
    requires WriterKnown(t, l, sh) && GUsb(sh.r, sh.u) && LUsb(t, l, sh.r, sh.u)
    requires l.pc.Cancelling?
    ensures var (l', sh') := StepCancel(t, l.pc.ca, l, sh); LUsb(t, l', sh'.r, sh'.u)
  {
  }

  lemma CancelSeen(t: nat, l: Local, sh: Shared)
    requires WriterKnown(t, l, sh) && GUsb(sh.r, sh.u) && GDur(sh.r, sh.d) && GClaim(sh.r, sh.k, sh.c)
    requires LReads(t, l, sh)
    requires l.pc.Cancelling?
    ensures var (l', sh') := StepCancel(t, l.pc.ca, l, sh);
        LSnap(l'.pc, l'.s, sh'.r) && LMatch(l'.pc, l'.a, l'.out, l'.m, sh')
  {
    hide LWriter, LArgs, GRoute;
  }

  lemma CancelDurable(t: nat, l: Local, sh: Shared)
    requires WriterKnown(t, l, sh) && GDur(sh.r, sh.d) && LSnap(l.pc, l.s, sh.r) && LDur(t, l, sh.r, sh.d)
    requires l.pc.Cancelling?
    ensures var (l', sh') := StepCancel(t, l.pc.ca, l, sh); LDur(t, l', sh'.r, sh'.d)
  {
  }

  lemma CancelToken(t: nat, l: Local, sh: Shared)
    requires WriterKnown(t, l, sh) && GCond(sh.k) && LToken(t, l, sh.r, sh.k)
    requires l.pc.Cancelling?
    ensures var (l', sh') := StepCancel(t, l.pc.ca, l, sh); LToken(t, l', sh'.r, sh'.k)
  {
    hide LWriter, LArgs, GRoute;
  }

  lemma CancelClaim(t: nat, l: Local, sh: Shared)
    requires WriterKnown(t, l, sh) && GClaim(sh.r, sh.k, sh.c) && LClaim(t, l, sh.r, sh.c)
    requires l.pc.Cancelling?
    ensures var (l', sh') := StepCancel(t, l.pc.ca, l, sh); LClaim(t, l', sh'.r, sh'.c)
  {
  }

  lemma CancelShared(t: nat, l: Local, sh: Shared)
    requires Global(sh) && Thread(t, l, sh)
    requires l.pc.Cancelling?
    ensures var sh' := StepCancel(t, l.pc.ca, l, sh).1; Global(sh')
  {
  }

  lemma CancelQuiet(t: nat, u: nat, l: Local, sh: Shared)
    requires Global(sh) && Thread(t, l, sh) && u != t
    requires l.pc.Cancelling?
    ensures var sh' := StepCancel(t, l.pc.ca, l, sh).1; Rely(u, sh, sh')
  {
    hide History;
  }

  // ---- HeldClaim

  lemma HeldClaimControl(t: nat, l: Local, sh: Shared)
    requires WriterKnown(t, l, sh) && GUsb(sh.r, sh.u) && LUsb(t, l, sh.r, sh.u)
    requires (l.pc.ClaimRetired? || l.pc.ClaimRetireCancelled? || l.pc.ClaimReleased?)
    ensures var (l', c') := StepHeldClaim(t, l, sh.c); var sh' := sh.(c := c'); Control(t, l', sh')
  {
  }

  lemma HeldClaimReads(t: nat, l: Local, sh: Shared)
    requires WriterKnown(t, l, sh) && GUsb(sh.r, sh.u) && GDur(sh.r, sh.d) && GClaim(sh.r, sh.k, sh.c)
    requires LReads(t, l, sh)
    requires (l.pc.ClaimRetired? || l.pc.ClaimRetireCancelled? || l.pc.ClaimReleased?)
    ensures var (l', c') := StepHeldClaim(t, l, sh.c); var sh' := sh.(c := c'); LReads(t, l', sh')
  {
  }

  lemma HeldClaimClaims(t: nat, l: Local, sh: Shared)
    requires WriterKnown(t, l, sh) && GCond(sh.k) && GClaim(sh.r, sh.k, sh.c) && LClaims(t, l, sh)
    requires (l.pc.ClaimRetired? || l.pc.ClaimRetireCancelled? || l.pc.ClaimReleased?)
    ensures var (l', c') := StepHeldClaim(t, l, sh.c); var sh' := sh.(c := c'); LClaims(t, l', sh')
  {
  }

  lemma HeldClaimShared(t: nat, l: Local, sh: Shared)
    requires Global(sh) && Thread(t, l, sh)
    requires (l.pc.ClaimRetired? || l.pc.ClaimRetireCancelled? || l.pc.ClaimReleased?)
    ensures var sh' := sh.(c := StepHeldClaim(t, l, sh.c).1); Global(sh')
  {
  }

  lemma HeldClaimQuiet(t: nat, u: nat, l: Local, sh: Shared)
    requires Global(sh) && Thread(t, l, sh) && u != t
    requires (l.pc.ClaimRetired? || l.pc.ClaimRetireCancelled? || l.pc.ClaimReleased?)
    ensures var sh' := sh.(c := StepHeldClaim(t, l, sh.c).1); Rely(u, sh, sh')
  {
  }

  // ---- UsbCall

  lemma UsbCallControl(t: nat, l: Local, sh: Shared)
    requires WriterKnown(t, l, sh) && GUsb(sh.r, sh.u) && LUsb(t, l, sh.r, sh.u)
    requires l.pc.UsbCall?
    ensures var (l', u') := StepUsb(l.pc.us, l, sh.u); var sh' := sh.(u := u'); Control(t, l', sh')
  {
  }

  lemma UsbCallRest(t: nat, l: Local, sh: Shared)
    requires Global(sh) && WriterKnown(t, l, sh) && LReads(t, l, sh) && LClaims(t, l, sh)
    requires l.pc.UsbCall?
    ensures var (l', u') := StepUsb(l.pc.us, l, sh.u); var sh' := sh.(u := u');
        LReads(t, l', sh') && LClaims(t, l', sh')
  {
  }

  lemma UsbCallShared(t: nat, l: Local, sh: Shared)
    requires Global(sh) && Thread(t, l, sh)
    requires l.pc.UsbCall?
    ensures var sh' := sh.(u := StepUsb(l.pc.us, l, sh.u).1); Global(sh')
  {
  }

  lemma UsbCallQuiet(t: nat, u: nat, l: Local, sh: Shared)
    requires Global(sh) && Thread(t, l, sh) && u != t
    requires l.pc.UsbCall?
    ensures var sh' := sh.(u := StepUsb(l.pc.us, l, sh.u).1); Rely(u, sh, sh')
  {
  }

  // ---- Return

  lemma ReturnControl(t: nat, l: Local, sh: Shared, c: Call)
    requires WriterKnown(t, l, sh) && GUsb(sh.r, sh.u) && LUsb(t, l, sh.r, sh.u)
    requires (l.pc.Done? || l.pc.DoneSnapshot? || l.pc.DoneMatches? || l.pc.DoneCommit? || l.pc.InvLeave?
              || l.pc.CancelReturn?)
    ensures var (l', sh') := Step(t, l, sh, c); Control(t, l', sh')
  {
  }

  lemma ReturnRest(t: nat, l: Local, sh: Shared, c: Call)
    requires Global(sh) && WriterKnown(t, l, sh) && LReads(t, l, sh) && LClaims(t, l, sh)
    requires (l.pc.Done? || l.pc.DoneSnapshot? || l.pc.DoneMatches? || l.pc.DoneCommit? || l.pc.InvLeave?
              || l.pc.CancelReturn?)
    ensures var (l', sh') := Step(t, l, sh, c); LReads(t, l', sh') && LClaims(t, l', sh')
  {
    hide History;
  }

  lemma ReturnShared(t: nat, l: Local, sh: Shared, c: Call)
    requires (l.pc.Done? || l.pc.DoneSnapshot? || l.pc.DoneMatches? || l.pc.DoneCommit? || l.pc.InvLeave?
              || l.pc.CancelReturn?)
    ensures Step(t, l, sh, c).1 == sh
  {
  }

  // ---- Idle

  lemma IdleWriter(t: nat, l: Local, sh: Shared, c: Call)
    requires WriterKnown(t, l, sh)
    requires l.pc.Idle? && CallAllowed(sh, l, c)
    ensures var (l', sh') := StepIdle(l, sh, c); |sh'.r.published| > 0 && LArgs(l') && LWriter(t, l', sh'.r)
  {
  }

  lemma IdleUsb(t: nat, l: Local, sh: Shared, c: Call)
    requires WriterKnown(t, l, sh) && GUsb(sh.r, sh.u) && LUsb(t, l, sh.r, sh.u)
    requires l.pc.Idle? && CallAllowed(sh, l, c)
    ensures var (l', sh') := StepIdle(l, sh, c); LUsb(t, l', sh'.r, sh'.u)
  {
  }

  lemma IdleReads(t: nat, l: Local, sh: Shared, c: Call)
    requires WriterKnown(t, l, sh) && GUsb(sh.r, sh.u) && GDur(sh.r, sh.d) && GClaim(sh.r, sh.k, sh.c)
    requires LReads(t, l, sh)
    requires l.pc.Idle? && CallAllowed(sh, l, c)
    ensures var (l', sh') := StepIdle(l, sh, c); LReads(t, l', sh')
  {
    hide History;
  }

  lemma IdleToken(t: nat, l: Local, sh: Shared, c: Call)
    requires WriterKnown(t, l, sh) && GCond(sh.k) && LToken(t, l, sh.r, sh.k)
    requires l.pc.Idle? && CallAllowed(sh, l, c)
    ensures var (l', sh') := StepIdle(l, sh, c); LToken(t, l', sh'.r, sh'.k)
  {
    hide History;
  }

  lemma IdleClaim(t: nat, l: Local, sh: Shared, c: Call)
    requires WriterKnown(t, l, sh) && GClaim(sh.r, sh.k, sh.c) && LClaim(t, l, sh.r, sh.c)
    requires l.pc.Idle? && CallAllowed(sh, l, c)
    ensures var (l', sh') := StepIdle(l, sh, c); LClaim(t, l', sh'.r, sh'.c)
  {
  }

  lemma IdleShared(t: nat, l: Local, sh: Shared, c: Call)
    requires Global(sh) && Thread(t, l, sh)
    requires l.pc.Idle? && CallAllowed(sh, l, c)
    ensures var sh' := StepIdle(l, sh, c).1; Global(sh')
  {
  }

  lemma IdleQuiet(t: nat, u: nat, l: Local, sh: Shared, c: Call)
    requires Global(sh) && Thread(t, l, sh) && u != t
    requires l.pc.Idle? && CallAllowed(sh, l, c)
    ensures var sh' := StepIdle(l, sh, c).1; Rely(u, sh, sh')
  {
  }

  // ---- together

  ghost predicate StepKept(t: nat, u: nat, l: Local, sh: Shared, c: Call) {
    var (l', sh') := Step(t, l, sh, c);
    Global(sh') && Thread(t, l', sh') && (u != t ==> Rely(u, sh, sh'))
  }

  lemma SnapshotLoadKept(t: nat, u: nat, l: Local, sh: Shared, c: Call)
    requires Global(sh) && Thread(t, l, sh)
    requires l.pc.Snapping? && SnapLoads(l.pc.sn)
    ensures StepKept(t, u, l, sh, c)
  {
    hide GRoute, GDur, GUsb, GCond, GClaim, LArgs, LWriter, LUsb, LSnap, LMatch, LDur, LToken, LClaim, RRoute, RUsb;
    hide RDur, RCond, RClaim;
    SnapshotLoadControl(t, l, sh);
    SnapshotLoadReads(t, l, sh);
    SnapshotLoadClaims(t, l, sh);
    Quiet(u, sh);
  }

  lemma SnapshotEndKept(t: nat, u: nat, l: Local, sh: Shared, c: Call)
    requires Global(sh) && Thread(t, l, sh)
    requires l.pc.Snapping? && !SnapLoads(l.pc.sn)
    ensures StepKept(t, u, l, sh, c)
  {
    hide GRoute, GDur, GUsb, GCond, GClaim, LArgs, LWriter, LUsb, LSnap, LMatch, LDur, LToken, LClaim, RRoute, RUsb;
    hide RDur, RCond, RClaim;
    SnapshotEndControl(t, l, sh);
    SnapshotEndSeen(t, l, sh);
    SnapshotEndDurable(t, l, sh);
    SnapshotEndClaims(t, l, sh);
    Quiet(u, sh);
  }

  lemma MatchesKept(t: nat, u: nat, l: Local, sh: Shared, c: Call)
    requires Global(sh) && Thread(t, l, sh)
    requires l.pc.Matching?
    ensures StepKept(t, u, l, sh, c)
  {
    hide GRoute, GDur, GUsb, GCond, GClaim, LArgs, LWriter, LUsb, LSnap, LMatch, LDur, LToken, LClaim, RRoute, RUsb;
    hide RDur, RCond, RClaim;
    MatchesControl(t, l, sh);
    MatchesReads(t, l, sh);
    MatchesClaims(t, l, sh);
    Quiet(u, sh);
  }

  lemma PendingKept(t: nat, u: nat, l: Local, sh: Shared, c: Call)
    requires Global(sh) && Thread(t, l, sh)
    requires l.pc.Pending?
    ensures StepKept(t, u, l, sh, c)
  {
    hide GRoute, GDur, GUsb, GCond, GClaim, LArgs, LWriter, LUsb, LSnap, LMatch, LDur, LToken, LClaim, RRoute, RUsb;
    hide RDur, RCond, RClaim;
    PendingControl(t, l, sh);
    PendingReads(t, l, sh);
    PendingClaims(t, l, sh);
    Quiet(u, sh);
  }

  lemma VerdictKept(t: nat, u: nat, l: Local, sh: Shared, c: Call)
    requires Global(sh) && Thread(t, l, sh)
    requires l.pc.Verdict?
    ensures StepKept(t, u, l, sh, c)
  {
    hide GRoute, GDur, GUsb, GCond, GClaim, LArgs, LWriter, LUsb, LSnap, LMatch, LDur, LToken, LClaim, RRoute, RUsb;
    hide RDur, RCond, RClaim;
    VerdictControl(t, l, sh);
    VerdictRest(t, l, sh);
    Quiet(u, sh);
  }

  lemma EnteringKept(t: nat, u: nat, l: Local, sh: Shared, c: Call)
    requires Global(sh) && Thread(t, l, sh)
    requires l.pc.Entering?
    ensures StepKept(t, u, l, sh, c)
  {
    hide GRoute, GDur, GUsb, GCond, GClaim, LArgs, LWriter, LUsb, LSnap, LMatch, LDur, LToken, LClaim, RRoute, RUsb;
    hide RDur, RCond, RClaim;
    EnteringControl(t, l, sh);
    EnteringReads(t, l, sh);
    EnteringClaims(t, l, sh);
    EnteringShared(t, l, sh);
    if u != t { EnteringQuiet(t, u, l, sh); }
  }

  lemma CommitBeginKept(t: nat, u: nat, l: Local, sh: Shared, c: Call)
    requires Global(sh) && Thread(t, l, sh)
    requires l.pc.Committing? && CommitBegins(l.pc.co)
    ensures StepKept(t, u, l, sh, c)
  {
    hide GRoute, GDur, GUsb, GCond, GClaim, LArgs, LWriter, LUsb, LSnap, LMatch, LDur, LToken, LClaim, RRoute, RUsb;
    hide RDur, RCond, RClaim;
    CommitBeginWriter(t, l, sh);
    CommitBeginUsb(t, l, sh);
    CommitBeginReads(t, l, sh);
    CommitBeginClaims(t, l, sh);
    CommitBeginShared(t, l, sh);
    if u != t { CommitBeginQuiet(t, u, l, sh); }
  }

  lemma CommitUndoKept(t: nat, u: nat, l: Local, sh: Shared, c: Call)
    requires Global(sh) && Thread(t, l, sh)
    requires l.pc.Committing? && CommitUndoes(l.pc.co)
    ensures StepKept(t, u, l, sh, c)
  {
    hide GRoute, GDur, GUsb, GCond, GClaim, LArgs, LWriter, LUsb, LSnap, LMatch, LDur, LToken, LClaim, RRoute, RUsb;
    hide RDur, RCond, RClaim;
    CommitUndoWriter(t, l, sh);
    CommitUndoUsb(t, l, sh);
    CommitUndoReads(t, l, sh);
    CommitUndoClaims(t, l, sh);
    CommitUndoShared(t, l, sh);
    if u != t { CommitUndoQuiet(t, u, l, sh); }
  }

  lemma CommitStoreKept(t: nat, u: nat, l: Local, sh: Shared, c: Call)
    requires Global(sh) && Thread(t, l, sh)
    requires l.pc.Committing? && !CommitBegins(l.pc.co) && !CommitUndoes(l.pc.co)
    ensures StepKept(t, u, l, sh, c)
  {
    hide GRoute, GDur, GUsb, GCond, GClaim, LArgs, LWriter, LUsb, LSnap, LMatch, LDur, LToken, LClaim, RRoute, RUsb;
    hide RDur, RCond, RClaim;
    CommitStoreWriter(t, l, sh);
    CommitStoreUsb(t, l, sh);
    CommitStoreReads(t, l, sh);
    CommitStoreClaims(t, l, sh);
    CommitStoreShared(t, l, sh);
    if u != t { CommitStoreQuiet(t, u, l, sh); }
  }

  lemma StageKept(t: nat, u: nat, l: Local, sh: Shared, c: Call)
    requires Global(sh) && Thread(t, l, sh)
    requires l.pc.Staging?
    ensures StepKept(t, u, l, sh, c)
  {
    hide GRoute, GDur, GUsb, GCond, GClaim, LArgs, LWriter, LUsb, LSnap, LMatch, LDur, LToken, LClaim, RRoute, RUsb;
    hide RDur, RCond, RClaim;
    StageControl(t, l, sh);
    StageSeen(t, l, sh);
    StageDurable(t, l, sh);
    StageClaims(t, l, sh);
    StageRoute(t, l, sh);
    StageSlots(t, l, sh);
    if u != t { StageQuiet(t, u, l, sh); }
  }

  lemma ReleaseKept(t: nat, u: nat, l: Local, sh: Shared, c: Call)
    requires Global(sh) && Thread(t, l, sh)
    requires l.pc.Completing?
    ensures StepKept(t, u, l, sh, c)
  {
    hide GRoute, GDur, GUsb, GCond, GClaim, LArgs, LWriter, LUsb, LSnap, LMatch, LDur, LToken, LClaim, RRoute, RUsb;
    hide RDur, RCond, RClaim;
    ReleaseControl(t, l, sh);
    ReleaseReads(t, l, sh);
    ReleaseClaims(t, l, sh);
    ReleaseShared(t, l, sh);
    if u != t { ReleaseQuiet(t, u, l, sh); }
  }

  lemma RetireBeginKept(t: nat, u: nat, l: Local, sh: Shared, c: Call)
    requires Global(sh) && Thread(t, l, sh)
    requires l.pc.Retiring? && RetireBegins(l.pc.rt)
    ensures StepKept(t, u, l, sh, c)
  {
    hide GRoute, GDur, GUsb, GCond, GClaim, LArgs, LWriter, LUsb, LSnap, LMatch, LDur, LToken, LClaim, RRoute, RUsb;
    hide RDur, RCond, RClaim;
    RetireBeginControl(t, l, sh);
    RetireBeginReads(t, l, sh);
    RetireBeginClaims(t, l, sh);
    RetireBeginShared(t, l, sh);
    if u != t { RetireBeginQuiet(t, u, l, sh); }
  }

  lemma RetireStoreKept(t: nat, u: nat, l: Local, sh: Shared, c: Call)
    requires Global(sh) && Thread(t, l, sh)
    requires l.pc.Retiring? && !RetireBegins(l.pc.rt)
    ensures StepKept(t, u, l, sh, c)
  {
    hide GRoute, GDur, GUsb, GCond, GClaim, LArgs, LWriter, LUsb, LSnap, LMatch, LDur, LToken, LClaim, RRoute, RUsb;
    hide RDur, RCond, RClaim;
    RetireStoreWriter(t, l, sh);
    RetireStoreUsb(t, l, sh);
    RetireStoreReads(t, l, sh);
    RetireStoreClaims(t, l, sh);
    RetireStoreRoute(t, l, sh);
    RetireStoreSlots(t, l, sh);
    if u != t { RetireStoreQuiet(t, u, l, sh); }
  }

  lemma LeaveKept(t: nat, u: nat, l: Local, sh: Shared, c: Call)
    requires Global(sh) && Thread(t, l, sh)
    requires l.pc.Leaving?
    ensures StepKept(t, u, l, sh, c)
  {
    hide GRoute, GDur, GUsb, GCond, GClaim, LArgs, LWriter, LUsb, LSnap, LMatch, LDur, LToken, LClaim, RRoute, RUsb;
    hide RDur, RCond, RClaim;
    LeaveControl(t, l, sh);
    LeaveReads(t, l, sh);
    LeaveClaims(t, l, sh);
    LeaveShared(t, l, sh);
    if u != t { LeaveQuiet(t, u, l, sh); }
  }

  lemma InvalidateKept(t: nat, u: nat, l: Local, sh: Shared, c: Call)
    requires Global(sh) && Thread(t, l, sh)
    requires l.pc.Invalidating? && !l.pc.iv.InvEnter?
    ensures StepKept(t, u, l, sh, c)
  {
    hide GRoute, GDur, GUsb, GCond, GClaim, LArgs, LWriter, LUsb, LSnap, LMatch, LDur, LToken, LClaim, RRoute, RUsb;
    hide RDur, RCond, RClaim;
    InvalidateControl(t, l, sh);
    InvalidateSeen(t, l, sh);
    InvalidateDurable(t, l, sh);
    InvalidateClaims(t, l, sh);
    InvalidateShared(t, l, sh);
    if u != t { InvalidateQuiet(t, u, l, sh); }
  }

  lemma InvEnterKept(t: nat, u: nat, l: Local, sh: Shared, c: Call)
    requires Global(sh) && Thread(t, l, sh)
    requires l.pc.Invalidating? && l.pc.iv.InvEnter?
    ensures StepKept(t, u, l, sh, c)
  {
    hide GRoute, GDur, GUsb, GCond, GClaim, LArgs, LWriter, LUsb, LSnap, LMatch, LDur, LToken, LClaim, RRoute, RUsb;
    hide RDur, RCond, RClaim;
    InvEnterControl(t, l, sh);
    InvEnterRest(t, l, sh);
    InvEnterShared(t, l, sh);
    if u != t { InvEnterQuiet(t, u, l, sh); }
  }

  lemma TokenFillKept(t: nat, u: nat, l: Local, sh: Shared, c: Call)
    requires Global(sh) && Thread(t, l, sh)
    requires l.pc.Claiming? && FillsToken(l.pc)
    ensures StepKept(t, u, l, sh, c)
  {
    hide GRoute, GDur, GUsb, GCond, GClaim, LArgs, LWriter, LUsb, LSnap, LMatch, LDur, LToken, LClaim, RRoute, RUsb;
    hide RDur, RCond, RClaim;
    TokenFillControl(t, l, sh);
    TokenFillRest(t, l, sh);
    TokenFillShared(t, l, sh);
    if u != t { TokenFillQuiet(t, u, l, sh); }
  }

  lemma ClaimKept(t: nat, u: nat, l: Local, sh: Shared, c: Call)
    requires Global(sh) && Thread(t, l, sh)
    requires l.pc.Claiming? && !FillsToken(l.pc)
    ensures StepKept(t, u, l, sh, c)
  {
    hide GRoute, GDur, GUsb, GCond, GClaim, LArgs, LWriter, LUsb, LSnap, LMatch, LDur, LToken, LClaim, RRoute, RUsb;
    hide RDur, RCond, RClaim;
    ClaimControl(t, l, sh);
    ClaimSeen(t, l, sh);
    ClaimDurable(t, l, sh);
    ClaimToken(t, l, sh);
    ClaimClaim(t, l, sh);
    ClaimShared(t, l, sh);
    if u != t { ClaimQuiet(t, u, l, sh); }
  }

  lemma ClaimHeldKept(t: nat, u: nat, l: Local, sh: Shared, c: Call)
    requires Global(sh) && Thread(t, l, sh)
    requires l.pc.ClaimExact? || l.pc.ClaimInexact?
    ensures StepKept(t, u, l, sh, c)
  {
    hide GRoute, GDur, GUsb, GCond, GClaim, LArgs, LWriter, LUsb, LSnap, LMatch, LDur, LToken, LClaim, RRoute, RUsb;
    hide RDur, RCond, RClaim;
    ClaimHeldControl(t, l, sh);
    ClaimHeldRest(t, l, sh);
    ClaimHeldShared(t, l, sh);
    if u != t { ClaimHeldQuiet(t, u, l, sh); }
  }

  lemma CancelKept(t: nat, u: nat, l: Local, sh: Shared, c: Call)
    requires Global(sh) && Thread(t, l, sh)
    requires l.pc.Cancelling?
    ensures StepKept(t, u, l, sh, c)
  {
    hide GRoute, GDur, GUsb, GCond, GClaim, LArgs, LWriter, LUsb, LSnap, LMatch, LDur, LToken, LClaim, RRoute, RUsb;
    hide RDur, RCond, RClaim;
    CancelWriter(t, l, sh);
    CancelUsb(t, l, sh);
    CancelSeen(t, l, sh);
    CancelDurable(t, l, sh);
    CancelToken(t, l, sh);
    CancelClaim(t, l, sh);
    CancelShared(t, l, sh);
    if u != t { CancelQuiet(t, u, l, sh); }
  }

  lemma HeldClaimKept(t: nat, u: nat, l: Local, sh: Shared, c: Call)
    requires Global(sh) && Thread(t, l, sh)
    requires l.pc.ClaimRetired? || l.pc.ClaimRetireCancelled? || l.pc.ClaimReleased?
    ensures StepKept(t, u, l, sh, c)
  {
    hide GRoute, GDur, GUsb, GCond, GClaim, LArgs, LWriter, LUsb, LSnap, LMatch, LDur, LToken, LClaim, RRoute, RUsb;
    hide RDur, RCond, RClaim;
    HeldClaimControl(t, l, sh);
    HeldClaimReads(t, l, sh);
    HeldClaimClaims(t, l, sh);
    HeldClaimShared(t, l, sh);
    if u != t { HeldClaimQuiet(t, u, l, sh); }
  }

  lemma UsbCallKept(t: nat, u: nat, l: Local, sh: Shared, c: Call)
    requires Global(sh) && Thread(t, l, sh)
    requires l.pc.UsbCall?
    ensures StepKept(t, u, l, sh, c)
  {
    hide GRoute, GDur, GUsb, GCond, GClaim, LArgs, LWriter, LUsb, LSnap, LMatch, LDur, LToken, LClaim, RRoute, RUsb;
    hide RDur, RCond, RClaim;
    UsbCallControl(t, l, sh);
    UsbCallRest(t, l, sh);
    UsbCallShared(t, l, sh);
    if u != t { UsbCallQuiet(t, u, l, sh); }
  }

  lemma ReturnKept(t: nat, u: nat, l: Local, sh: Shared, c: Call)
    requires Global(sh) && Thread(t, l, sh)
    requires Returning(l.pc)
    ensures StepKept(t, u, l, sh, c)
  {
    hide GRoute, GDur, GUsb, GCond, GClaim, LArgs, LWriter, LUsb, LSnap, LMatch, LDur, LToken, LClaim, RRoute, RUsb;
    hide RDur, RCond, RClaim;
    ReturnControl(t, l, sh, c);
    ReturnRest(t, l, sh, c);
    ReturnShared(t, l, sh, c);
    Quiet(u, sh);
  }

  lemma IdleThread(t: nat, l: Local, sh: Shared, c: Call)
    requires Global(sh) && Thread(t, l, sh)
    requires l.pc.Idle? && CallAllowed(sh, l, c)
    ensures var (l', sh') := StepIdle(l, sh, c); |sh'.r.published| > 0 && Thread(t, l', sh')
  {
    IdleWriter(t, l, sh, c);
    IdleUsb(t, l, sh, c);
    IdleReads(t, l, sh, c);
    IdleToken(t, l, sh, c);
    IdleClaim(t, l, sh, c);
  }

  lemma IdleKept(t: nat, u: nat, l: Local, sh: Shared, c: Call)
    requires Global(sh) && Thread(t, l, sh)
    requires l.pc.Idle?
    ensures StepKept(t, u, l, sh, c)
  {
    hide GRoute, GDur, GUsb, GCond, GClaim, LArgs, LWriter, LUsb, LSnap, LMatch, LDur, LToken, LClaim, RRoute, RUsb;
    hide RDur, RCond, RClaim;
    if CallAllowed(sh, l, c) {
      IdleThread(t, l, sh, c);
      IdleShared(t, l, sh, c);
      if u != t { IdleQuiet(t, u, l, sh, c); }
    } else {
      Quiet(u, sh);
    }
  }

  lemma TransitionKept(t: nat, u: nat, l: Local, sh: Shared, c: Call)
    requires Global(sh) && Thread(t, l, sh)
    requires l.pc.Entering? || l.pc.Committing? || l.pc.Staging? || l.pc.Completing? || l.pc.Verdict?
    ensures StepKept(t, u, l, sh, c)
  {
    if l.pc.Entering? { EnteringKept(t, u, l, sh, c); }
    else if l.pc.Staging? { StageKept(t, u, l, sh, c); }
    else if l.pc.Completing? { ReleaseKept(t, u, l, sh, c); }
    else if l.pc.Verdict? { VerdictKept(t, u, l, sh, c); }
    else if CommitBegins(l.pc.co) { CommitBeginKept(t, u, l, sh, c); }
    else if CommitUndoes(l.pc.co) { CommitUndoKept(t, u, l, sh, c); }
    else { CommitStoreKept(t, u, l, sh, c); }
  }

  lemma LeavingKept(t: nat, u: nat, l: Local, sh: Shared, c: Call)
    requires Global(sh) && Thread(t, l, sh)
    requires l.pc.Retiring? || l.pc.Leaving? || l.pc.Invalidating? || l.pc.UsbCall?
    ensures StepKept(t, u, l, sh, c)
  {
    if l.pc.Leaving? { LeaveKept(t, u, l, sh, c); }
    else if l.pc.UsbCall? { UsbCallKept(t, u, l, sh, c); }
    else if l.pc.Invalidating? {
      if l.pc.iv.InvEnter? { InvEnterKept(t, u, l, sh, c); } else { InvalidateKept(t, u, l, sh, c); }
    }
    else if RetireBegins(l.pc.rt) { RetireBeginKept(t, u, l, sh, c); }
    else { RetireStoreKept(t, u, l, sh, c); }
  }

  lemma ClaimingKept(t: nat, u: nat, l: Local, sh: Shared, c: Call)
    requires Global(sh) && Thread(t, l, sh)
    requires l.pc.Claiming? || l.pc.ClaimExact? || l.pc.ClaimInexact? || l.pc.Cancelling?
    ensures StepKept(t, u, l, sh, c)
  {
    if l.pc.ClaimExact? || l.pc.ClaimInexact? { ClaimHeldKept(t, u, l, sh, c); }
    else if l.pc.Cancelling? { CancelKept(t, u, l, sh, c); }
    else if FillsToken(l.pc) { TokenFillKept(t, u, l, sh, c); }
    else { ClaimKept(t, u, l, sh, c); }
  }

  lemma ReadingKept(t: nat, u: nat, l: Local, sh: Shared, c: Call)
    requires Global(sh) && Thread(t, l, sh)
    requires l.pc.Snapping? || l.pc.Matching? || l.pc.Pending?
    ensures StepKept(t, u, l, sh, c)
  {
    if l.pc.Matching? { MatchesKept(t, u, l, sh, c); }
    else if l.pc.Pending? { PendingKept(t, u, l, sh, c); }
    else if SnapLoads(l.pc.sn) { SnapshotLoadKept(t, u, l, sh, c); }
    else { SnapshotEndKept(t, u, l, sh, c); }
  }

  /** Whatever thread t does next, the invariant holds again and every other thread is left in peace. */
  lemma EveryStepKept(t: nat, u: nat, l: Local, sh: Shared, c: Call)
    requires Global(sh) && Thread(t, l, sh)
    ensures StepKept(t, u, l, sh, c)
  {
    hide GRoute, GDur, GUsb, GCond, GClaim, LArgs, LWriter, LUsb, LSnap, LMatch, LDur, LToken, LClaim, RRoute, RUsb;
    hide RDur, RCond, RClaim;
    if l.pc.Idle? {
      IdleKept(t, u, l, sh, c);
    } else if l.pc.Entering? || l.pc.Committing? || l.pc.Staging? || l.pc.Completing? || l.pc.Verdict? {
      TransitionKept(t, u, l, sh, c);
    } else if l.pc.Retiring? || l.pc.Leaving? || l.pc.Invalidating? || l.pc.UsbCall? {
      LeavingKept(t, u, l, sh, c);
    } else if l.pc.Claiming? || l.pc.ClaimExact? || l.pc.ClaimInexact? || l.pc.Cancelling? {
      ClaimingKept(t, u, l, sh, c);
    } else if l.pc.Snapping? || l.pc.Matching? || l.pc.Pending? {
      ReadingKept(t, u, l, sh, c);
    } else if l.pc.ClaimRetired? || l.pc.ClaimRetireCancelled? || l.pc.ClaimReleased? {
      HeldClaimKept(t, u, l, sh, c);
    } else {
      ReturnKept(t, u, l, sh, c);
    }
  }
}
