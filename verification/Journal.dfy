/**
 The attempt journal (authority_service.py, lines 52-62 and 112-327): begin, activate, record,
 prepare, seal, each of which may be cut at any point and tried again.  Filesystem identities
 and the root-owned installation are one yes-or-no check each.
 */
module Journal {
  import opened EvidenceContract

  /** `authority` is the digest of the snapshot. */
  datatype Handle = Handle(run: string, capture: string, runtime: string, authority: Snapshot)

  datatype Outcome = Pass | Fail

  datatype Test = Test(handle: Handle, outcome: Outcome, details: string)

  datatype Evidence = Evidence(
    handle: Handle, required: bool, status: Status, receipt: Option<Receipt>, error: Option<string>)

  datatype Prepared = Prepared(handle: Handle, snapshot: Snapshot, request: Request, test: Test, evidence: Evidence)

  datatype Code = EvidenceFinalizationFailed | Success | TestFailed

  /** `objects` identifies the package files the commit describes. */
  datatype Commit = Commit(handle: Handle, objects: map<string, nat>, test: Outcome, evidence: Status, code: Code)

  datatype Value =
    | SnapshotValue(snapshot: Snapshot)
    | HandleValue(handle: Handle)
    | RequestValue(of: Handle, request: Request)
    | RequiredValue(handle: Handle, request: Request)
    | TestValue(test: Test)
    | EvidenceValue(evidence: Evidence)
    | PreparedValue(prepared: Prepared)
    | CommitValue(commit: Commit)

  const AUTHORITY := "authority.json"
  const HANDLE := "handle.json"
  const REQUEST := "request.json"
  const REQUIRED := "evidence-required.json"
  const TEST := "test.json"
  const EVIDENCE := "evidence.json"
  const PREPARED := "prepared.json"
  const COMMIT := "commit.json"
  const MANIFEST := "manifest.json"
  const INDEX := "index.json"

  function HandleOf(s: Snapshot): Handle { Handle(s.run, s.capture, s.runtime, s) }

  function RequestOf(h: Handle): Request {
    var s := h.authority;
    Request(s.run, s.capture, if s.classification.Rehearsal? then "REHEARSAL_HCI" else "Q8_HCI", s,
            s.helper, s.maxSeconds)
  }

  function CodeOf(test: Outcome, evidence: Status): Code {
    if !evidence.Finalized? then EvidenceFinalizationFailed else if test.Pass? then Success else TestFailed
  }

  type Entries = map<string, Value>

  // ---------------------------------------------------------------- what the journal promises

  ghost predicate HasSnapshot(j: Entries) { AUTHORITY in j && j[AUTHORITY].SnapshotValue? }

  ghost predicate HasHandle(j: Entries) { HANDLE in j && j[HANDLE].HandleValue? }

  ghost predicate HasTest(j: Entries) { TEST in j && j[TEST].TestValue? }

  ghost predicate HasEvidence(j: Entries) { EVIDENCE in j && j[EVIDENCE].EvidenceValue? }

  ghost predicate HasPrepared(j: Entries) { PREPARED in j && j[PREPARED].PreparedValue? }

  /** The first three records are written in this order and agree. */
  ghost predicate BeginningOk(j: Entries) {
    && (AUTHORITY in j ==> HasSnapshot(j))
    && (HANDLE in j ==> HasSnapshot(j) && j[HANDLE] == HandleValue(HandleOf(j[AUTHORITY].snapshot)))
    && (REQUEST in j ==> HasHandle(j) && j[REQUEST] == RequestValue(j[HANDLE].handle, RequestOf(j[HANDLE].handle)))
    && (REQUIRED in j ==>
          REQUEST in j && HasHandle(j) && j[REQUIRED] == RequiredValue(j[HANDLE].handle, RequestOf(j[HANDLE].handle)))
    && (TEST in j ==> REQUEST in j && HasTest(j) && HasHandle(j) && j[TEST].test.handle == j[HANDLE].handle)
  }

  /** Evidence says whether it was required, and if so rests on a valid receipt or is failed. */
  ghost predicate EvidenceSound(e: Evidence, required: bool, h: Handle) {
    && e.handle == h && e.required == required
    && (!required ==> e.status.Finalized? && e.receipt.None?)
    && (required && e.status.Finalized? ==> e.receipt.Some? && e.receipt.value.status.Finalized?)
    && (e.receipt.Some? ==> ValidReceipt(e.receipt.value, RequestOf(h)) && e.receipt.value.status == e.status)
  }

  ghost predicate EvidenceOk(j: Entries) {
    EVIDENCE in j ==>
      && HasEvidence(j) && HasHandle(j) && HasTest(j)
      && EvidenceSound(j[EVIDENCE].evidence, REQUIRED in j, j[HANDLE].handle)
      && (j[HANDLE].handle.authority.classification.Official? && j[TEST].test.outcome.Pass? ==>
            j[EVIDENCE].evidence.required)
  }

  /** What is sealed is what was recorded. */
  ghost predicate SealingOk(j: Entries) {
    && (PREPARED in j ==>
          && HasPrepared(j) && HasHandle(j) && HasTest(j) && HasEvidence(j)
          && j[PREPARED].prepared == Prepared(j[HANDLE].handle, j[HANDLE].handle.authority, RequestOf(j[HANDLE].handle),
                                              j[TEST].test, j[EVIDENCE].evidence))
    && (COMMIT in j ==>
          && HasPrepared(j) && j[COMMIT].CommitValue?
          && var p, c := j[PREPARED].prepared, j[COMMIT].commit;
             c.handle == p.handle && c.test == p.test.outcome && c.evidence == p.evidence.status
             && c.code == CodeOf(c.test, c.evidence))
  }

  /** An official attempt that passed without its evidence having been activated. */
  ghost predicate NeedsActivation(j: Entries) {
    && HasHandle(j) && j[HANDLE].handle.authority.classification.Official?
    && HasTest(j) && j[TEST].test.outcome.Pass? && REQUIRED !in j
  }

  ghost predicate JournalOk(j: Entries) { BeginningOk(j) && EvidenceOk(j) && SealingOk(j) }

  /** The attempt has begun with this handle, for this owner. */
  ghost predicate Loads(j: Entries, expected: Handle, uid: nat) {
    REQUEST in j && HANDLE in j && j[HANDLE] == HandleValue(expected) && expected.authority.uid == uid
  }

  /** The three records of an attempt's beginning. */
  ghost function Beginning(s: Snapshot): Entries {
    var h := HandleOf(s);
    map[AUTHORITY := SnapshotValue(s), HANDLE := HandleValue(h), REQUEST := RequestValue(h, RequestOf(h))]
  }

  /** A finalized receipt must be produced again, the same. */
  ghost predicate Reproduced(e: Evidence, produced: Produced) {
    e.status.Finalized? && e.receipt.Some? ==> produced == Returned(e.receipt.value)
  }

  /** The capture producer answers with a valid receipt of a finalized capture. */
  ghost predicate Proves(produced: Produced, h: Handle) {
    produced.Returned? && ValidReceipt(produced.receipt, RequestOf(h)) && produced.receipt.status.Finalized?
  }

  // ---------------------------------------------------------------- the service

  datatype BundleFile = BundleFile(content: Value, inode: nat)

  datatype Result<T> = Ok(value: T) | Error

  /** What the capture producer answers. */
  datatype Produced = Broken | Returned(receipt: Receipt)

  class Authority {
    const d: Directory<Value>
    var made: bool                          // the attempt's directory
    var bundle: map<string, BundleFile>
    var nextObject: nat

    ghost predicate Valid()
      reads this, d
    {
      && JournalOk(d.entries)
      && (!made ==> d.entries == map[])
      && (bundle != map[] ==> HasPrepared(d.entries) && PackageOk(bundle, d.entries[PREPARED].prepared))
      && (COMMIT in d.entries ==> Complete(bundle) && d.entries[COMMIT].CommitValue?
                                  && d.entries[COMMIT].commit.objects == Objects(bundle))
    }

    constructor (undisturbed: bool)
      ensures Valid() && !made && d.entries == map[] && bundle == map[] && fresh(d) && d.undisturbed == undisturbed
    {
      d := new Directory<Value>(undisturbed);
      made, bundle, nextObject := false, map[], 0;
    }

    /** Some check of the installation or of the filesystem that the journal does not decide. */
    method Intact() returns (ok: bool)
      ensures d.undisturbed ==> ok
    {
      ok := *;
      ok := ok || d.undisturbed;
    }

    /** begin: the attempt's directory can be made once, so a begin that was cut is never continued. */
    method Begin(snapshot: Snapshot) returns (r: Result<Handle>)
      requires Valid()
      modifies this, d`entries, d`pending
      ensures Valid() && Extends(old(d.entries), d.entries)
      ensures r.Ok? ==> r.value == HandleOf(snapshot) && d.entries == Beginning(snapshot) && !old(made)
      ensures old(made) || !(1 <= snapshot.maxSeconds <= 3600) ==> r.Error? && d.entries == old(d.entries)
      ensures d.undisturbed && !old(made) && 1 <= snapshot.maxSeconds <= 3600 ==> r.Ok?
      ensures bundle == old(bundle)
    {
      var intact := Intact();
      if !intact || made || !(1 <= snapshot.maxSeconds <= 3600) {
        return Error;
      }
      made := true;
      d.ClearPending();
      var h := HandleOf(snapshot);
      var ok := d.WriteOnce(AUTHORITY, SnapshotValue(snapshot));
      if !ok { return Error; }
      ok := d.WriteOnce(HANDLE, HandleValue(h));
      if !ok { return Error; }
      ok := d.WriteOnce(REQUEST, RequestValue(h, RequestOf(h)));
      if !ok { return Error; }
      intact := Intact();
      return if intact then Ok(h) else Error;
    }

    /** load_locked: the handle is the recorded one and everything recorded at the beginning agrees. */
    method LoadLocked(expected: Handle, uid: nat) returns (ok: bool)
      requires Valid()
      modifies d`pending
      ensures Valid()
      ensures ok ==> Loads(d.entries, expected, uid)
      ensures d.undisturbed ==> (ok <==> Loads(d.entries, expected, uid))
    {
      d.ClearPending();
      if HANDLE !in d.entries || d.entries[HANDLE] != HandleValue(expected) {
        return false;
      }
      if AUTHORITY !in d.entries || d.entries[AUTHORITY] != SnapshotValue(expected.authority) {
        return false;
      }
      var s := expected.authority;
      if s.uid != uid || s.run != expected.run || s.capture != expected.capture || s.runtime != expected.runtime {
        return false;
      }
      if REQUEST !in d.entries || d.entries[REQUEST] != RequestValue(expected, RequestOf(expected)) {
        return false;
      }
      ok := Intact();
    }

    /** activate: only before the test outcome and the evidence are recorded. */
    method Activate(expected: Handle, uid: nat) returns (ok: bool)
      requires Valid()
      modifies d`entries, d`pending
      ensures Valid() && Extends(old(d.entries), d.entries)
      ensures ok ==> d.entries == old(d.entries)[REQUIRED := RequiredValue(expected, RequestOf(expected))]
      ensures d.undisturbed ==>
                (ok <==> Loads(old(d.entries), expected, uid) && TEST !in old(d.entries) && EVIDENCE !in old(d.entries))
      ensures TEST in old(d.entries) || EVIDENCE in old(d.entries) ==> !ok && d.entries == old(d.entries)
    {
      var loaded := LoadLocked(expected, uid);
      if !loaded || TEST in d.entries || EVIDENCE in d.entries {
        return false;
      }
      ok := d.WriteOnce(REQUIRED, RequiredValue(expected, RequestOf(expected)));
    }

    method Record(expected: Handle, uid: nat, outcome: Outcome, details: string) returns (ok: bool)
      requires Valid()
      modifies d`entries, d`pending
      ensures Valid() && Extends(old(d.entries), d.entries)
      ensures ok ==> d.entries == old(d.entries)[TEST := TestValue(Test(expected, outcome, details))]
      ensures d.undisturbed ==>
                (ok <==> Loads(old(d.entries), expected, uid)
                         && (TEST in old(d.entries) ==>
                               old(d.entries)[TEST] == TestValue(Test(expected, outcome, details))))
    {
      var loaded := LoadLocked(expected, uid);
      if !loaded {
        return false;
      }
      ok := d.WriteOnce(TEST, TestValue(Test(expected, outcome, details)));
    }

    /** The evidence that prepare records: failed unless the producer returns a valid receipt. */
    method CollectEvidence(expected: Handle, required: bool, produced: Produced) returns (e: Evidence)
      ensures EvidenceSound(e, required, expected)
      ensures e.status.Finalized? <==> !required || Proves(produced, expected)
      ensures e.receipt.Some? ==> produced == Returned(e.receipt.value)
      ensures required && (produced.Broken? || !ValidReceipt(produced.receipt, RequestOf(expected))) ==>
                e.receipt.None? && e.error == Some("CAPTURE_VERIFY_FAILED")
    {
      if !required {
        return Evidence(expected, false, Finalized, None, None);
      }
      if produced.Returned? && ValidReceipt(produced.receipt, RequestOf(expected)) {
        var receipt := produced.receipt;
        return Evidence(expected, true, receipt.status, Some(receipt), receipt.error);
      }
      return Evidence(expected, true, Failed, None, Some("CAPTURE_VERIFY_FAILED"));
    }

    method Prepare(expected: Handle, uid: nat, produced: Produced) returns (r: Result<Prepared>)
      requires Valid()
      modifies d`entries, d`pending
      ensures Valid() && Extends(old(d.entries), d.entries)
      ensures r.Ok? ==> HasPrepared(d.entries) && d.entries[PREPARED].prepared == r.value && r.value.handle == expected
      ensures r.Ok? && EVIDENCE !in old(d.entries) ==>
                && (r.value.evidence.status.Finalized? <==>
                      REQUIRED !in old(d.entries) || Proves(produced, expected))
                && (r.value.evidence.receipt.Some? ==> produced == Returned(r.value.evidence.receipt.value))
      ensures d.undisturbed ==>
                (r.Ok? <==> Loads(old(d.entries), expected, uid) && TEST in old(d.entries)
                            && (NeedsActivation(old(d.entries)) ==> EVIDENCE in old(d.entries)))
      ensures NeedsActivation(old(d.entries)) && EVIDENCE !in old(d.entries) ==> r.Error? && d.entries == old(d.entries)
    {
      var loaded := LoadLocked(expected, uid);
      if !loaded || TEST !in d.entries || !d.entries[TEST].TestValue? || d.entries[TEST].test.handle != expected {
        return Error;
      }
      var test := d.entries[TEST].test;
      if EVIDENCE !in d.entries {
        var required := REQUIRED in d.entries;
        if required && d.entries[REQUIRED] != RequiredValue(expected, RequestOf(expected)) {
          return Error;
        }
        if expected.authority.classification.Official? && test.outcome.Pass? && !required {
          return Error;
        }
        var collected := CollectEvidence(expected, required, produced);
        var ok := d.WriteOnce(EVIDENCE, EvidenceValue(collected));
        if !ok {
          return Error;
        }
      }
      if !d.entries[EVIDENCE].EvidenceValue? || d.entries[EVIDENCE].evidence.handle != expected {
        return Error;
      }
      var evidence := d.entries[EVIDENCE].evidence;
      if evidence.receipt.Some? && !ValidReceipt(evidence.receipt.value, RequestOf(expected)) {
        return Error;
      }
      var prepared := Prepared(expected, expected.authority, RequestOf(expected), test, evidence);
      var written := d.WriteOnce(PREPARED, PreparedValue(prepared));
      return if written then Ok(prepared) else Error;
    }

    /** One package file: kept if it is there, else a new object. */
    method WritePackage(name: string, content: Value) returns (ok: bool)
      modifies `bundle, `nextObject
      ensures bundle == old(bundle)
              || (name !in old(bundle) && bundle == old(bundle)[name := BundleFile(content, old(nextObject))])
      ensures ok ==> name in bundle && bundle[name].content == content
      ensures d.undisturbed && (name in old(bundle) ==> old(bundle)[name].content == content) ==> ok
      ensures nextObject >= old(nextObject)
    {
      if name in bundle {
        return bundle[name].content == content;
      }
      var cut := d.Cut();
      if cut { return false; }
      bundle, nextObject := bundle[name := BundleFile(content, nextObject)], nextObject + 1;
      cut := d.Cut();
      return !cut;
    }

    /** The files of the package, in their order; a cut leaves a part of them. */
    method WritePackages(p: Prepared) returns (ok: bool)
      requires PackageOk(bundle, p)
      modifies `bundle, `nextObject
      ensures PackageOk(bundle, p) && (ok ==> Complete(bundle)) && (d.undisturbed ==> ok)
      ensures forall name :: name in old(bundle) ==> name in bundle && bundle[name] == old(bundle)[name]
    {
      var names := NAMES;
      var k := 0;
      while k < |names|
        invariant 0 <= k <= |names| && PackageOk(bundle, p)
        invariant forall name :: name in old(bundle) ==> name in bundle && bundle[name] == old(bundle)[name]
        invariant forall i :: 0 <= i < k ==> names[i] in bundle
      {
        ok := WritePackage(names[k], FileContent(p, names[k]));
        if !ok { return; }
        k := k + 1;
      }
      return true;
    }

    /**
     seal: a repeated seal gives the commit that is recorded, or an error; the commit describes a
     complete bundle of exactly what was prepared.
     */
    method Seal(expected: Handle, uid: nat, claimed: Prepared, produced: Produced) returns (r: Result<Commit>)
      requires Valid()
      modifies this, d`entries, d`pending
      ensures Valid() && Extends(old(d.entries), d.entries)
      ensures d.undisturbed ==>
                (r.Ok? <==> Loads(old(d.entries), expected, uid) && claimed.handle == expected
                            && PREPARED in old(d.entries) && old(d.entries)[PREPARED] == PreparedValue(claimed)
                            && Reproduced(claimed.evidence, produced))
      ensures r.Ok? ==> COMMIT in d.entries && d.entries[COMMIT] == CommitValue(r.value) && Complete(bundle)
      ensures COMMIT in old(d.entries) && r.Ok? ==> old(d.entries)[COMMIT] == CommitValue(r.value)
      ensures r.Ok? ==> HasPrepared(d.entries) && d.entries[PREPARED].prepared == claimed
    {
      var loaded := LoadLocked(expected, uid);
      if !loaded || claimed.handle != expected
         || PREPARED !in d.entries || d.entries[PREPARED] != PreparedValue(claimed)
      {
        return Error;
      }
      if claimed.snapshot != expected.authority || claimed.request != RequestOf(expected)
         || TEST !in d.entries || d.entries[TEST] != TestValue(claimed.test)
         || EVIDENCE !in d.entries || d.entries[EVIDENCE] != EvidenceValue(claimed.evidence)
      {
        return Error;
      }
      var evidence := claimed.evidence;
      if evidence.required != (REQUIRED in d.entries) {
        return Error;
      }
      if evidence.status.Finalized? && evidence.receipt.Some? && produced != Returned(evidence.receipt.value) {
        return Error;
      }
      var intact := Intact();
      if COMMIT !in d.entries {
        if !intact {
          return Error;
        }
        var written := WritePackages(claimed);
        if !written {
          return Error;
        }
      }
      intact := Intact();
      if !intact || !(forall name :: name in NAMES ==> name in bundle) {
        return Error;
      }
      var code := CodeOf(claimed.test.outcome, evidence.status);
      var commit := Commit(expected, Objects(bundle), claimed.test.outcome, evidence.status, code);
      var ok := d.WriteOnce(COMMIT, CommitValue(commit));
      return if ok then Ok(commit) else Error;
    }
  }

  // ---------------------------------------------------------------- whole runs

  datatype Call =
    | CallBegin(snapshot: Snapshot)
    | CallActivate(expected: Handle, uid: nat)
    | CallRecord(expected: Handle, uid: nat, outcome: Outcome, details: string)
    | CallPrepare(expected: Handle, uid: nat, produced: Produced)
    | CallSeal(expected: Handle, uid: nat, claimed: Prepared, produced: Produced)

  /** One call, cut anywhere; the commit is what a seal that succeeds returns. */
  method Perform(service: Authority, call: Call) returns (sealed: Option<Commit>)
    requires service.Valid()
    modifies service, service.d`entries, service.d`pending
    ensures service.Valid() && Extends(old(service.d.entries), service.d.entries)
    ensures sealed.Some? ==> COMMIT in service.d.entries && service.d.entries[COMMIT] == CommitValue(sealed.value)
  {
    sealed := None;
    match call
    case CallBegin(snapshot) => var _ := service.Begin(snapshot);
    case CallActivate(expected, uid) => var _ := service.Activate(expected, uid);
    case CallRecord(expected, uid, outcome, details) => var _ := service.Record(expected, uid, outcome, details);
    case CallPrepare(expected, uid, produced) => var _ := service.Prepare(expected, uid, produced);
    case CallSeal(expected, uid, claimed, produced) =>
      var r := service.Seal(expected, uid, claimed, produced);
      if r.Ok? { sealed := Some(r.value); }
  }

  /** What can be seen of the attempt after a call. */
  datatype Seen = Seen(journal: Entries, bundle: map<string, BundleFile>)

  /** Evidence once recorded: it stays, and it was and is required exactly if activation was and is recorded. */
  ghost predicate RequiredMeansActivated(before: Entries, after: Entries) {
    EVIDENCE in before ==>
      && HasEvidence(before) && HasEvidence(after) && after[EVIDENCE] == before[EVIDENCE]
      && (after[EVIDENCE].evidence.required <==> REQUIRED in before)
      && (REQUIRED in after <==> REQUIRED in before)
  }

  /**
   The code of a commit, from the journal alone: SUCCESS exactly for a recorded PASS with finalized
   evidence, TEST_FAILED exactly for a FAIL with it, EVIDENCE_FINALIZATION_FAILED exactly without it.
   */
  ghost predicate CodeIsExact(j: Entries) {
    COMMIT in j ==>
      && HasTest(j) && HasEvidence(j) && j[COMMIT].CommitValue?
      && var code, finalized := j[COMMIT].commit.code, j[EVIDENCE].evidence.status.Finalized?;
         && (code == Success <==> finalized && j[TEST].test.outcome == Pass)
         && (code == TestFailed <==> finalized && j[TEST].test.outcome == Fail)
         && (code == EvidenceFinalizationFailed <==> !finalized)
  }

  /** In an official attempt SUCCESS rests on a receipt of this very attempt for an accepted, non-empty capture. */
  ghost predicate SuccessIsEarned(j: Entries) {
    COMMIT in j && j[COMMIT].CommitValue? && j[COMMIT].commit.code.Success? ==>
      && HasSnapshot(j) && HasEvidence(j)
      && (j[AUTHORITY].snapshot.classification.Official? ==>
            var r := j[EVIDENCE].evidence.receipt;
            && REQUIRED in j && r.Some? && r.value.status.Finalized?
            && r.value.request.run == j[AUTHORITY].snapshot.run
            && r.value.request.authority == j[AUTHORITY].snapshot
            && r.value.helper == j[AUTHORITY].snapshot.helper
            && r.value.raw.Some? && r.value.raw.value.mode == "0600" && r.value.raw.value.uid == 0
            && r.value.raw.value.relativeName ==
               j[AUTHORITY].snapshot.run + "/" + j[AUTHORITY].snapshot.capture + "/raw-hci"
            && r.value.writer.Some? && WriterAccepted(r.value.writer.value) && r.value.raw.value.bytes > 0)
  }

  ghost predicate Copied(s: Seen, name: string) {
    name in s.bundle && name in s.journal && s.bundle[name].content == s.journal[name]
  }

  /** Of a committed attempt: six files, the four records as in the journal, and the commit's objects are theirs. */
  ghost predicate PackageIsTheRecord(s: Seen) {
    COMMIT in s.journal ==>
      && (forall name :: name in s.bundle <==> name in NAMES)
      && Copied(s, AUTHORITY) && Copied(s, REQUEST) && Copied(s, TEST) && Copied(s, EVIDENCE)
      && s.journal[COMMIT].CommitValue?
      && s.journal[COMMIT].commit.objects.Keys == s.bundle.Keys
      && (forall name :: name in s.bundle ==> s.journal[COMMIT].commit.objects[name] == s.bundle[name].inode)
  }

  ghost predicate SeenOk(s: Seen) {
    && JournalOk(s.journal)
    && (COMMIT in s.journal ==>
          && HasPrepared(s.journal) && PackageOk(s.bundle, s.journal[PREPARED].prepared) && Complete(s.bundle)
          && s.journal[COMMIT].CommitValue? && s.journal[COMMIT].commit.objects == Objects(s.bundle))
  }

  lemma SealedSuccessIsEarned(j: Entries)
    requires JournalOk(j)
    ensures SuccessIsEarned(j) && CodeIsExact(j)
  {
  }

  lemma SealedPackageIsTheRecord(s: Seen)
    requires SeenOk(s)
    ensures PackageIsTheRecord(s)
  {
    hide EvidenceOk;
    if COMMIT in s.journal {
      var p := s.journal[PREPARED].prepared;
      assert NAMES[0] == AUTHORITY && NAMES[1] == REQUEST && NAMES[2] == TEST && NAMES[3] == EVIDENCE;
      assert FileContent(p, AUTHORITY) == s.journal[AUTHORITY];
      assert FileContent(p, REQUEST) == s.journal[REQUEST];
      assert FileContent(p, TEST) == s.journal[TEST];
      assert FileContent(p, EVIDENCE) == s.journal[EVIDENCE];
    }
  }

  /**
   A new attempt under any calls in any order, each cut anywhere, seen before the first call and
   after each: every name that has a value keeps it, every seal that succeeds returns the one
   commit, and the promises hold at every moment.
   */
  method AnyRun(calls: seq<Call>) returns (seen: seq<Seen>, sealed: seq<Commit>)
    ensures |seen| == |calls| + 1 && seen[0] == Seen(map[], map[])
    ensures forall i, j :: 0 <= i <= j < |seen| ==>
              && Extends(seen[i].journal, seen[j].journal)
              && RequiredMeansActivated(seen[i].journal, seen[j].journal)
    ensures forall i :: 0 <= i < |seen| ==>
              CodeIsExact(seen[i].journal) && SuccessIsEarned(seen[i].journal) && PackageIsTheRecord(seen[i])
    ensures forall c, d :: c in sealed && d in sealed ==> c == d
    ensures forall c :: c in sealed ==>
              COMMIT in seen[|calls|].journal && seen[|calls|].journal[COMMIT] == CommitValue(c)
  {
    var service := new Authority(false);
    seen, sealed := [Seen(service.d.entries, service.bundle)], [];
    for k := 0 to |calls|
      invariant service.Valid() && fresh(service) && fresh(service.d)
      invariant |seen| == k + 1 && seen[0] == Seen(map[], map[])
      invariant seen[k] == Seen(service.d.entries, service.bundle)
      invariant forall i :: 0 <= i <= k ==> SeenOk(seen[i])
      invariant forall i, j :: 0 <= i <= j <= k ==> Extends(seen[i].journal, seen[j].journal)
      invariant forall c :: c in sealed ==>
                  COMMIT in service.d.entries && service.d.entries[COMMIT] == CommitValue(c)
    {
      var commit := Perform(service, calls[k]);
      if commit.Some? { sealed := sealed + [commit.value]; }
      seen := seen + [Seen(service.d.entries, service.bundle)];
    }
    forall i | 0 <= i < |seen|
      ensures CodeIsExact(seen[i].journal) && SuccessIsEarned(seen[i].journal) && PackageIsTheRecord(seen[i])
    {
      SealedSuccessIsEarned(seen[i].journal);
      SealedPackageIsTheRecord(seen[i]);
    }
  }

  /** The part of an attempt before its seal, with nothing cut. */
  method PrepareAttempt(service: Authority, snapshot: Snapshot, activated: bool, outcome: Outcome, details: string,
                        produced: Produced) returns (prepared: Result<Prepared>)
    requires service.Valid() && !service.made && service.d.undisturbed && 1 <= snapshot.maxSeconds <= 3600
    modifies service, service.d`entries, service.d`pending
    ensures service.Valid() && Loads(service.d.entries, HandleOf(snapshot), snapshot.uid)
    ensures prepared.Ok? <==> !(snapshot.classification == Official && outcome == Pass && !activated)
    ensures prepared.Ok? ==>
              var p := prepared.value;
              && PREPARED in service.d.entries && service.d.entries[PREPARED] == PreparedValue(p)
              && p.handle == HandleOf(snapshot) && p.test.outcome == outcome && Reproduced(p.evidence, produced)
              && (p.evidence.status.Finalized? <==> !activated || Proves(produced, HandleOf(snapshot)))
  {
    hide ValidReceipt, EvidenceSound;
    var begun := service.Begin(snapshot);
    var h := begun.value;
    if activated {
      var _ := service.Activate(h, snapshot.uid);
    }
    var _ := service.Record(h, snapshot.uid, outcome, details);
    prepared := service.Prepare(h, snapshot.uid, produced);
  }

  /**
   An attempt from its beginning to its seal that nothing cuts: it is sealed, unless it is official,
   passed, and its evidence was not activated.  If evidence was activated, the producer decides
   whether it is finalized.
   */
  method Attempt(snapshot: Snapshot, activated: bool, outcome: Outcome, details: string, produced: Produced)
    returns (commit: Result<Commit>)
    requires 1 <= snapshot.maxSeconds <= 3600
    ensures commit.Ok? <==> !(snapshot.classification == Official && outcome == Pass && !activated)
    ensures commit.Ok? ==>
              && commit.value.handle == HandleOf(snapshot) && commit.value.test == outcome
              && commit.value.objects.Keys == {"authority.json", "request.json", "test.json", "evidence.json",
                                               "manifest.json", "index.json"}
              && commit.value.code ==
                 if activated && !Proves(produced, HandleOf(snapshot)) then EvidenceFinalizationFailed
                 else if outcome == Pass then Success else TestFailed
  {
    var service := new Authority(true);
    var prepared := PrepareAttempt(service, snapshot, activated, outcome, details, produced);
    if prepared.Error? {
      return Error;
    }
    commit := service.Seal(HandleOf(snapshot), snapshot.uid, prepared.value, produced);
    PackageKeys(service.bundle);
  }

  lemma PackageKeys(bundle: map<string, BundleFile>)
    ensures Complete(bundle) && (forall name :: name in bundle ==> name in NAMES) ==>
              Objects(bundle).Keys == {"authority.json", "request.json", "test.json", "evidence.json",
                                       "manifest.json", "index.json"}
  {
    assert NAMES[0] == AUTHORITY && NAMES[1] == REQUEST && NAMES[2] == TEST && NAMES[3] == EVIDENCE;
    assert NAMES[4] == MANIFEST && NAMES[5] == INDEX;
  }

  const NAMES: seq<string> := [AUTHORITY, REQUEST, TEST, EVIDENCE, MANIFEST, INDEX]

  /** The manifest and the index are functions of the four records. */
  function FileContent(p: Prepared, name: string): Value {
    if name == AUTHORITY then SnapshotValue(p.snapshot)
    else if name == REQUEST then RequestValue(p.handle, p.request)
    else if name == TEST then TestValue(p.test)
    else if name == EVIDENCE then EvidenceValue(p.evidence)
    else PreparedValue(p)
  }

  ghost predicate PackageOk(bundle: map<string, BundleFile>, p: Prepared) {
    forall name :: name in bundle ==> name in NAMES && bundle[name].content == FileContent(p, name)
  }

  ghost predicate Complete(bundle: map<string, BundleFile>) { forall name :: name in NAMES ==> name in bundle }

  function Objects(bundle: map<string, BundleFile>): map<string, nat> {
    map name | name in bundle :: bundle[name].inode
  }
}
