/**
 What a capture receipt must show (evidence_contract.py, lines 231-271), and the write-once
 directory the journal rests on (lines 207-228).  Digests are modelled by the value digested.
 */
module EvidenceContract {

  datatype Option<T> = None | Some(value: T)

  datatype Helper = Helper(version: int, source: string, contract: string)

  datatype Classification = Rehearsal | Official

  /** The authority of an attempt. */
  datatype Snapshot = Snapshot(
    run: string, capture: string, classification: Classification, uid: nat, runtime: string, helper: Helper,
    maxSeconds: int)

  /** `authority` is the digest of the attempt's snapshot. */
  datatype Request = Request(
    run: string, capture: string, kind: string, authority: Snapshot, helper: Helper, maxSeconds: int)

  datatype Writer = Writer(exitCode: int, requestedStop: bool, reaped: bool, earlyExit: bool, forcedSignal: bool)

  datatype Raw = Raw(
    relativeName: string, device: int, inode: int, digest: string, bytes: int, mode: string, uid: int, gid: int)

  datatype Status = Finalized | Failed

  datatype Receipt = Receipt(
    request: Request, helper: Helper, status: Status, error: Option<string>, raw: Option<Raw>,
    writer: Option<Writer>, counts: seq<int>)

  predicate WriterAccepted(w: Writer) {
    w.exitCode == 0 && w.requestedStop && w.reaped && !w.earlyExit && !w.forcedSignal
  }

  predicate RawFits(raw: Raw, expected: Request) {
    && raw.relativeName == expected.run + "/" + expected.capture + "/raw-hci"
    && raw.device >= 0 && raw.inode >= 0 && raw.bytes >= 0
    && raw.mode == "0600" && raw.uid == 0 && raw.gid == 0
  }

  /** receipt(): the checks that pass exactly for a sound receipt of this request. */
  predicate ValidReceipt(r: Receipt, expected: Request) {
    && r.request == expected && r.helper == expected.helper
    && (r.raw.Some? ==> RawFits(r.raw.value, expected))
    && |r.counts| == 3 && (forall i :: 0 <= i < 3 ==> r.counts[i] >= 0)
    && (if r.status.Finalized? then
          r.error.None? && r.writer.Some? && WriterAccepted(r.writer.value) && r.raw.Some? && r.raw.value.bytes > 0
        else r.error.Some?)
  }

  /**
   A directory whose entries are published by rename and never replaced.  A call may be cut
   anywhere; what is cut before the rename leaves no entry, what is cut after it leaves all of it.
   Nothing is cut while it is undisturbed.
   */
  class Directory<V(==)> {
    var entries: map<string, V>
    var pending: nat            // unpublished temporary files that a cut has left behind
    var undisturbed: bool

    constructor (undisturbed: bool)
      ensures entries == map[] && pending == 0 && this.undisturbed == undisturbed
    {
      entries, pending, this.undisturbed := map[], 0, undisturbed;
    }

    /** Whether the call is cut at this point. */
    method Cut() returns (cut: bool)
      ensures undisturbed ==> !cut
    {
      cut := *;
      cut := cut && !undisturbed;
    }

    /** write_once, under the caller's lock: equal on retry, refused if different. */
    method WriteOnce(name: string, value: V) returns (ok: bool)
      modifies `entries, `pending
      ensures undisturbed && name !in old(entries) ==> ok
      ensures entries == old(entries) || (name !in old(entries) && entries == old(entries)[name := value])
      ensures ok ==> name in entries && entries[name] == value
      ensures name in old(entries) ==> entries == old(entries) && (ok <==> old(entries)[name] == value)
    {
      if name in entries {
        return entries[name] == value;
      }
      var cut := Cut();
      pending := pending + 1;
      if cut { return false; }
      entries, pending := entries[name := value], pending - 1;
      cut := Cut();
      return !cut;
    }

    /** clear_pending */
    method ClearPending()
      modifies `pending
      ensures pending == 0
    {
      pending := 0;
    }
  }

  /** Every name keeps its value. */
  ghost predicate Extends<V(!new)>(before: map<string, V>, after: map<string, V>) {
    forall name :: name in before ==> name in after && after[name] == before[name]
  }
}
