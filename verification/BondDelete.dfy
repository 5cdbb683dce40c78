/**
 The journaled removal of one bond and its restart recovery (bond_delete_transaction.hpp).
 The methods return on the first failed access, so what their contracts say of a failure is
 also what they say of a crash at that access.
 */
module BondDelete {
  import opened Decimal
  import opened StoreIdentities
  import opened BondSlots
  import opened BondStore

  // ---------------------------------------------------------------- receipts

  function Receipt(id: Identity): seq<byte> { [1, id.kind] + id.value }

  datatype Decoded = Invalid | Valid(id: Identity)

  function DecodeReceipt(bytes: seq<byte>): Decoded {
    if |bytes| == RECEIPT_SIZE && bytes[0] == 1 && ValidIdentity(IdentityAt(bytes, 1))
    then Valid(IdentityAt(bytes, 1)) else Invalid
  }

  /** A receipt reads back as the identity it was written for, and nothing else does. */
  lemma ReceiptRoundTrip(id: Identity, bytes: seq<byte>)
    ensures DecodeReceipt(bytes) == Valid(id) <==> ValidIdentity(id) && bytes == Receipt(id)
  {
    if DecodeReceipt(bytes) == Valid(id) {
      assert bytes == [bytes[0], bytes[1]] + bytes[2..];
    }
  }

  // ---------------------------------------------------------------- records

  /** The record in slot s belongs to `id`. */
  ghost predicate Holds(bonds: map<string, Entry>, s: Slot, id: Identity)
    requires IsSlot(s)
  {
    && SlotKey(s) in bonds
    && |bonds[SlotKey(s)].bytes| == CATEGORIES[s.c].size
    && RecordIdentity(s, bonds[SlotKey(s)].bytes) == id
  }

  function RecordIdentity(s: Slot, bytes: seq<byte>): Identity
    requires IsSlot(s) && |bytes| == CATEGORIES[s.c].size
  {
    IdentityAt(bytes, CATEGORIES[s.c].identityOffset)
  }

  /** A record a removal of `target` can live with. */
  predicate RecordFits(s: Slot, bytes: seq<byte>, target: Identity)
    requires IsSlot(s)
  {
    && |bytes| == CATEGORIES[s.c].size
    && ValidIdentity(RecordIdentity(s, bytes))
    && (CATEGORIES[s.c].identityOffset == 7 ==> RecordIdentity(s, bytes) == target || IdentityAt(bytes, 0) != target)
  }

  ghost predicate SlotFits(bonds: map<string, Entry>, s: Slot, target: Identity)
    requires IsSlot(s)
  {
    SlotKey(s) in bonds ==> bonds[SlotKey(s)].blob && RecordFits(s, bonds[SlotKey(s)].bytes, target)
  }

  /**
   What the scan accepts: a valid target, a sound layout, and in every slot a sound record that
   is no alias of the target.
   */
  ghost predicate ScanAccepts(bonds: map<string, Entry>, target: Identity) {
    && ValidIdentity(target) && Layout(bonds)
    && forall s :: IsSlot(s) ==> SlotFits(bonds, s, target)
  }

  /** The key is a slot that holds a record of `id`. */
  ghost predicate Owns(bonds: map<string, Entry>, key: string, id: Identity) {
    exists s :: IsSlot(s) && SlotKey(s) == key && Holds(bonds, s, id)
  }

  ghost predicate Absent(d: Disk, id: Identity) {
    && (forall s :: IsSlot(s) ==> !Holds(d.bonds, s, id))
    && id !in d.schemas && id !in d.associations
  }

  /** From d to d' only records of `id` have gone; the receipt aside. */
  ghost predicate OnlyRemoved(d: Disk, d': Disk, id: Identity) {
    && (forall key :: key in d'.bonds ==> key in d.bonds && d'.bonds[key] == d.bonds[key])
    && (forall key :: key in d.bonds && !Owns(d.bonds, key, id) ==> key in d'.bonds)
    && (d'.schemas == d.schemas || d'.schemas == d.schemas - {id})
    && (d'.associations == d.associations || d'.associations == d.associations - {id})
  }

  lemma OnlyRemovedTwice(a: Disk, b: Disk, c: Disk, id: Identity)
    requires OnlyRemoved(a, b, id) && OnlyRemoved(b, c, id)
    ensures OnlyRemoved(a, c, id)
  {
    forall key | key in a.bonds && !Owns(a.bonds, key, id)
      ensures key in c.bonds
    {
      assert key in b.bonds;
      forall s | IsSlot(s) && SlotKey(s) == key
        ensures !Holds(b.bonds, s, id)
      {
      }
    }
  }

  /** An accepted scan stays accepted as records of the target go. */
  lemma ScanStaysAccepted(d: Disk, d': Disk, target: Identity)
    requires OnlyRemoved(d, d', target) && ScanAccepts(d.bonds, target)
    ensures ScanAccepts(d'.bonds, target)
  {
    forall key | key in d'.bonds
      ensures KeyFits(d'.bonds, key)
    {
      assert KeyFits(d.bonds, key);
    }
    forall s | IsSlot(s)
      ensures SlotFits(d'.bonds, s, target)
    {
      assert SlotFits(d.bonds, s, target);
    }
  }

  // ---------------------------------------------------------------- the layouts of the records

  /** The three identity-resolving records of a peer. */
  predicate RpaKey(key: string) { key == "rpa_rec_1" || key == "rpa_rec_2" || key == "rpa_rec_3" }

  lemma RpaSlots(key: string)
    requires RpaKey(key)
    ensures key[..8] == "rpa_rec_"
    ensures exists i :: 1 <= i <= 3 && IsSlot(Slot(1, i)) && SlotKey(Slot(1, i)) == key
  {
    assert PrintNat(1) == "1" && PrintNat(2) == "2" && PrintNat(3) == "3";
    var i := if key == "rpa_rec_1" then 1 else if key == "rpa_rec_2" then 2 else 3;
    assert SlotKey(Slot(1, i)) == "rpa_rec_" + PrintNat(i);
  }

  /**
   The alias rule by the bytes: in an accepted store an RPA record names a peer in its bytes 7 to 13
   and an alias in its bytes 0 to 6, and an alias that is the target belongs to the target.
   */
  lemma AliasOfTargetIsTargets(bonds: map<string, Entry>, target: Identity, key: string)
    requires ScanAccepts(bonds, target) && RpaKey(key) && key in bonds
    ensures var bytes := bonds[key].bytes;
      && |bytes| == 14
      && (Identity(bytes[0], bytes[1..7]) == target ==> Identity(bytes[7], bytes[8..14]) == target)
  {
    RpaSlots(key);
    var i :| 1 <= i <= 3 && IsSlot(Slot(1, i)) && SlotKey(Slot(1, i)) == key;
    assert SlotFits(bonds, Slot(1, i), target);
  }

  /** And one foreign record with such an alias makes every store unacceptable. */
  lemma ForeignAliasIsRefused(bonds: map<string, Entry>, target: Identity, key: string)
    requires RpaKey(key) && key in bonds && |bonds[key].bytes| == 14
    requires var bytes := bonds[key].bytes;
      Identity(bytes[0], bytes[1..7]) == target && Identity(bytes[7], bytes[8..14]) != target
    ensures !ScanAccepts(bonds, target)
  {
    if ScanAccepts(bonds, target) { AliasOfTargetIsTargets(bonds, target, key); }
  }

  // ---------------------------------------------------------------- the scan

  /** The slots before slot (c, index), in the order of the two loops. */
  ghost predicate Before(s: Slot, c: nat, index: nat) { s.c < c || (s.c == c && s.index < index) }

  /** The slots before (c, index) fit, and are selected if they hold the target. */
  ghost predicate Scanned(bonds: map<string, Entry>, target: Identity, selected: seq<bool>, c: nat, index: nat) {
    && |selected| == SLOT_COUNT
    && (forall s :: IsSlot(s) && Before(s, c, index) ==>
          SlotFits(bonds, s, target) && (selected[Position(s)] <==> Holds(bonds, s, target)))
    && (forall s :: IsSlot(s) && !Before(s, c, index) ==> !selected[Position(s)])
  }

  /** One slot of the scan: None if it does not fit or cannot be read, else whether it holds the target. */
  method ScanSlot(store: Store, s: Slot, target: Identity) returns (ok: bool, ours: bool)
    requires IsSlot(s)
    ensures ok ==> SlotFits(store.disk.bonds, s, target) && (ours <==> Holds(store.disk.bonds, s, target))
    ensures store.reliable ==> (ok <==> SlotFits(store.disk.bonds, s, target))
  {
    var read := store.ReadBond(SlotKey(s));
    match read
    case ReadFailed => return false, false;
    case Missing => return true, false;
    case Present(bytes) =>
      if !RecordFits(s, bytes, target) {
        return false, false;
      }
      return true, RecordIdentity(s, bytes) == target;
  }

  method TargetDeleteScan(store: Store, target: Identity, selected: array<bool>) returns (ok: bool)
    requires selected.Length == SLOT_COUNT
    modifies selected
    ensures ok ==> ScanAccepts(store.disk.bonds, target)
    ensures ok ==> forall s :: IsSlot(s) ==> (selected[Position(s)] <==> Holds(store.disk.bonds, s, target))
    ensures store.reliable ==> (ok <==> ScanAccepts(store.disk.bonds, target))
  {
    if !ValidIdentity(target) {
      return false;
    }
    var layout := store.ValidateLayout();
    if !layout {
      return false;
    }
    Clear(selected);
    var slot := 0;
    var c := 0;
    while c < |CATEGORIES|
      invariant 0 <= c <= |CATEGORIES|
      invariant c < |CATEGORIES| ==> slot == Position(Slot(c, 1))
      invariant Scanned(store.disk.bonds, target, selected[..], c, 1)
    {
      var index := 1;
      while index <= CATEGORIES[c].count
        invariant 1 <= index <= CATEGORIES[c].count + 1
        invariant slot == Position(Slot(c, 1)) + index - 1
        invariant Scanned(store.disk.bonds, target, selected[..], c, index)
      {
        var s := Slot(c, index);
        var fits, ours := ScanSlot(store, s, target);
        if !fits {
          return false;
        }
        ghost var was := selected[..];
        selected[slot] := ours;
        SelectNext(store.disk.bonds, target, was, selected[..], s, ours);
        slot := slot + 1;
        index := index + 1;
      }
      NextCategory(store.disk.bonds, target, selected[..], c);
      c := c + 1;
    }
    return true;
  }

  method Clear(selected: array<bool>)
    modifies selected
    ensures forall k :: 0 <= k < selected.Length ==> !selected[k]
  {
    for k := 0 to selected.Length
      invariant forall j :: 0 <= j < k ==> !selected[j]
    {
      selected[k] := false;
    }
  }

  lemma SelectNext(bonds: map<string, Entry>, target: Identity, was: seq<bool>, selected: seq<bool>, s: Slot,
                   ours: bool)
    requires IsSlot(s) && Scanned(bonds, target, was, s.c, s.index)
    requires SlotFits(bonds, s, target) && (ours <==> Holds(bonds, s, target))
    requires Position(s) < |was| && selected == was[Position(s) := ours]
    ensures Scanned(bonds, target, selected, s.c, s.index + 1)
  {
    forall t | IsSlot(t)
      ensures Position(t) < SLOT_COUNT && (Position(t) == Position(s) ==> t == s)
    {
      PositionsDistinct(t, s);
    }
  }

  lemma NextCategory(bonds: map<string, Entry>, target: Identity, selected: seq<bool>, c: nat)
    requires c < |CATEGORIES| && Scanned(bonds, target, selected, c, CATEGORIES[c].count + 1)
    ensures Scanned(bonds, target, selected, c + 1, 1)
  {
  }

  // ---------------------------------------------------------------- the steps of a removal

  method VerifyDurableTargetAbsent(store: Store, target: Identity) returns (ok: bool)
    ensures ok ==> ScanAccepts(store.disk.bonds, target) && Absent(store.disk, target)
    ensures store.reliable ==> (ok <==> ScanAccepts(store.disk.bonds, target) && Absent(store.disk, target))
  {
    var selected := new bool[SLOT_COUNT];
    ok := TargetDeleteScan(store, target, selected);
    if !ok {
      return;
    }
    var k := 0;
    while k < selected.Length
      invariant 0 <= k <= selected.Length
      invariant forall s :: IsSlot(s) ==> (selected[Position(s)] <==> Holds(store.disk.bonds, s, target))
      invariant forall s :: IsSlot(s) && Position(s) < k ==> !Holds(store.disk.bonds, s, target)
    {
      if selected[k] {
        SomeSlotAt(k);
        return false;
      }
      k := k + 1;
    }
    ok := store.VerifySchemaAbsent(target);
  }

  /** Every place in the array is some slot's. */
  lemma SomeSlotAt(k: nat)
    requires k < SLOT_COUNT
    ensures exists s :: IsSlot(s) && Position(s) == k
  {
    var c := if k < 15 then 0 else if k < 18 then 1 else if k < 21 then 2 else if k < 24 then 3 else 4;
    var s := Slot(c, k + 1 - FirstPosition(c));
    assert IsSlot(s) && Position(s) == k;
  }

  /** The slots from (c, index) on are as they were, and the target is out of those before. */
  ghost predicate Erasing(d: Disk, now: Disk, target: Identity, c: nat, index: nat) {
    && OnlyRemoved(d, now, target) && now.receipt == d.receipt
    && now.schemas == d.schemas && now.associations == d.associations
    && (forall s :: IsSlot(s) && !Before(s, c, index) ==> (Holds(now.bonds, s, target) <==> Holds(d.bonds, s, target)))
  }

  ghost predicate Erased(now: Disk, target: Identity, c: nat, index: nat) {
    forall s :: IsSlot(s) && Before(s, c, index) ==> !Holds(now.bonds, s, target)
  }

  lemma OthersKept(bonds: map<string, Entry>, s: Slot, t: Slot, target: Identity)
    requires IsSlot(s) && IsSlot(t) && t != s
    ensures Holds(bonds - {SlotKey(s)}, t, target) <==> Holds(bonds, t, target)
  {
    if SlotKey(t) == SlotKey(s) { SlotKeysDistinct(t, s); }
  }

  lemma ErasedOne(d: Disk, now: Disk, now': Disk, s: Slot, target: Identity)
    requires IsSlot(s) && Erasing(d, now, target, s.c, s.index) && Holds(d.bonds, s, target)
    requires now' == now || now' == now.(bonds := now.bonds - {SlotKey(s)})
    ensures Erasing(d, now', target, s.c, s.index + 1)
    ensures Erased(now, target, s.c, s.index) && now'.bonds == now.bonds - {SlotKey(s)} ==>
              Erased(now', target, s.c, s.index + 1)
    ensures SlotKey(s) in now.bonds
  {
    hide Holds, SlotKey, OnlyRemoved;
    HeldKey(now.bonds, s, target);
    ErasedIsTargets(d, now, s, target);
    NotHeld(now.bonds, s, target);
    forall t | IsSlot(t) && t != s
      ensures Holds(now.bonds - {SlotKey(s)}, t, target) <==> Holds(now.bonds, t, target)
    {
      OthersKept(now.bonds, s, t, target);
    }
  }

  lemma HeldKey(bonds: map<string, Entry>, s: Slot, target: Identity)
    requires IsSlot(s) && Holds(bonds, s, target)
    ensures SlotKey(s) in bonds
  {
  }

  lemma ErasedIsTargets(d: Disk, now: Disk, s: Slot, target: Identity)
    requires IsSlot(s) && OnlyRemoved(d, now, target) && Holds(d.bonds, s, target)
    ensures OnlyRemoved(d, now.(bonds := now.bonds - {SlotKey(s)}), target)
  {
    assert Owns(d.bonds, SlotKey(s), target);
  }

  lemma NotHeld(bonds: map<string, Entry>, s: Slot, target: Identity)
    requires IsSlot(s)
    ensures !Holds(bonds - {SlotKey(s)}, s, target)
  {
  }

  lemma SkippedOne(d: Disk, now: Disk, s: Slot, target: Identity)
    requires IsSlot(s) && Erasing(d, now, target, s.c, s.index) && !Holds(d.bonds, s, target)
    ensures Erasing(d, now, target, s.c, s.index + 1)
    ensures Erased(now, target, s.c, s.index) ==> Erased(now, target, s.c, s.index + 1)
  {
    assert !Holds(now.bonds, s, target);
  }

  /** The loops that erase the selected slots, in order, up to the first failure. */
  method EraseSelected(store: Store, target: Identity, selected: array<bool>) returns (ok: bool)
    requires selected.Length == SLOT_COUNT
    requires forall s :: IsSlot(s) ==> (selected[Position(s)] <==> Holds(store.disk.bonds, s, target))
    modifies store`disk
    ensures store.disk == old(store.disk).(bonds := store.disk.bonds)
    ensures OnlyRemoved(old(store.disk), store.disk, target)
    ensures store.reliable ==> ok && forall s :: IsSlot(s) ==> !Holds(store.disk.bonds, s, target)
  {
    hide SlotKey, OnlyRemoved;
    ghost var d := store.disk;
    NothingRemoved(d, target);
    var slot, c := 0, 0;
    while c < |CATEGORIES|
      invariant 0 <= c <= |CATEGORIES|
      invariant c < |CATEGORIES| ==> slot == Position(Slot(c, 1))
      invariant forall s :: IsSlot(s) ==> (selected[Position(s)] <==> Holds(d.bonds, s, target))
      invariant Erasing(d, store.disk, target, c, 1) && (store.reliable ==> Erased(store.disk, target, c, 1))
    {
      var index := 1;
      while index <= CATEGORIES[c].count
        invariant 1 <= index <= CATEGORIES[c].count + 1
        invariant slot == Position(Slot(c, 1)) + index - 1
        invariant forall s :: IsSlot(s) ==> (selected[Position(s)] <==> Holds(d.bonds, s, target))
        invariant Erasing(d, store.disk, target, c, index) && (store.reliable ==> Erased(store.disk, target, c, index))
      {
        var s := Slot(c, index);
        assert slot == Position(s);
        if selected[slot] {
          ghost var before := store.disk;
          ok := store.EraseBond(SlotKey(s));
          ErasedOne(d, before, store.disk, s, target);
          if !ok {
            return;
          }
        } else {
          SkippedOne(d, store.disk, s, target);
        }
        slot := slot + 1;
        index := index + 1;
      }
      assert Erasing(d, store.disk, target, c + 1, 1);
      c := c + 1;
    }
    return true;
  }

  method CompleteDurableTarget(store: Store, target: Identity) returns (ok: bool)
    modifies store`disk
    ensures store.disk.receipt == old(store.disk).receipt
    ensures OnlyRemoved(old(store.disk), store.disk, target)
    ensures ok ==> ScanAccepts(store.disk.bonds, target) && Absent(store.disk, target)
    ensures !ScanAccepts(old(store.disk).bonds, target) ==> store.disk == old(store.disk) && !ok
    ensures store.reliable ==> (ok <==> ScanAccepts(old(store.disk).bonds, target))
  {
    hide SlotKey, Holds, ScanAccepts;
    var selected := new bool[SLOT_COUNT];
    NothingRemoved(store.disk, target);
    ok := TargetDeleteScan(store, target, selected);
    if !ok {
      return;
    }
    ghost var d := store.disk;
    ok := EraseSelected(store, target, selected);
    if !ok {
      return;
    }
    ghost var before := store.disk;
    ok := store.DeleteSchema(target);
    OnlyRemovedTwice(d, before, store.disk, target);
    if ok {
      ScanStaysAccepted(d, store.disk, target);
      ok := VerifyDurableTargetAbsent(store, target);
    }
  }

  // ---------------------------------------------------------------- the receipt

  datatype ReceiptRead = ReceiptFailed | NoReceipt | ReceiptFor(id: Identity)

  /** read_delete_intent */
  method ReadDeleteIntent(store: Store) returns (r: ReceiptRead)
    ensures r.NoReceipt? ==> store.disk.receipt == []
    ensures r.ReceiptFor? ==> DecodeReceipt(store.disk.receipt) == Valid(r.id)
    ensures store.reliable ==>
              (r.ReceiptFailed? <==> store.disk.receipt != [] && DecodeReceipt(store.disk.receipt).Invalid?)
  {
    var read := store.ReadReceipt();
    match read
    case ReadFailed => return ReceiptFailed;
    case Missing => return NoReceipt;
    case Present(bytes) =>
      var decoded := DecodeReceipt(bytes);
      return if decoded.Valid? then ReceiptFor(decoded.id) else ReceiptFailed;
  }

  method BeginDeleteIntent(store: Store, target: Identity) returns (ok: bool)
    modifies store`disk
    ensures store.disk == old(store.disk)
            || (old(store.disk).receipt == [] && store.disk == old(store.disk).(receipt := Receipt(target)))
    ensures ok ==> DecodeReceipt(store.disk.receipt) == Valid(target) && old(store.disk).receipt == []
    ensures store.reliable ==> (ok <==> ValidIdentity(target) && old(store.disk).receipt == [])
  {
    if !ValidIdentity(target) {
      return false;
    }
    var pending := ReadDeleteIntent(store);
    if !pending.NoReceipt? {
      return false;
    }
    ok := store.WriteReceipt(Receipt(target));
    if !ok {
      return;
    }
    pending := ReadDeleteIntent(store);
    ReceiptRoundTrip(target, Receipt(target));
    return pending.ReceiptFor? && pending.id == target;
  }

  method FinishDeleteIntent(store: Store, target: Identity) returns (ok: bool)
    modifies store`disk
    ensures store.disk == old(store.disk)
            || (store.disk == old(store.disk).(receipt := [])
                && ScanAccepts(store.disk.bonds, target) && Absent(store.disk, target))
    ensures ok ==> store.disk.receipt == []
    ensures ok ==> ScanAccepts(store.disk.bonds, target) && Absent(store.disk, target)
    ensures store.reliable ==>
              (ok <==> DecodeReceipt(old(store.disk).receipt) == Valid(target)
                       && ScanAccepts(store.disk.bonds, target) && Absent(store.disk, target))
  {
    var pending := ReadDeleteIntent(store);
    if !pending.ReceiptFor? || pending.id != target {
      return false;
    }
    ok := VerifyDurableTargetAbsent(store, target);
    if !ok {
      return;
    }
    ok := store.EraseReceipt();
    if !ok {
      return;
    }
    pending := ReadDeleteIntent(store);
    return pending.NoReceipt?;
  }

  // ---------------------------------------------------------------- removal and recovery

  /** How far a removal of `target` from `origin` has come: not begun, on record, or done. */
  ghost predicate Recoverable(origin: Disk, now: Disk, target: Identity) {
    && OnlyRemoved(origin, now, target) && ScanAccepts(now.bonds, target)
    && ((now == origin && now.receipt == [])
        || DecodeReceipt(now.receipt) == Valid(target)
        || (now.receipt == [] && Absent(now, target)))
  }

  lemma NothingRemoved(d: Disk, id: Identity)
    ensures OnlyRemoved(d, d, id)
  {
  }

  /**
   Restart recovery.  Without a receipt it does nothing; a receipt that names nobody valid, or a
   store that cannot be scanned, stops it before any erase; otherwise only records of the named
   peer go, and the receipt goes only when they all have.
   */
  method ResumeExactDeletion(store: Store) returns (ok: bool)
    modifies store`disk
    ensures old(store.disk).receipt == [] ==> store.disk == old(store.disk) && (store.reliable ==> ok)
    ensures old(store.disk).receipt != [] && !Resumable(old(store.disk)) ==> store.disk == old(store.disk) && !ok
    ensures Resumable(old(store.disk)) ==> Resumed(old(store.disk), store.disk) && (store.reliable ==> ok)
    ensures ok ==> store.disk.receipt == []
  {
    var pending := ReadDeleteIntent(store);
    match pending
    case ReceiptFailed =>
      NothingRemoved(store.disk, TargetOf(store.disk.receipt));
      return false;
    case NoReceipt => return true;
    case ReceiptFor(id) =>
      ghost var was := store.disk;
      ok := CompleteDurableTarget(store, id);
      if ok {
        ghost var completed := store.disk;
        ok := FinishDeleteIntent(store, id);
        OnlyRemovedTwice(was, completed, store.disk, id);
      }
  }

  const Nobody: Identity := Identity(0, [0, 0, 0, 0, 0, 0])

  ghost function TargetOf(receipt: seq<byte>): Identity {
    if DecodeReceipt(receipt).Valid? then DecodeReceipt(receipt).id else Nobody
  }

  /** There is a valid receipt, and the scan for its target is accepted. */
  ghost predicate Resumable(d: Disk) {
    DecodeReceipt(d.receipt).Valid? && ScanAccepts(d.bonds, TargetOf(d.receipt))
  }

  /** Some of the target's records may have gone; if the receipt has, all of them have. */
  ghost predicate Resumed(d: Disk, d': Disk) {
    var id := TargetOf(d.receipt);
    && OnlyRemoved(d, d', id)
    && (d'.receipt == d.receipt || (d'.receipt == [] && Absent(d', id)))
  }

  lemma ResumeKeepsRecoverable(origin: Disk, d: Disk, d': Disk, target: Identity)
    requires Recoverable(origin, d, target) && (if d.receipt == [] then d' == d else Resumed(d, d'))
    ensures Recoverable(origin, d', target)
    ensures d.receipt != [] ==> Resumable(d)
  {
    if d.receipt != [] {
      OnlyRemovedTwice(origin, d, d', target);
      ScanStaysAccepted(d, d', target);
    }
  }

  /** The NimBLE removal of the live bond: it may take any of the target's own records. */
  method RemoveRam(store: Store, target: Identity)
    modifies store`disk
    ensures OnlyRemoved(old(store.disk), store.disk, target) && store.disk.receipt == old(store.disk).receipt
  {
    ghost var d := store.disk;
    var schema: bool := *;
    if schema { store.disk := store.disk.(schemas := store.disk.schemas - {target}); }
    var c := 0;
    while c < |CATEGORIES|
      invariant 0 <= c <= |CATEGORIES| && OnlyRemoved(d, store.disk, target) && store.disk.receipt == d.receipt
    {
      var index := 1;
      while index <= CATEGORIES[c].count
        invariant 1 <= index <= CATEGORIES[c].count + 1
        invariant OnlyRemoved(d, store.disk, target) && store.disk.receipt == d.receipt
      {
        var s := Slot(c, index);
        var take: bool := *;
        var ours := HasRecordOf(store.disk.bonds, s, target);
        if take && ours {
          assert Owns(d.bonds, SlotKey(s), target);
          store.disk := store.disk.(bonds := store.disk.bonds - {SlotKey(s)});
        }
        index := index + 1;
      }
      c := c + 1;
    }
  }

  predicate HasRecordOf(bonds: map<string, Entry>, s: Slot, target: Identity)
    requires IsSlot(s)
    ensures HasRecordOf(bonds, s, target) <==> Holds(bonds, s, target)
  {
    SlotKey(s) in bonds && |bonds[SlotKey(s)].bytes| == CATEGORIES[s.c].size
    && RecordIdentity(s, bonds[SlotKey(s)].bytes) == target
  }

  /**
   A removal asked for by the user.  A store that the scan does not accept, or that holds a
   receipt already, is left untouched; otherwise every way out is recoverable, and success means
   that the target is gone without a trace.  With a reliable store it succeeds exactly if it was
   not refused and both RAM calls do; if one of them fails, the receipt stays for the restart.
   */
  method RunJournaledRemoval(store: Store, target: Identity, ramRemoved: bool, ramVerified: bool) returns (ok: bool)
    modifies store`disk
    ensures !ScanAccepts(old(store.disk).bonds, target) || old(store.disk).receipt != [] ==>
              store.disk == old(store.disk) && !ok
    ensures ScanAccepts(old(store.disk).bonds, target) && old(store.disk).receipt == [] ==>
              Recoverable(old(store.disk), store.disk, target)
    ensures ok ==> store.disk.receipt == [] && Absent(store.disk, target)
    ensures store.reliable ==>
              (ok <==> ScanAccepts(old(store.disk).bonds, target) && old(store.disk).receipt == []
                       && ramRemoved && ramVerified)
    ensures store.reliable && !ok && ScanAccepts(old(store.disk).bonds, target) && old(store.disk).receipt == [] ==>
              DecodeReceipt(store.disk.receipt) == Valid(target)
  {
    ghost var d := store.disk;
    NothingRemoved(d, target);
    var selected := new bool[SLOT_COUNT];
    ok := TargetDeleteScan(store, target, selected);
    if !ok {
      return;
    }
    ok := BeginDeleteIntent(store, target);
    ReceiptRoundTrip(target, Receipt(target));
    if !ok {
      return;
    }
    ghost var begun := store.disk;
    RemoveRam(store, target);
    ScanStaysAccepted(begun, store.disk, target);
    OnlyRemovedTwice(d, begun, store.disk, target);
    if !ramRemoved {
      return false;
    }
    ghost var removed := store.disk;
    ok := CompleteDurableTarget(store, target);
    OnlyRemovedTwice(d, removed, store.disk, target);
    ScanStaysAccepted(removed, store.disk, target);
    if !ok {
      return;
    }
    if !ramVerified {
      return false;
    }
    ok := FinishDeleteIntent(store, target);
  }

  /**
   A removal that is cut anywhere, any number of restarts that are cut anywhere, and one restart
   that is not: in the end there is no receipt, only the target's records have gone, and they
   have all gone unless the store is as it was.
   */
  method RemovalWithRestarts(store: Store, target: Identity, restarts: nat) returns (ok: bool)
    requires ScanAccepts(store.disk.bonds, target) && store.disk.receipt == []
    modifies store
    ensures ok && store.disk.receipt == []
    ensures OnlyRemoved(old(store.disk), store.disk, target) && ScanAccepts(store.disk.bonds, target)
    ensures Absent(store.disk, target) || store.disk == old(store.disk)
  {
    ghost var origin := store.disk;
    store.reliable := *;
    var ramRemoved: bool, ramVerified: bool := *, *;
    ok := RunJournaledRemoval(store, target, ramRemoved, ramVerified);
    for i := 0 to restarts
      invariant Recoverable(origin, store.disk, target)
    {
      store.reliable := *;
      ghost var d := store.disk;
      ResumeKeepsRecoverable(origin, d, d, target) by { NothingRemoved(d, target); }
      ok := ResumeExactDeletion(store);
      ResumeKeepsRecoverable(origin, d, store.disk, target);
    }
    store.reliable := true;
    ghost var d := store.disk;
    ResumeKeepsRecoverable(origin, d, d, target) by { NothingRemoved(d, target); }
    ok := ResumeExactDeletion(store);
    ResumeKeepsRecoverable(origin, d, store.disk, target);
  }
}
