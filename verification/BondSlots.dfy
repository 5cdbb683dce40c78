/**
 The 27 record slots of the bond store and their names (bond_delete_transaction.hpp, lines 44-72).
 */
module BondSlots {
  import opened Decimal

  datatype Category = Category(prefix: string, count: nat, size: nat, identityOffset: nat)

  const CATEGORIES: seq<Category> := [
    Category("cccd_sec_", 15, 16, 0), Category("rpa_rec_", 3, 14, 7), Category("csfc_sec_", 3, 8, 0),
    Category("our_sec_", 3, 88, 0), Category("peer_sec_", 3, 88, 0)]

  const SLOT_COUNT := 27

  /** Slot `index` (from 1) of category `c`. */
  datatype Slot = Slot(c: nat, index: nat)

  predicate IsSlot(s: Slot) { s.c < |CATEGORIES| && 1 <= s.index <= CATEGORIES[s.c].count }

  function SlotKey(s: Slot): string
    requires s.c < |CATEGORIES|
  {
    CATEGORIES[s.c].prefix + PrintNat(s.index)
  }

  /** How many slots the categories before c have. */
  function FirstPosition(c: nat): nat {
    if c == 0 then 0 else if c == 1 then 15 else if c == 2 then 18 else if c == 3 then 21 else 24
  }

  /** Position in the array of selections: the slots of the categories before, then its own. */
  function Position(s: Slot): nat
    requires IsSlot(s)
  {
    FirstPosition(s.c) + s.index - 1
  }

  predicate IsPrefix(p: string, key: string) { |p| <= |key| && key[..|p|] == p }

  /** No prefix begins another, so a key has at most one category. */
  lemma OneCategory(c: nat, d: nat, key: string)
    requires c < |CATEGORIES| && d < |CATEGORIES|
    requires IsPrefix(CATEGORIES[c].prefix, key) && IsPrefix(CATEGORIES[d].prefix, key)
    ensures c == d
  {
    assert key[0] == CATEGORIES[c].prefix[0] == CATEGORIES[d].prefix[0];
    assert key[1] == CATEGORIES[c].prefix[1] == CATEGORIES[d].prefix[1];
  }

  lemma KeyHasPrefix(s: Slot)
    requires s.c < |CATEGORIES|
    ensures IsPrefix(CATEGORIES[s.c].prefix, SlotKey(s))
    ensures SlotKey(s)[|CATEGORIES[s.c].prefix|..] == PrintNat(s.index)
  {
  }

  /** The first and the last name of each category, and what their records look like. */
  lemma SlotNames()
    ensures SlotKey(Slot(0, 1)) == "cccd_sec_1" && SlotKey(Slot(0, 15)) == "cccd_sec_15"
    ensures SlotKey(Slot(1, 1)) == "rpa_rec_1" && SlotKey(Slot(1, 3)) == "rpa_rec_3"
    ensures SlotKey(Slot(2, 1)) == "csfc_sec_1" && SlotKey(Slot(2, 3)) == "csfc_sec_3"
    ensures SlotKey(Slot(3, 1)) == "our_sec_1" && SlotKey(Slot(3, 3)) == "our_sec_3"
    ensures SlotKey(Slot(4, 1)) == "peer_sec_1" && SlotKey(Slot(4, 3)) == "peer_sec_3"
    ensures CATEGORIES[0].size == 16 && CATEGORIES[1].size == 14 && CATEGORIES[2].size == 8
    ensures CATEGORIES[3].size == 88 && CATEGORIES[4].size == 88
    ensures forall s :: IsSlot(s) ==> CATEGORIES[s.c].identityOffset == if s.c == 1 then 7 else 0
  {
    assert PrintNat(1) == "1" && PrintNat(3) == "3" && PrintNat(5) == "5";
    assert PrintNat(15) == PrintNat(1) + PrintNat(5);
  }

  /** The 27 names are distinct. */
  lemma SlotKeysDistinct(s: Slot, t: Slot)
    requires IsSlot(s) && IsSlot(t) && SlotKey(s) == SlotKey(t)
    ensures s == t
  {
    KeyHasPrefix(s);
    KeyHasPrefix(t);
    OneCategory(s.c, t.c, SlotKey(s));
    NatNotPrinted(s.index, t.index);
  }

  lemma PositionsDistinct(s: Slot, t: Slot)
    requires IsSlot(s) && IsSlot(t)
    ensures Position(s) < SLOT_COUNT
    ensures Position(s) == Position(t) ==> s == t
  {
  }

  ghost predicate IsSlotKey(key: string) { exists s :: IsSlot(s) && SlotKey(s) == key }

  ghost predicate HasKnownPrefix(key: string) {
    exists c :: 0 <= c < |CATEGORIES| && IsPrefix(CATEGORIES[c].prefix, key)
  }

  /**
   deletion_slot: a key is recognised if it has a known prefix, and then accepted exactly if it
   is one of the 27 names; keys with other prefixes are none of its business.
   */
  method DeletionSlot(key: string) returns (ok: bool, recognized: bool)
    ensures recognized <==> HasKnownPrefix(key)
    ensures ok <==> !HasKnownPrefix(key) || IsSlotKey(key)
    ensures ok && recognized <==> IsSlotKey(key)
  {
    var c := 0;
    while c < |CATEGORIES|
      invariant 0 <= c <= |CATEGORIES|
      invariant forall d :: 0 <= d < c ==> !IsPrefix(CATEGORIES[d].prefix, key)
    {
      if IsPrefix(CATEGORIES[c].prefix, key) {
        var i := 1;
        while i <= CATEGORIES[c].count
          invariant 1 <= i <= CATEGORIES[c].count + 1
          invariant forall j :: 1 <= j < i ==> SlotKey(Slot(c, j)) != key
        {
          if key == SlotKey(Slot(c, i)) {
            return true, true;
          }
          i := i + 1;
        }
        NotItsCategory(c, key);
        return false, true;
      }
      c := c + 1;
    }
    NoCategory(key);
    return true, false;
  }

  lemma NotItsCategory(c: nat, key: string)
    requires c < |CATEGORIES| && IsPrefix(CATEGORIES[c].prefix, key)
    requires forall j :: 1 <= j <= CATEGORIES[c].count ==> SlotKey(Slot(c, j)) != key
    ensures !IsSlotKey(key)
  {
    forall s | IsSlot(s)
      ensures SlotKey(s) != key
    {
      if SlotKey(s) == key {
        KeyHasPrefix(s);
        OneCategory(s.c, c, key);
      }
    }
  }

  lemma NoCategory(key: string)
    requires !HasKnownPrefix(key)
    ensures !IsSlotKey(key)
  {
    forall s | IsSlot(s)
      ensures SlotKey(s) != key
    {
      KeyHasPrefix(s);
    }
  }
}
