/**
 The plan for schema records that have lost their bond, and its execution
 (persistent_store_recovery.hpp, lines 94-244).
 */
module OrphanRecovery {
  import opened StoreIdentities

  const SCHEMA_CAPACITY := 16

  // ---------------------------------------------------------------- identity sets

  /** A bounded array, of which the first `count` are used. */
  datatype IdentitySet = IdentitySet(identities: seq<Identity>, count: nat, trustworthy: bool)

  ghost predicate Distinct(s: seq<Identity>) { forall i, j :: 0 <= i < j < |s| ==> s[i] != s[j] }

  ghost predicate ValidSet(s: IdentitySet) {
    && s.trustworthy && s.count <= |s.identities|
    && (forall i :: 0 <= i < s.count ==> ValidIdentity(s.identities[i]))
    && Distinct(s.identities[..s.count])
  }

  ghost function Elements(s: seq<Identity>): set<Identity> { set id | id in s }

  ghost function Members(s: IdentitySet): set<Identity> {
    if s.count <= |s.identities| then Elements(s.identities[..s.count]) else {}
  }

  method CheckValidSet(s: IdentitySet) returns (ok: bool)
    ensures ok <==> ValidSet(s)
  {
    if !s.trustworthy || s.count > |s.identities| {
      return false;
    }
    var used := s.identities[..s.count];
    var left := 0;
    while left < s.count
      invariant 0 <= left <= s.count
      invariant forall i :: 0 <= i < left ==> ValidIdentity(s.identities[i])
      invariant forall i, j :: 0 <= i < left && i < j < s.count ==> used[i] != used[j]
    {
      if !ValidIdentity(s.identities[left]) {
        return false;
      }
      var right := left + 1;
      while right < s.count
        invariant left < right <= s.count
        invariant forall j :: left < j < right ==> used[left] != used[j]
      {
        if s.identities[left] == s.identities[right] {
          assert used[left] == used[right];
          return false;
        }
        right := right + 1;
      }
      left := left + 1;
    }
    return true;
  }

  method Contains(s: IdentitySet, id: Identity) returns (found: bool)
    requires s.count <= |s.identities|
    ensures found <==> id in Members(s)
  {
    var index := 0;
    while index < s.count
      invariant 0 <= index <= s.count && forall i :: 0 <= i < index ==> s.identities[i] != id
    {
      if s.identities[index] == id {
        assert s.identities[..s.count][index] == id;
        return true;
      }
      index := index + 1;
    }
    return false;
  }

  /** Distinct elements: as many as places. */
  lemma {:induction false} DistinctCount(s: seq<Identity>)
    requires Distinct(s)
    ensures |Elements(s)| == |s|
  {
    if s != [] {
      var n := |s| - 1;
      DistinctCount(s[..n]);
      assert s == s[..n] + [s[n]];
      assert Elements(s) == Elements(s[..n]) + {s[n]};
    }
  }

  lemma {:induction false} EqualBySize(a: set<Identity>, b: set<Identity>)
    requires a <= b && |a| == |b|
    ensures a == b
  {
    if x :| x in b && x !in a {
      SubsetIsSmaller(a, b - {x});
    }
  }

  lemma {:induction false} SubsetIsSmaller(a: set<Identity>, b: set<Identity>)
    requires a <= b
    ensures |a| <= |b|
    decreases a
  {
    if a != {} {
      var x :| x in a;
      SubsetIsSmaller(a - {x}, b - {x});
    }
  }

  /** Every member of the one is in the other. */
  method AllContained(left: IdentitySet, right: IdentitySet) returns (ok: bool)
    requires ValidSet(left) && ValidSet(right)
    ensures ok <==> Members(left) <= Members(right)
  {
    var index := 0;
    while index < left.count
      invariant 0 <= index <= left.count
      invariant forall i :: 0 <= i < index ==> left.identities[i] in Members(right)
    {
      var found := Contains(right, left.identities[index]);
      if !found {
        assert left.identities[..left.count][index] in Members(left);
        return false;
      }
      index := index + 1;
    }
    return true;
  }

  method SameSet(left: IdentitySet, right: IdentitySet) returns (same: bool)
    ensures same <==> ValidSet(left) && ValidSet(right) && Members(left) == Members(right)
  {
    var validLeft := CheckValidSet(left);
    if !validLeft {
      return false;
    }
    var validRight := CheckValidSet(right);
    if !validRight {
      return false;
    }
    DistinctCount(left.identities[..left.count]);
    DistinctCount(right.identities[..right.count]);
    if left.count != right.count {
      return false;
    }
    same := AllContained(left, right);
    if same { EqualBySize(Members(left), Members(right)); }
  }

  // ---------------------------------------------------------------- order

  /** The bytes of an identity as one number, most significant first. */
  function Rank(id: Identity): nat {
    var v := id.value;
    ((((((id.kind as int * 256 + v[0]) * 256 + v[1]) * 256 + v[2]) * 256 + v[3]) * 256 + v[4]) * 256 + v[5])
  }

  predicate Less(a: Identity, b: Identity) { Rank(a) < Rank(b) }

  lemma DigitsDecide(a: nat, b: nat, x: byte, y: byte)
    ensures a < b ==> a * 256 + x < b * 256 + y
    ensures a == b ==> (a * 256 + x < b * 256 + y <==> x < y)
    ensures a * 256 + x == b * 256 + y <==> a == b && x == y
  {
  }

  function RankOf(id: Identity, n: nat): nat
    requires n <= 6
  {
    if n == 0 then id.kind as nat else RankOf(id, n - 1) * 256 + id.value[n - 1]
  }

  lemma RankUnfolds(id: Identity)
    ensures Rank(id) == RankOf(id, 6)
  {
    assert RankOf(id, 1) == id.kind as int * 256 + id.value[0];
    assert RankOf(id, 2) == RankOf(id, 1) * 256 + id.value[1];
    assert RankOf(id, 3) == RankOf(id, 2) * 256 + id.value[2];
    assert RankOf(id, 4) == RankOf(id, 3) * 256 + id.value[3];
    assert RankOf(id, 5) == RankOf(id, 4) * 256 + id.value[4];
  }

  lemma {:induction false} FirstDifference(a: Identity, b: Identity, n: nat, k: nat)
    requires k <= n <= 6 && RankOf(a, k) < RankOf(b, k)
    ensures RankOf(a, n) < RankOf(b, n)
  {
    if k < n {
      FirstDifference(a, b, n - 1, k);
      DigitsDecide(RankOf(a, n - 1), RankOf(b, n - 1), a.value[n - 1], b.value[n - 1]);
    }
  }

  /** The order is by type, then by the bytes from the first to the last. */
  method IdentityLess(left: Identity, right: Identity) returns (less: bool)
    ensures less <==> Less(left, right)
  {
    RankUnfolds(left);
    RankUnfolds(right);
    if left.kind != right.kind {
      if left.kind < right.kind { FirstDifference(left, right, 6, 0); } else { FirstDifference(right, left, 6, 0); }
      return left.kind < right.kind;
    }
    var index := 0;
    while index < 6
      invariant 0 <= index <= 6 && RankOf(left, index) == RankOf(right, index)
    {
      DigitsDecide(RankOf(left, index), RankOf(right, index), left.value[index], right.value[index]);
      if left.value[index] != right.value[index] {
        if left.value[index] < right.value[index] {
          FirstDifference(left, right, 6, index + 1);
        } else {
          DigitsDecide(RankOf(right, index), RankOf(left, index), right.value[index], left.value[index]);
          FirstDifference(right, left, 6, index + 1);
        }
        return left.value[index] < right.value[index];
      }
      index := index + 1;
    }
    return false;
  }

  lemma {:induction false} SameRank(a: Identity, b: Identity, n: nat)
    requires n <= 6 && RankOf(a, n) == RankOf(b, n)
    ensures a.kind == b.kind && a.value[..n] == b.value[..n]
  {
    if n > 0 {
      DigitsDecide(RankOf(a, n - 1), RankOf(b, n - 1), a.value[n - 1], b.value[n - 1]);
      SameRank(a, b, n - 1);
      assert a.value[..n] == a.value[..n - 1] + [a.value[n - 1]];
      assert b.value[..n] == b.value[..n - 1] + [b.value[n - 1]];
    }
  }

  lemma RankInjective(a: Identity, b: Identity)
    requires Rank(a) == Rank(b)
    ensures a == b
  {
    RankUnfolds(a);
    RankUnfolds(b);
    SameRank(a, b, 6);
    assert a.value[..6] == a.value && b.value[..6] == b.value;
  }

  ghost predicate Ascending(s: seq<Identity>) { forall i, j :: 0 <= i < j < |s| ==> Less(s[i], s[j]) }

  lemma NotEmpty(s: seq<Identity>)
    requires s != []
    ensures Elements(s) != {}
  {
    assert s[0] in Elements(s);
  }

  lemma ElementsJoin(s: seq<Identity>, t: seq<Identity>)
    ensures Elements(s + t) == Elements(s) + Elements(t)
  {
  }

  /** There is one ascending list of a set. */
  lemma {:induction false} AscendingIsUnique(a: seq<Identity>, b: seq<Identity>)
    requires Ascending(a) && Ascending(b) && Elements(a) == Elements(b)
    ensures a == b
  {
    if a == [] {
      if b != [] { NotEmpty(b); }
    } else {
      assert a[0] in Elements(b);
      assert b != [];
      assert b[0] in Elements(a);
      FirstIsLeast(a, b[0]);
      FirstIsLeast(b, a[0]);
      RankInjective(a[0], b[0]);
      RestOf(a);
      RestOf(b);
      AscendingIsUnique(a[1..], b[1..]);
      assert a == [a[0]] + a[1..] && b == [b[0]] + b[1..];
    }
  }

  lemma FirstIsLeast(s: seq<Identity>, id: Identity)
    requires Ascending(s) && s != [] && id in Elements(s)
    ensures Rank(s[0]) <= Rank(id)
  {
  }

  lemma RestOf(s: seq<Identity>)
    requires Ascending(s) && s != []
    ensures Ascending(s[1..]) && Elements(s[1..]) == Elements(s) - {s[0]}
  {
    assert forall i :: 0 < i < |s| ==> Less(s[0], s[i]);
    assert forall i :: 0 < i < |s| ==> s[i] == s[1..][i - 1];
    assert s == [s[0]] + s[1..];
  }

  // ---------------------------------------------------------------- the plan

  class RecoveryPlan {
    var ready: bool
    const orphans: array<Identity>
    var count: nat

    ghost predicate Valid()
      reads this, orphans
    {
      orphans.Length == SCHEMA_CAPACITY && count <= orphans.Length
    }

    /** The orphans as a list. */
    ghost function List(): seq<Identity>
      requires Valid()
      reads this, orphans
    {
      orphans[..count]
    }

    constructor ()
      ensures Valid() && !ready && count == 0 && fresh(orphans)
    {
      ready, count := false, 0;
      orphans := new Identity[SCHEMA_CAPACITY](i => Identity(0, [0, 0, 0, 0, 0, 0]));
    }

    /** The schema identities that are not bonded, in the order of the schema set. */
    method Collect(persistentOur: IdentitySet, persistentPeer: IdentitySet, schemas: IdentitySet)
      requires Valid() && count == 0
      requires ValidSet(schemas) && |schemas.identities| == SCHEMA_CAPACITY
      requires ValidSet(persistentOur) && ValidSet(persistentPeer) && Members(persistentOur) == Members(persistentPeer)
      modifies `count, orphans
      ensures Valid() && Distinct(List())
      ensures Elements(List()) == Members(schemas) - Members(persistentOur)
    {
      var index := 0;
      ghost var used := schemas.identities[..schemas.count];
      while index < schemas.count
        invariant 0 <= index <= schemas.count && Valid() && count <= index
        invariant Distinct(List())
        invariant Elements(List()) == Elements(used[..index]) - Members(persistentOur)
      {
        var identity := schemas.identities[index];
        var our := Contains(persistentOur, identity);
        var peer := Contains(persistentPeer, identity);
        assert our == peer;
        assert used[..index + 1] == used[..index] + [identity];
        ElementsJoin(used[..index], [identity]);
        assert identity !in used[..index];
        if !our {
          ghost var was := List();
          assert identity !in was by { assert identity !in Elements(was); }
          orphans[count] := identity;
          count := count + 1;
          assert List() == was + [identity];
          ElementsJoin(was, [identity]);
        }
        index := index + 1;
      }
      assert used[..index] == used;
    }

    /** The exchange sort of make_recovery_plan, in place. */
    method Sort()
      requires Valid() && Distinct(List())
      modifies orphans
      ensures Valid() && Ascending(List())
      ensures Elements(List()) == old(Elements(List()))
    {
      var left := 0;
      while left < count
        invariant 0 <= left <= count && Distinct(List()) && Elements(List()) == old(Elements(List()))
        invariant forall i, j :: 0 <= i < left && i < j < count ==> Less(orphans[i], orphans[j])
      {
        var right := left + 1;
        while right < count
          invariant left < right <= count && Distinct(List()) && Elements(List()) == old(Elements(List()))
          invariant forall i, j :: 0 <= i < left && i < j < count ==> Less(orphans[i], orphans[j])
          invariant forall j :: left < j < right ==> Less(orphans[left], orphans[j])
        {
          var less := IdentityLess(orphans[right], orphans[left]);
          ghost var was := List();
          if less {
            orphans[left], orphans[right] := orphans[right], orphans[left];
            Swapped(was, List(), left, right);
          } else {
            assert was[left] != was[right];
            if Rank(orphans[left]) == Rank(orphans[right]) { RankInjective(orphans[left], orphans[right]); }
          }
          right := right + 1;
        }
        left := left + 1;
      }
    }

    /**
     make_recovery_plan: Ready exactly if the five sets are sound and agree, and then the orphans
     are the schema identities without a bond, in ascending order.
     */
    method Make(persistentOur: IdentitySet, persistentPeer: IdentitySet,
                restoredOur: IdentitySet, restoredPeer: IdentitySet, schemas: IdentitySet)
      requires Valid() && !ready && count == 0 && |schemas.identities| == SCHEMA_CAPACITY
      modifies this, orphans
      ensures Valid()
      ensures ready <==> Consistent(persistentOur, persistentPeer, restoredOur, restoredPeer, schemas)
      ensures ready ==> IsOrphanList(List(), Members(schemas), Members(persistentOur))
      ensures !ready ==> count == 0
    {
      var soundOur := SameSet(persistentOur, restoredOur);
      var soundPeer := SameSet(persistentPeer, restoredPeer);
      var soundSchemas := CheckValidSet(schemas);
      if !soundOur || !soundPeer || !soundSchemas {
        return;
      }
      var peersComplete := AllContained(persistentOur, persistentPeer);
      if !peersComplete {
        return;
      }
      var ourComplete := AllContained(persistentPeer, persistentOur);
      if !ourComplete {
        return;
      }
      Collect(persistentOur, persistentPeer, schemas);
      Sort();
      ready := true;
    }
  }

  /** All sets are valid, persistent and restored agree, and both halves of every bond exist. */
  ghost predicate Consistent(persistentOur: IdentitySet, persistentPeer: IdentitySet,
                             restoredOur: IdentitySet, restoredPeer: IdentitySet, schemas: IdentitySet)
  {
    && ValidSet(persistentOur) && ValidSet(persistentPeer) && ValidSet(restoredOur) && ValidSet(restoredPeer)
    && ValidSet(schemas)
    && Members(persistentOur) == Members(restoredOur) && Members(persistentPeer) == Members(restoredPeer)
    && Members(persistentOur) == Members(persistentPeer)
  }

  /** The ascending list of the schema identities that are not bonded. */
  ghost predicate IsOrphanList(list: seq<Identity>, schemas: set<Identity>, bonds: set<Identity>) {
    Ascending(list) && Elements(list) == schemas - bonds
  }

  lemma Swapped(was: seq<Identity>, now: seq<Identity>, left: nat, right: nat)
    requires left < right < |was| && now == was[left := was[right]][right := was[left]]
    requires Distinct(was)
    ensures Distinct(now) && Elements(now) == Elements(was)
  {
    forall id ensures id in now <==> id in was {
      if id in was {
        var i :| 0 <= i < |was| && was[i] == id;
        assert now[if i == left then right else if i == right then left else i] == id;
      }
      if id in now {
        var i :| 0 <= i < |now| && now[i] == id;
        assert was[if i == left then right else if i == right then left else i] == id;
      }
    }
  }

  /** Planning again after the first k deletions gives exactly the rest of the list. */
  lemma ReplanIsSuffix(list: seq<Identity>, again: seq<Identity>, schemas: set<Identity>, bonds: set<Identity>, k: nat)
    requires IsOrphanList(list, schemas, bonds) && k <= |list|
    requires IsOrphanList(again, schemas - Elements(list[..k]), bonds)
    ensures again == list[k..]
  {
    assert list == list[..k] + list[k..];
    ElementsJoin(list[..k], list[k..]);
    Disjoint(list, k);
    assert Elements(list[k..]) == schemas - Elements(list[..k]) - bonds;
    AscendingIsUnique(again, list[k..]);
  }

  lemma Disjoint(list: seq<Identity>, k: nat)
    requires Ascending(list) && k <= |list|
    ensures Elements(list[..k]) !! Elements(list[k..]) && Ascending(list[k..])
  {
    forall id | id in list[..k]
      ensures id !in list[k..]
    {
      var i :| 0 <= i < k && list[i] == id;
      assert forall j :: k <= j < |list| ==> Less(list[i], list[j]);
    }
  }

  // ---------------------------------------------------------------- execution

  /** The schema records.  A deletion may fail before or after it has taken effect. */
  class SchemaStore {
    var schemas: set<Identity>
    var reliable: bool

    method DeleteVerified(id: Identity) returns (ok: bool)
      modifies `schemas
      ensures schemas == old(schemas) || schemas == old(schemas) - {id}
      ensures ok ==> id !in schemas
      ensures reliable ==> ok
    {
      var fault, lost := *, *;
      if reliable || !lost { schemas := schemas - {id}; }
      ok := (reliable || !fault) && id !in schemas;
    }
  }

  /** run_orphan_recovery: the completed part of the list has gone, and at most the next one with it. */
  method RunOrphanRecovery(plan: RecoveryPlan, store: SchemaStore) returns (ok: bool, completed: nat)
    requires plan.Valid()
    modifies store`schemas
    ensures completed <= plan.count
    ensures var gone := old(store.schemas) - Elements(plan.orphans[..completed]);
      store.schemas == gone || (!ok && completed < plan.count && store.schemas == gone - {plan.orphans[completed]})
    ensures !plan.ready ==> !ok && store.schemas == old(store.schemas)
    ensures ok <==> plan.ready && completed == plan.count
    ensures plan.ready && store.reliable ==> ok
  {
    if !plan.ready {
      return false, 0;
    }
    var index := 0;
    while index < plan.count
      invariant 0 <= index <= plan.count
      invariant store.schemas == old(store.schemas) - Elements(plan.orphans[..index])
    {
      ok := store.DeleteVerified(plan.orphans[index]);
      assert Elements(plan.orphans[..index + 1]) == Elements(plan.orphans[..index]) + {plan.orphans[index]};
      if !ok {
        return false, index;
      }
      index := index + 1;
    }
    return true, plan.count;
  }

  // ---------------------------------------------------------------- startup

  ghost predicate SoundSchemas(schemas: set<Identity>) {
    |schemas| <= SCHEMA_CAPACITY && forall id :: id in schemas ==> ValidIdentity(id)
  }

  /** The inventory of the schema records, in whatever order the store lists them. */
  method ReadSchemas(schemas: set<Identity>) returns (s: IdentitySet)
    ensures |s.identities| == SCHEMA_CAPACITY
    ensures SoundSchemas(schemas) <==> ValidSet(s)
    ensures SoundSchemas(schemas) ==> Members(s) == schemas
  {
    var zero := Identity(0, [0, 0, 0, 0, 0, 0]);
    if |schemas| > SCHEMA_CAPACITY {
      return IdentitySet(seq(SCHEMA_CAPACITY, _ => zero), 0, false);
    }
    var listed: seq<Identity>, rest := [], schemas;
    while rest != {}
      invariant rest <= schemas && Elements(listed) == schemas - rest && Distinct(listed)
      invariant |listed| + |rest| == |schemas|
      decreases |rest|
    {
      var id :| id in rest;
      assert id !in listed by { assert id !in Elements(listed); }
      ElementsJoin(listed, [id]);
      listed, rest := listed + [id], rest - {id};
    }
    s := IdentitySet(listed + seq(SCHEMA_CAPACITY - |listed|, _ => zero), |listed|, true);
    assert s.identities[..s.count] == listed;
    forall i | 0 <= i < |listed| ensures listed[i] in schemas { assert listed[i] in Elements(listed); }
    assert ValidSet(s) ==> forall id :: id in schemas ==> ValidIdentity(id) by {
      assert forall id :: id in schemas ==> id in Elements(listed);
    }
  }

  ghost predicate SoundStart(persistentOur: IdentitySet, persistentPeer: IdentitySet,
                             restoredOur: IdentitySet, restoredPeer: IdentitySet, schemas: set<Identity>)
  {
    SoundBonds(persistentOur, persistentPeer, restoredOur, restoredPeer) && SoundSchemas(schemas)
  }

  /** One startup: inventory, plan, deletions. */
  method RecoverOrphans(store: SchemaStore, persistentOur: IdentitySet, persistentPeer: IdentitySet,
                        restoredOur: IdentitySet, restoredPeer: IdentitySet) returns (ok: bool)
    modifies store`schemas
    ensures !SoundStart(persistentOur, persistentPeer, restoredOur, restoredPeer, old(store.schemas)) ==>
              !ok && store.schemas == old(store.schemas)
    ensures old(store.schemas) * Members(persistentOur) <= store.schemas <= old(store.schemas)
    ensures ok ==> store.schemas == old(store.schemas) * Members(persistentOur)
    ensures store.reliable ==>
              (ok <==> SoundStart(persistentOur, persistentPeer, restoredOur, restoredPeer, old(store.schemas)))
  {
    hide ValidSet, Members, Elements, Ascending, Consistent, SoundBonds, SoundSchemas;
    var schemas := ReadSchemas(store.schemas);
    ConsistentParts(persistentOur, persistentPeer, restoredOur, restoredPeer, schemas);
    var plan := new RecoveryPlan();
    plan.Make(persistentOur, persistentPeer, restoredOur, restoredPeer, schemas);
    ghost var was := store.schemas;
    var completed: nat;
    ok, completed := RunOrphanRecovery(plan, store);
    if plan.ready {
      assert plan.List()[..completed] == plan.orphans[..completed];
      PartOfOrphans(plan.List(), completed, was, Members(persistentOur));
    }
  }

  lemma ConsistentParts(persistentOur: IdentitySet, persistentPeer: IdentitySet,
                        restoredOur: IdentitySet, restoredPeer: IdentitySet, schemas: IdentitySet)
    ensures Consistent(persistentOur, persistentPeer, restoredOur, restoredPeer, schemas) <==>
            SoundBonds(persistentOur, persistentPeer, restoredOur, restoredPeer) && ValidSet(schemas)
  {
  }

  lemma PartOfOrphans(list: seq<Identity>, k: nat, schemas: set<Identity>, bonds: set<Identity>)
    requires k <= |list| && IsOrphanList(list, schemas, bonds)
    ensures Elements(list[..k]) <= schemas - bonds
    ensures k < |list| ==> list[k] in schemas - bonds
    ensures k == |list| ==> schemas - Elements(list[..k]) == schemas * bonds
  {
    assert list == list[..k] + list[k..];
    ElementsJoin(list[..k], list[k..]);
    assert k < |list| ==> list[k] in Elements(list);
  }

  ghost predicate SoundBonds(persistentOur: IdentitySet, persistentPeer: IdentitySet,
                             restoredOur: IdentitySet, restoredPeer: IdentitySet)
  {
    Consistent(persistentOur, persistentPeer, restoredOur, restoredPeer, IdentitySet([], 0, true))
  }

  /**
   However many startups are cut short, and wherever, one that is not leaves exactly the schema
   records of the bonds.
   */
  method RecoveryWithRestarts(store: SchemaStore, persistentOur: IdentitySet, persistentPeer: IdentitySet,
                              restoredOur: IdentitySet, restoredPeer: IdentitySet, restarts: nat) returns (ok: bool)
    requires SoundBonds(persistentOur, persistentPeer, restoredOur, restoredPeer) && SoundSchemas(store.schemas)
    modifies store
    ensures ok && store.schemas == old(store.schemas) * Members(persistentOur)
  {
    ghost var was, bonds := store.schemas, Members(persistentOur);
    for i := 0 to restarts
      invariant was * bonds <= store.schemas <= was
    {
      store.reliable := *;
      SmallerIsSound(store.schemas, was);
      ok := RecoverOrphans(store, persistentOur, persistentPeer, restoredOur, restoredPeer);
    }
    store.reliable := true;
    SmallerIsSound(store.schemas, was);
    ok := RecoverOrphans(store, persistentOur, persistentPeer, restoredOur, restoredPeer);
    assert store.schemas == was * bonds;
  }

  lemma SmallerIsSound(a: set<Identity>, b: set<Identity>)
    requires a <= b && SoundSchemas(b)
    ensures SoundSchemas(a)
  {
    SubsetIsSmaller(a, b);
  }
}
