/**
 The HID state a sequence works on: modifier bits, mouse buttons and six key slots kept sorted
 with the zeros last (`apply_transition` of firmware/components/hid_sequence/hid_sequence.cpp).
 */
module SequenceKeys {

  datatype Operation =
    | DefaultDelay(ms: nat)
    | Wait(ms: nat)
    | KeyPress(usage: nat)
    | KeyRelease(usage: nat)
    | MousePress(button: bv8)
    | MouseRelease(button: bv8)

  predicate IsHid(op: Operation) { !op.DefaultDelay? && !op.Wait? }

  predicate OrdinaryUsage(u: nat) { 4 <= u <= 164 || 176 <= u <= 221 }

  predicate ModifierUsage(u: nat) { 224 <= u <= 231 }

  /** A value of HidState. */
  datatype Hid = Hid(modifiers: bv8, keys: seq<nat>, buttons: bv8)

  const SLOTS := 6

  // ---------------------------------------------------------------- what a key does to the slots

  /** The first slot that holds u, or |keys|. */
  function FirstOf(keys: seq<nat>, u: nat): (i: nat)
    ensures i <= |keys| && (i < |keys| ==> keys[i] == u) && (forall k :: 0 <= k < i ==> keys[k] != u)
  {
    if keys == [] || keys[0] == u then 0 else 1 + FirstOf(keys[1..], u)
  }

  /** Where u goes among the slots before the first empty one, e. */
  function PlaceFor(keys: seq<nat>, e: nat, u: nat): (p: nat)
    requires e <= |keys|
    ensures p <= e && (p > 0 ==> keys[p - 1] <= u) && (forall k :: p <= k < e ==> keys[k] > u)
  {
    if e > 0 && keys[e - 1] > u then PlaceFor(keys, e - 1, u) else e
  }

  datatype Option<T> = None | Some(value: T)

  function Pressed(keys: seq<nat>, u: nat): Option<seq<nat>> {
    var e := FirstOf(keys, 0);
    if u in keys then Some(keys)
    else if e == |keys| then None
    else
      var p := PlaceFor(keys, e, u);
      Some(keys[..p] + [u % 256] + keys[p..e] + keys[e + 1..])
  }

  function Released(keys: seq<nat>, u: nat): seq<nat> {
    var f := FirstOf(keys, u);
    if f == |keys| then keys else keys[..f] + keys[f + 1..] + [0]
  }

  function ModifierBit(u: nat): bv8
    requires ModifierUsage(u)
  {
    1 << (u - 224)
  }

  function WithKeys(h: Hid, keys: Option<seq<nat>>): Option<Hid> {
    if keys.Some? then Some(h.(keys := keys.value)) else None
  }

  /** What an ordinary key does. */
  function KeysAfter(op: Operation, keys: seq<nat>): Option<seq<nat>>
    requires op.KeyPress? || op.KeyRelease?
  {
    if op.KeyPress? then Pressed(keys, op.usage) else Some(Released(keys, op.usage))
  }

  function WithBits(bits: bv8, mask: bv8, on: bool): bv8 { if on then bits | mask else bits & !mask }

  /** What apply_transition makes of h, or None where it returns false. */
  function Transition(op: Operation, h: Hid): Option<Hid> {
    match op
    case DefaultDelay(_) | Wait(_) => Some(h)
    case MousePress(b) => Some(h.(buttons := WithBits(h.buttons, b, true)))
    case MouseRelease(b) => Some(h.(buttons := WithBits(h.buttons, b, false)))
    case KeyPress(_) | KeyRelease(_) =>
      if ModifierUsage(op.usage) then Some(h.(modifiers := WithBits(h.modifiers, ModifierBit(op.usage), op.KeyPress?)))
      else WithKeys(h, KeysAfter(op, h.keys))
  }

  // ---------------------------------------------------------------- the object

  class HidState {
    var modifiers: bv8
    const keycodes: array<nat>
    var mouseButtons: bv8

    ghost predicate Valid()
      reads this, keycodes
    {
      keycodes.Length == SLOTS
    }

    ghost function Value(): Hid
      reads this, keycodes
    {
      Hid(modifiers, keycodes[..], mouseButtons)
    }

    constructor (h: Hid)
      requires |h.keys| == SLOTS
      ensures Valid() && Value() == h && fresh(keycodes)
    {
      modifiers, mouseButtons := h.modifiers, h.buttons;
      keycodes := new nat[SLOTS](i requires 0 <= i < |h.keys| => h.keys[i]);
      new;
      assert keycodes[..] == h.keys;
    }

    method Find(u: nat) returns (i: nat)
      requires Valid()
      ensures i == FirstOf(keycodes[..], u) && i <= keycodes.Length
      ensures i < keycodes.Length <==> u in keycodes[..]
    {
      i := 0;
      while i < keycodes.Length && keycodes[i] != u
        invariant 0 <= i <= keycodes.Length && forall k :: 0 <= k < i ==> keycodes[k] != u
      {
        i := i + 1;
      }
      FirstOfIs(keycodes[..], u, i);
    }

    method Apply(op: Operation) returns (ok: bool)
      requires Valid()
      modifies this, keycodes
      ensures Valid()
      ensures ok <==> Transition(op, old(Value())).Some?
      ensures Value() == if ok then Transition(op, old(Value())).value else old(Value())
    {
      hide ModifierBit, KeysAfter, WithBits;
      if op.MousePress? || op.MouseRelease? {
        mouseButtons := WithBits(mouseButtons, op.button, op.MousePress?);
        return true;
      }
      if !op.KeyPress? && !op.KeyRelease? {
        return true;
      }
      if ModifierUsage(op.usage) {
        modifiers := WithBits(modifiers, ModifierBit(op.usage), op.KeyPress?);
        return true;
      }
      ok := ApplyToKeys(op);
    }

    method ApplyToKeys(op: Operation) returns (ok: bool)
      requires Valid() && (op.KeyPress? || op.KeyRelease?)
      modifies keycodes
      ensures ok <==> KeysAfter(op, old(keycodes[..])).Some?
      ensures keycodes[..] == if ok then KeysAfter(op, old(keycodes[..])).value else old(keycodes[..])
    {
      hide Pressed, Released;
      if op.KeyPress? {
        ok := Press(op.usage);
      } else {
        Release(op.usage);
        ok := true;
      }
    }

    method Press(u: nat) returns (ok: bool)
      requires Valid()
      modifies keycodes
      ensures ok <==> Pressed(old(keycodes[..]), u).Some?
      ensures keycodes[..] == if ok then Pressed(old(keycodes[..]), u).value else old(keycodes[..])
    {
      hide FirstOf, PlaceFor;
      var found := Find(u);
      if found != keycodes.Length {
        return true;
      }
      var empty := Find(0);
      if empty == keycodes.Length {
        return false;
      }
      Insert(empty, u);
      ok := true;
    }

    /** Makes room before slot e, which is given up, and stores u there. */
    method Insert(e: nat, u: nat)
      requires Valid() && e < keycodes.Length
      modifies keycodes
      ensures var was, p := old(keycodes[..]), PlaceFor(old(keycodes[..]), e, u);
        keycodes[..] == was[..p] + [u % 256] + was[p..e] + was[e + 1..]
    {
      ghost var was := keycodes[..];
      var empty := e;
      while empty > 0 && keycodes[empty - 1] > u
        invariant 0 <= empty <= e && PlaceFor(was, e, u) == PlaceFor(was, empty, u)
        invariant forall k :: 0 <= k < keycodes.Length && (k < empty || k > e) ==> keycodes[k] == was[k]
        invariant forall k :: empty < k <= e ==> keycodes[k] == was[k - 1]
      {
        keycodes[empty] := keycodes[empty - 1];
        empty := empty - 1;
      }
      keycodes[empty] := u % 256;
      ShiftedIs(was, keycodes[..], empty, e, u % 256);
    }

    method Release(u: nat)
      requires Valid()
      modifies keycodes
      ensures keycodes[..] == Released(old(keycodes[..]), u)
    {
      var found := Find(u);
      if found != keycodes.Length {
        ghost var was := keycodes[..];
        var index := found;
        while index + 1 < keycodes.Length
          invariant found <= index < keycodes.Length
          invariant forall k :: 0 <= k < keycodes.Length && (k < found || k > index) ==> keycodes[k] == was[k]
          invariant forall k :: found <= k < index ==> keycodes[k] == was[k + 1]
        {
          keycodes[index] := keycodes[index + 1];
          index := index + 1;
        }
        keycodes[keycodes.Length - 1] := 0;
        assert keycodes[..] == was[..found] + was[found + 1..] + [0];
      }
    }
  }

  lemma ShiftedIs(was: seq<nat>, now: seq<nat>, p: nat, e: nat, u: nat)
    requires p <= e < |was| == |now| && now[p] == u
    requires forall k :: 0 <= k < |now| && (k < p || k > e) ==> now[k] == was[k]
    requires forall k :: p < k <= e ==> now[k] == was[k - 1]
    ensures now == was[..p] + [u] + was[p..e] + was[e + 1..]
  {
  }

  lemma {:induction false} FirstOfIs(keys: seq<nat>, u: nat, i: nat)
    requires i <= |keys| && (i < |keys| ==> keys[i] == u) && (forall k :: 0 <= k < i ==> keys[k] != u)
    ensures FirstOf(keys, u) == i && (u in keys <==> i < |keys|)
  {
    if i > 0 {
      FirstOfIs(keys[1..], u, i - 1);
    }
  }

  // ---------------------------------------------------------------- canonical arrays

  /** Ascending, without duplicates, zeros last. */
  ghost predicate Canonical(keys: seq<nat>) {
    && |keys| == SLOTS
    && (forall i, j :: 0 <= i < j < |keys| ==> (keys[j] != 0 ==> 0 < keys[i] < keys[j]))
  }

  ghost function KeySet(keys: seq<nat>): set<nat> { set k | k in keys && k != 0 }

  /** A canonical array is determined by the keys that are down. */
  lemma CanonicalIsUnique(a: seq<nat>, b: seq<nat>)
    requires Canonical(a) && Canonical(b) && KeySet(a) == KeySet(b)
    ensures a == b
  {
    forall i | 0 <= i < SLOTS
      ensures a[i] == b[i]
    {
      SamePrefix(a, b, i + 1);
    }
  }

  lemma {:induction false} SamePrefix(a: seq<nat>, b: seq<nat>, n: nat)
    requires Canonical(a) && Canonical(b) && KeySet(a) == KeySet(b) && n <= SLOTS
    ensures forall k :: 0 <= k < n ==> a[k] == b[k]
  {
    if n > 0 {
      SamePrefix(a, b, n - 1);
      NotBelow(a, b, n - 1);
      NotBelow(b, a, n - 1);
    }
  }

  lemma NotBelow(a: seq<nat>, b: seq<nat>, i: nat)
    requires Canonical(a) && Canonical(b) && KeySet(a) == KeySet(b)
    requires i < SLOTS && forall k :: 0 <= k < i ==> a[k] == b[k]
    ensures a[i] == 0 || (b[i] != 0 && b[i] <= a[i])
  {
    if a[i] != 0 {
      assert a[i] in KeySet(b) by { assert a[i] in KeySet(a); }
      var j :| 0 <= j < |b| && b[j] == a[i];
      assert forall k :: 0 <= k < i ==> b[k] < a[i];
    }
  }

  /** A sorted insertion before the first empty slot, element by element. */
  lemma Inserted(keys: seq<nat>, u: nat, p: nat, e: nat, after: seq<nat>)
    requires Canonical(keys) && p <= e < SLOTS && (forall k :: 0 <= k < SLOTS ==> (keys[k] == 0 <==> e <= k))
    requires |after| == SLOTS && after[p] == u
    requires forall k :: 0 <= k < SLOTS && (k < p || k > e) ==> after[k] == keys[k]
    requires forall k :: p < k <= e ==> after[k] == keys[k - 1]
    requires 0 < u && (p > 0 ==> keys[p - 1] < u) && (forall k :: p <= k < e ==> keys[k] > u)
    ensures Canonical(after) && KeySet(after) == KeySet(keys) + {u}
  {
    forall k | k in KeySet(keys)
      ensures k in KeySet(after)
    {
      var i :| 0 <= i < SLOTS && keys[i] == k;
      assert after[if i < p then i else i + 1] == k;
    }
    assert u in KeySet(after);
    forall i, j | 0 <= i < j < SLOTS && after[j] != 0
      ensures 0 < after[i] < after[j]
    {
    }
  }

  lemma PressFits(keys: seq<nat>, u: nat)
    requires Canonical(keys) && OrdinaryUsage(u)
    ensures Pressed(keys, u).Some? <==> u in KeySet(keys) || |KeySet(keys)| < SLOTS
  {
    KeyCount(keys, SLOTS);
    assert keys[..SLOTS] == keys;
  }

  lemma KeyIn(keys: seq<nat>, u: nat)
    requires u in keys && u != 0
    ensures u in KeySet(keys)
  {
  }

  lemma ZerosLast(keys: seq<nat>)
    requires Canonical(keys)
    ensures |keys| == SLOTS && forall k :: 0 <= k < SLOTS ==> (keys[k] == 0 <==> FirstOf(keys, 0) <= k)
  {
  }

  lemma PressedAt(keys: seq<nat>, u: nat, p: nat, e: nat)
    requires p <= e < |keys|
    ensures var after := keys[..p] + [u] + keys[p..e] + keys[e + 1..];
      && |after| == |keys| && after[p] == u
      && (forall k :: 0 <= k < |keys| && (k < p || k > e) ==> after[k] == keys[k])
      && (forall k :: p < k <= e ==> after[k] == keys[k - 1])
  {
  }

  /**
   Pressing an ordinary key inserts it into the set of keys, and fails exactly if it is new and
   six keys are down.
   */
  lemma PressInserts(keys: seq<nat>, u: nat)
    requires Canonical(keys) && OrdinaryUsage(u)
    ensures Pressed(keys, u).Some? <==> u in KeySet(keys) || |KeySet(keys)| < SLOTS
    ensures Pressed(keys, u).Some? ==>
              Canonical(Pressed(keys, u).value) && KeySet(Pressed(keys, u).value) == KeySet(keys) + {u}
  {
    hide KeySet, Canonical, FirstOf, PlaceFor;
    PressFits(keys, u);
    ZerosLast(keys);
    var e := FirstOf(keys, 0);
    if u in keys {
      assert u in KeySet(keys) by { KeyIn(keys, u); }
      assert KeySet(keys) + {u} == KeySet(keys);
    } else if e < |keys| {
      var p := PlaceFor(keys, e, u);
      PressedAt(keys, u, p, e);
      Inserted(keys, u, p, e, keys[..p] + [u] + keys[p..e] + keys[e + 1..]);
    }
  }

  lemma KeyStep(keys: seq<nat>, n: nat)
    requires Canonical(keys) && n < SLOTS
    ensures KeySet(keys[..n + 1]) == if keys[n] == 0 then KeySet(keys[..n]) else KeySet(keys[..n]) + {keys[n]}
    ensures keys[n] !in KeySet(keys[..n])
  {
    assert keys[..n + 1] == keys[..n] + [keys[n]];
  }

  lemma NoKeys()
    ensures KeySet([]) == {}
  {
  }

  /** As many keys are down as slots are filled. */
  lemma {:induction false} KeyCount(keys: seq<nat>, n: nat)
    requires Canonical(keys) && n <= SLOTS
    ensures |KeySet(keys[..n])| == if FirstOf(keys, 0) < n then FirstOf(keys, 0) else n
  {
    ZerosLast(keys);
    hide KeySet, Canonical, FirstOf;
    if n == 0 {
      NoKeys();
      assert keys[..0] == [];
    } else {
      KeyCount(keys, n - 1);
      KeyStep(keys, n - 1);
    }
  }

  /** Releasing an ordinary key takes it out of the set of keys. */
  lemma ReleaseRemoves(keys: seq<nat>, u: nat)
    requires Canonical(keys) && OrdinaryUsage(u)
    ensures Canonical(Released(keys, u)) && KeySet(Released(keys, u)) == KeySet(keys) - {u}
  {
    var f := FirstOf(keys, u);
    FirstOfIs(keys, u, f);
    if f < |keys| {
      Deleted(keys, u, f, Released(keys, u));
    }
  }

  lemma Deleted(keys: seq<nat>, u: nat, f: nat, after: seq<nat>)
    requires Canonical(keys) && f < SLOTS && keys[f] == u != 0
    requires |after| == SLOTS && after[SLOTS - 1] == 0
    requires forall k :: 0 <= k < f ==> after[k] == keys[k]
    requires forall k :: f <= k < SLOTS - 1 ==> after[k] == keys[k + 1]
    ensures Canonical(after) && KeySet(after) == KeySet(keys) - {u}
  {
    forall k | k in KeySet(keys) - {u}
      ensures k in KeySet(after)
    {
      var i :| 0 <= i < SLOTS && keys[i] == k;
      assert after[if i < f then i else i - 1] == k;
    }
    forall i, j | 0 <= i < j < SLOTS && after[j] != 0
      ensures 0 < after[i] < after[j]
    {
    }
  }

  /** The set of keys, the modifiers and the buttons after an operation a plan may hold. */
  ghost predicate After(op: Operation, h: Hid, h': Hid) {
    match op
    case DefaultDelay(_) | Wait(_) => h' == h
    case KeyPress(u) =>
      if ModifierUsage(u) then h' == h.(modifiers := h'.modifiers)
      else h' == h.(keys := h'.keys) && KeySet(h'.keys) == KeySet(h.keys) + {u}
    case KeyRelease(u) =>
      if ModifierUsage(u) then h' == h.(modifiers := h'.modifiers)
      else h' == h.(keys := h'.keys) && KeySet(h'.keys) == KeySet(h.keys) - {u}
    case MousePress(_) | MouseRelease(_) => h' == h.(buttons := h'.buttons)
  }

  /**
   On a canonical state an operation fails exactly if it presses a new ordinary key while six
   are down; otherwise the array stays canonical and holds the right set.
   */
  lemma TransitionRefinesSets(op: Operation, h: Hid)
    requires Canonical(h.keys)
    requires op.KeyPress? || op.KeyRelease? ==> OrdinaryUsage(op.usage) || ModifierUsage(op.usage)
    ensures Transition(op, h).None? <==>
            op.KeyPress? && OrdinaryUsage(op.usage) && op.usage !in KeySet(h.keys) && |KeySet(h.keys)| == SLOTS
    ensures Transition(op, h).Some? ==>
              Canonical(Transition(op, h).value.keys) && After(op, h, Transition(op, h).value)
  {
    hide Canonical, KeySet, Pressed, Released, WithBits, ModifierBit;
    AtMostSix(h.keys);
    if (op.KeyPress? || op.KeyRelease?) && OrdinaryUsage(op.usage) {
      PressInserts(h.keys, op.usage);
      ReleaseRemoves(h.keys, op.usage);
    }
  }

  lemma AtMostSix(keys: seq<nat>)
    requires Canonical(keys)
    ensures |KeySet(keys)| <= SLOTS
  {
    KeyCount(keys, SLOTS);
    assert keys[..SLOTS] == keys;
  }

  /** Pressing and releasing a modifier changes that bit alone. */
  lemma ModifierIsOneBit(h: Hid, u: nat, v: nat)
    requires ModifierUsage(u) && ModifierUsage(v)
    ensures var m := Transition(KeyPress(u), h).value.modifiers;
      m & ModifierBit(v) != 0 <==> u == v || h.modifiers & ModifierBit(v) != 0
    ensures var m := Transition(KeyRelease(u), h).value.modifiers;
      m & ModifierBit(v) != 0 <==> u != v && h.modifiers & ModifierBit(v) != 0
  {
  }

  predicate Button(b: bv8) { b == 1 || b == 2 || b == 4 || b == 8 || b == 16 }

  /** And so with mouse buttons. */
  lemma ButtonIsOneBit(h: Hid, a: bv8, b: bv8)
    requires Button(a) && Button(b)
    ensures Transition(MousePress(a), h).value.buttons & b != 0 <==> a == b || h.buttons & b != 0
    ensures Transition(MouseRelease(a), h).value.buttons & b != 0 <==> a != b && h.buttons & b != 0
  {
  }
}
