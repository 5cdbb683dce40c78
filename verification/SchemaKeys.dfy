/**
 The names of the schema records: one canonical text for each peer identity
 (ble_transport.cpp, lines 327-336, and persistent_store_recovery.hpp, lines 53-92).
 */
module SchemaKeys {
  import opened StoreIdentities

  datatype Option<T> = None | Some(value: T)

  const HEX := "0123456789abcdef"
  const KEY_SIZE := 16
  const NUL: char := '\0'

  function Hex(b: byte): string { [HEX[b / 16], HEX[b % 16]] }

  function HexBytes(bytes: seq<byte>): string {
    if bytes == [] then "" else HexBytes(bytes[..|bytes| - 1]) + Hex(bytes[|bytes| - 1])
  }

  lemma {:induction false} HexBytesLength(bytes: seq<byte>)
    ensures |HexBytes(bytes)| == 2 * |bytes|
  {
    if bytes != [] { HexBytesLength(bytes[..|bytes| - 1]); }
  }

  /** The name of id's record, with its terminator. */
  function KeyText(id: Identity): (key: string)
    ensures |key| == KEY_SIZE
  {
    HexBytesLength(id.value);
    "r" + Hex(id.kind) + HexBytes(id.value) + [NUL]
  }

  predicate IsDigit(c: char, v: nat) { v < 16 && c as nat == (if v < 10 then 48 + v else 87 + v) }

  lemma {:induction false} HexDigits(bytes: seq<byte>, i: nat)
    requires i < |bytes|
    ensures |HexBytes(bytes)| == 2 * |bytes|
    ensures IsDigit(HexBytes(bytes)[2 * i], bytes[i] / 16) && IsDigit(HexBytes(bytes)[2 * i + 1], bytes[i] % 16)
  {
    HexBytesLength(bytes);
    HexBytesLength(bytes[..|bytes| - 1]);
    if i < |bytes| - 1 { HexDigits(bytes[..|bytes| - 1], i); }
  }

  /** The name by its characters: an r, then two lower-case digits for the type and for each byte, high digit first. */
  lemma KeyDigits(id: Identity, i: nat)
    requires i < 6
    ensures var key := KeyText(id);
      && key[0] == 'r' && IsDigit(key[1], id.kind / 16) && IsDigit(key[2], id.kind % 16)
      && IsDigit(key[3 + 2 * i], id.value[i] / 16) && IsDigit(key[4 + 2 * i], id.value[i] % 16)
      && key[15] == '\0'
  {
    HexDigits(id.value, i);
  }

  /** schema_key */
  method SchemaKey(id: Identity, key: array<char>)
    requires key.Length == KEY_SIZE
    modifies key
    ensures key[..] == KeyText(id)
  {
    key[0], key[1], key[2] := 'r', HEX[id.kind / 16], HEX[id.kind % 16];
    var index := 0;
    while index < 6
      invariant 0 <= index <= 6
      invariant key[..3 + index * 2] == "r" + Hex(id.kind) + HexBytes(id.value[..index])
    {
      key[3 + index * 2], key[4 + index * 2] := HEX[id.value[index] / 16], HEX[id.value[index] % 16];
      assert id.value[..index + 1][..index] == id.value[..index];
      assert key[..5 + index * 2] == key[..3 + index * 2] + Hex(id.value[index]);
      index := index + 1;
    }
    assert id.value[..6] == id.value;
    key[15] := NUL;
    assert key[..] == key[..15] + [NUL];
  }

  /** lower_hex_value, with None for -1 */
  function HexValue(c: char): Option<nat> {
    if '0' <= c <= '9' then Some(c as nat - '0' as nat)
    else if 'a' <= c <= 'f' then Some(c as nat - 'a' as nat + 10)
    else None
  }

  function HexByte(high: char, low: char): Option<byte> {
    if HexValue(high).None? || HexValue(low).None? then None
    else Some(HexValue(high).value * 16 + HexValue(low).value)
  }

  lemma HexReads(high: char, low: char, b: byte)
    ensures HexByte(high, low) == Some(b) <==> Hex(b) == [high, low]
    ensures HexByte(high, low).Some? ==> high != NUL && low != NUL
  {
    HexDigitReads(high, b / 16);
    HexDigitReads(low, b % 16);
    if HexByte(high, low) == Some(b) {
      assert HexValue(high).value == b / 16 && HexValue(low).value == b % 16;
    }
  }

  lemma HexDigitReads(c: char, d: nat)
    requires d < 16
    ensures HexValue(c) == Some(d) <==> HEX[d] == c
  {
  }

  lemma LastDigits(bytes: seq<byte>)
    requires bytes != []
    ensures var s, n := HexBytes(bytes), |bytes| - 1;
      && |s| == 2 * n + 2 && s[..2 * n] == HexBytes(bytes[..n]) && s[2 * n..] == Hex(bytes[n])
      && [s[2 * n], s[2 * n + 1]] == Hex(bytes[n])
  {
    HexBytesLength(bytes[..|bytes| - 1]);
  }

  lemma {:induction false} HexBytesInjective(a: seq<byte>, b: seq<byte>)
    requires HexBytes(a) == HexBytes(b)
    ensures a == b
  {
    HexBytesLength(a);
    HexBytesLength(b);
    if a != [] {
      hide HexBytes;
      var n := |a| - 1;
      var s := HexBytes(a);
      LastDigits(a);
      LastDigits(b);
      HexBytesInjective(a[..n], b[..n]);
      HexReads(s[2 * n], s[2 * n + 1], a[n]);
      HexReads(s[2 * n], s[2 * n + 1], b[n]);
      assert a == a[..n] + [a[n]] && b == b[..n] + [b[n]];
    }
  }

  /** Different identities have different names. */
  lemma KeyTextInjective(a: Identity, b: Identity)
    requires KeyText(a) == KeyText(b)
    ensures a == b
  {
    HexBytesLength(a.value);
    HexBytesLength(b.value);
    var s := KeyText(a);
    assert s[1..3] == Hex(a.kind) == Hex(b.kind);
    HexReads(s[1], s[2], a.kind);
    HexReads(s[1], s[2], b.kind);
    assert s[3..15] == HexBytes(a.value) == HexBytes(b.value);
    HexBytesInjective(a.value, b.value);
  }

  /** The loop over the six address bytes, at key[3]. */
  method ReadAddress(key: string) returns (value: Option<seq<byte>>)
    requires 15 <= |key|
    ensures forall v: seq<byte> :: value == Some(v) <==> |v| == 6 && key[3..15] == HexBytes(v)
  {
    hide HexByte, Hex;
    var read: seq<byte> := [];
    var index := 0;
    while index < 6
      invariant 0 <= index <= 6 && |read| == index
      invariant key[3..3 + index * 2] == HexBytes(read)
    {
      var b := HexByte(key[3 + index * 2], key[4 + index * 2]);
      if b.None? {
        forall v: seq<byte> ensures |v| == 6 ==> key[3..15] != HexBytes(v) {
          if |v| == 6 {
            HexBytesAt(v, index);
            HexReads(key[3 + index * 2], key[4 + index * 2], v[index]);
            PairAt(key, index);
          }
        }
        return None;
      }
      HexReads(key[3 + index * 2], key[4 + index * 2], b.value);
      assert (read + [b.value])[..index] == read;
      assert key[3..5 + index * 2] == key[3..3 + index * 2] + [key[3 + index * 2], key[4 + index * 2]];
      read := read + [b.value];
      index := index + 1;
    }
    forall v: seq<byte> ensures key[3..15] == HexBytes(v) ==> v == read {
      if key[3..15] == HexBytes(v) { HexBytesInjective(v, read); }
    }
    return Some(read);
  }

  lemma PairAt(key: string, i: nat)
    requires 15 <= |key| && i < 6
    ensures key[3..15][2 * i..2 * i + 2] == [key[3 + i * 2], key[4 + i * 2]]
  {
    var part := key[3..15];
    assert part[2 * i] == key[3 + 2 * i] && part[2 * i + 1] == key[4 + 2 * i];
  }

  lemma KeyTextParts(i: Identity, key: string)
    requires |key| == KEY_SIZE
    ensures key == KeyText(i) <==>
            key[0] == 'r' && [key[1], key[2]] == Hex(i.kind) && key[3..15] == HexBytes(i.value) && key[15] == NUL
  {
    hide Hex;
    HexBytesLength(i.value);
    assert key == [key[0]] + [key[1], key[2]] + key[3..15] + [key[15]];
    if key == KeyText(i) {
      assert key[1..3] == [key[1], key[2]];
    }
  }

  /**
   parse_canonical_schema_key reads exactly the names of valid identities back; it never looks
   past the terminator.
   */
  method ParseSchemaKey(key: string) returns (id: Option<Identity>)
    requires NUL in key
    ensures forall i: Identity ::
              id == Some(i) <==> ValidIdentity(i) && KEY_SIZE <= |key| && key[..KEY_SIZE] == KeyText(i)
  {
    hide KeyText, HexByte, Hex, HexBytes;
    forall i: Identity | KEY_SIZE <= |key| ensures key[..KEY_SIZE] == KeyText(i) <==>
      key[0] == 'r' && [key[1], key[2]] == Hex(i.kind) && key[3..15] == HexBytes(i.value) && key[15] == NUL
    {
      KeyTextParts(i, key[..KEY_SIZE]);
    }
    if key[0] != 'r' {
      return None;
    }
    var index := 1;
    while index < 15
      invariant 1 <= index <= 15 && index < |key|
      invariant forall k :: 0 <= k < index ==> key[k] != NUL
    {
      if key[index] == NUL {
        forall i: Identity | KEY_SIZE <= |key| ensures key[..KEY_SIZE] != KeyText(i) { NoInnerNul(i, index); }
        return None;
      }
      index := index + 1;
    }
    if key[15] != NUL {
      return None;
    }
    var kind := HexByte(key[1], key[2]);
    forall i: Identity ensures kind == Some(i.kind) <==> [key[1], key[2]] == Hex(i.kind) {
      HexReads(key[1], key[2], i.kind);
    }
    if kind.None? {
      return None;
    }
    var value := ReadAddress(key[..15]);
    if value.None? {
      return None;
    }
    var read := Identity(kind.value, value.value);
    return if ValidIdentity(read) then Some(read) else None;
  }

  lemma HexAt(i: Identity, index: nat)
    requires index < 6
    ensures KeyText(i)[3 + index * 2..5 + index * 2] == Hex(i.value[index])
  {
    HexBytesAt(i.value, index);
    HexBytesLength(i.value);
  }

  lemma {:induction false} HexBytesAt(bytes: seq<byte>, index: nat)
    requires index < |bytes|
    ensures 2 * index + 2 <= |HexBytes(bytes)| && HexBytes(bytes)[2 * index..2 * index + 2] == Hex(bytes[index])
  {
    HexBytesLength(bytes);
    var n := |bytes| - 1;
    HexBytesLength(bytes[..n]);
    if index < n { HexBytesAt(bytes[..n], index); }
  }

  lemma NoInnerNul(i: Identity, index: nat)
    requires 1 <= index < 15
    ensures KeyText(i)[index] != NUL
  {
    if index < 3 {
    } else {
      var k := (index - 3) / 2;
      HexAt(i, k);
      var pair := KeyText(i)[3 + k * 2..5 + k * 2];
      assert KeyText(i)[index] == pair[index - 3 - k * 2];
    }
  }
}
