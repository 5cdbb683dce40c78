/**
 The token language of a sequence and its canonical printing.
 */
module SequenceText {
  import opened Decimal
  import opened SequenceKeys

  const MAXIMUM_CODE_BYTES := 320
  const MAXIMUM_TOKENS := 64
  const MAXIMUM_DEFAULT_DELAY_MS := 1000
  const MAXIMUM_WAIT_MS := 2000
  const MAXIMUM_SCHEDULED_DURATION_MS := 2500
  const MAXIMUM_USAGE := 231

  // ---------------------------------------------------------------- numbers

  /** parse_number accepts exactly the canonical printings of the numbers up to its bound. */
  method ParseNumber(text: string, maximum: nat) returns (value: Option<nat>)
    ensures forall v: nat :: value == Some(v) <==> text == PrintNat(v) && v <= maximum && v <= 9999
  {
    if text == "" || |text| > 4 || (|text| > 1 && text[0] == '0') {
      forall v: nat
        ensures text == PrintNat(v) ==> v > 9999
      {
        PrintNatShape(v);
      }
      return None;
    }
    var parsed, i := 0, 0;
    while i < |text|
      invariant 0 <= i <= |text| && AllDigits(text[..i]) && parsed == NumberOf(text[..i]) && parsed <= maximum
    {
      if !IsDigit(text[i]) {
        forall v: nat
          ensures text != PrintNat(v)
        {
          PrintNatShape(v);
        }
        return None;
      }
      assert text[..i + 1][..i] == text[..i];
      parsed := parsed * 10 + ValueOf(text[i]);
      i := i + 1;
      if parsed > maximum {
        forall v: nat
          ensures text == PrintNat(v) ==> v > maximum
        {
          PrintNatShape(v);
          if text == PrintNat(v) { NumberGrows(text, i); }
        }
        return None;
      }
    }
    assert text[..i] == text;
    DigitsArePrinted(text);
    PrintNatShape(parsed);
    forall v: nat
      ensures text == PrintNat(v) ==> v == parsed
    {
      PrintNatShape(v);
    }
    return Some(parsed);
  }

  // ---------------------------------------------------------------- tokens

  predicate ValidOp(op: Operation) {
    match op
    case DefaultDelay(ms) => ms <= MAXIMUM_DEFAULT_DELAY_MS
    case Wait(ms) => ms <= MAXIMUM_WAIT_MS
    case KeyPress(u) => OrdinaryUsage(u) || ModifierUsage(u)
    case KeyRelease(u) => OrdinaryUsage(u) || ModifierUsage(u)
    case MousePress(b) => Button(b)
    case MouseRelease(b) => Button(b)
  }

  function ButtonLetter(b: bv8): char
    requires Button(b)
  {
    if b == 1 then 'L' else if b == 2 then 'R' else if b == 4 then 'M' else if b == 8 then 'B' else 'F'
  }

  function PrintOp(op: Operation): string
    requires ValidOp(op)
  {
    match op
    case DefaultDelay(ms) => "d" + PrintNat(ms)
    case Wait(ms) => "w" + PrintNat(ms)
    case KeyPress(u) => "kp" + PrintNat(u)
    case KeyRelease(u) => "kr" + PrintNat(u)
    case MousePress(b) => "mp" + [ButtonLetter(b)]
    case MouseRelease(b) => "mr" + [ButtonLetter(b)]
  }

  ghost predicate AllValid(ops: seq<Operation>) { forall i :: 0 <= i < |ops| ==> ValidOp(ops[i]) }

  /** The text of a sequence: its tokens with a semicolon between each two. */
  ghost function Print(ops: seq<Operation>): string
    requires AllValid(ops)
  {
    if ops == [] then "" else if |ops| == 1 then PrintOp(ops[0]) else PrintOp(ops[0]) + ";" + Print(ops[1..])
  }

  lemma NatHasNoSemicolon(n: nat)
    ensures ';' !in PrintNat(n)
  {
    PrintNatShape(n);
  }

  lemma OpShape(op: Operation)
    requires ValidOp(op)
    ensures PrintOp(op) != "" && ';' !in PrintOp(op)
  {
    hide PrintNat;
    match op
    case DefaultDelay(ms) => NatHasNoSemicolon(ms);
    case Wait(ms) => NatHasNoSemicolon(ms);
    case KeyPress(u) => NatHasNoSemicolon(u);
    case KeyRelease(u) => NatHasNoSemicolon(u);
    case MousePress(_) =>
    case MouseRelease(_) =>
  }

  lemma Payloads(tag: string, a: string, b: string)
    requires tag + a == tag + b
    ensures a == b
  {
    assert a == (tag + a)[|tag|..];
  }

  /** Different operations print differently. */
  lemma PrintOpInjective(a: Operation, b: Operation)
    requires ValidOp(a) && ValidOp(b) && PrintOp(a) == PrintOp(b)
    ensures a == b
  {
    var s, t := PrintOp(a), PrintOp(b);
    assert s[0] == t[0];
    OpShape(a);
    OpShape(b);
    match a
    case DefaultDelay(m) => Payloads("d", PrintNat(m), PrintNat(b.ms)); NatNotPrinted(m, b.ms);
    case Wait(m) => Payloads("w", PrintNat(m), PrintNat(b.ms)); NatNotPrinted(m, b.ms);
    case KeyPress(u) => SecondChar(a, b); Payloads("kp", PrintNat(u), PrintNat(b.usage)); NatNotPrinted(u, b.usage);
    case KeyRelease(u) => SecondChar(a, b); Payloads("kr", PrintNat(u), PrintNat(b.usage)); NatNotPrinted(u, b.usage);
    case MousePress(c) => SecondChar(a, b); assert s[2] == t[2];
    case MouseRelease(c) => SecondChar(a, b); assert s[2] == t[2];
  }

  lemma SecondChar(a: Operation, b: Operation)
    requires ValidOp(a) && ValidOp(b) && PrintOp(a) == PrintOp(b) && IsHid(a)
    ensures a.KeyPress? <==> b.KeyPress?
    ensures a.KeyRelease? <==> b.KeyRelease?
    ensures a.MousePress? <==> b.MousePress?
    ensures a.MouseRelease? <==> b.MouseRelease?
  {
    assert PrintOp(a)[0] == PrintOp(b)[0] && PrintOp(a)[1] == PrintOp(b)[1];
  }

  // ---------------------------------------------------------------- texts

  /** The tokens so far, each with its semicolon. */
  ghost function Prefix(ops: seq<Operation>): string
    requires AllValid(ops)
  {
    if ops == [] then "" else PrintOp(ops[0]) + ";" + Prefix(ops[1..])
  }

  lemma {:induction false} PrefixAppends(ops: seq<Operation>, op: Operation)
    requires AllValid(ops) && ValidOp(op)
    ensures Print(ops + [op]) == Prefix(ops) + PrintOp(op)
    ensures Prefix(ops + [op]) == Prefix(ops) + PrintOp(op) + ";"
  {
    hide PrintOp;
    if ops == [] {
      assert ops + [op] == [op];
    } else {
      assert (ops + [op])[1..] == ops[1..] + [op];
      PrefixAppends(ops[1..], op);
    }
  }

  /** What stands before the first semicolon is determined. */
  lemma SplitsOnce(a: string, x: string, b: string, y: string)
    requires ';' !in a && ';' !in b && a + ";" + x == b + ";" + y
    ensures a == b && x == y
  {
    var s := a + ";" + x;
    assert s[|a|] == ';' && s[|b|] == ';';
    assert s[..|a|] == a && s[..|b|] == b;
    assert forall k :: 0 <= k < |a| ==> s[k] == a[k];
    assert forall k :: 0 <= k < |b| ==> s[k] == b[k];
    assert x == s[|a| + 1..];
    assert y == s[|b| + 1..];
  }

  /** A text starts with one printed operation, up to its first semicolon. */
  lemma FirstToken(full: seq<Operation>, op: Operation, rest: string)
    requires AllValid(full) && full != [] && ValidOp(op) && Print(full) == PrintOp(op) + ";" + rest
    ensures full[0] == op && |full| > 1 && Print(full[1..]) == rest
  {
    hide PrintOp;
    OpShape(full[0]);
    OpShape(op);
    assert ';' in Print(full) by { assert Print(full)[|PrintOp(op)|] == ';'; }
    SplitsOnce(PrintOp(full[0]), Print(full[1..]), PrintOp(op), rest);
    PrintOpInjective(full[0], op);
  }

  lemma ManyTokens(full: seq<Operation>)
    requires AllValid(full) && |full| > 1
    ensures ';' in Print(full)
  {
    assert Print(full)[|PrintOp(full[0])|] == ';';
  }

  lemma FirstOfRest(full: seq<Operation>, rest: string, end: nat)
    requires AllValid(full) && full != [] && Print(full) == rest
    requires end <= |rest| && ';' !in rest[..end] && (end < |rest| ==> rest[end] == ';')
    ensures PrintOp(full[0]) == rest[..end] && (end == |rest| <==> |full| == 1)
  {
    hide PrintOp;
    OpShape(full[0]);
    if end < |rest| {
      assert rest == rest[..end] + ";" + rest[end + 1..];
      assert ';' in Print(full);
      SplitsOnce(PrintOp(full[0]), Print(full[1..]), rest[..end], rest[end + 1..]);
    } else {
      assert rest[..end] == rest;
      if |full| > 1 { ManyTokens(full); }
    }
  }

  /**
   Any way to read the whole text agrees with what has been read of it, and the next token
   prints its next operation.
   */
  lemma {:induction false} NextToken(full: seq<Operation>, ops: seq<Operation>, rest: string, end: nat)
    requires AllValid(full) && AllValid(ops) && Print(full) == Prefix(ops) + rest && rest != ""
    requires end <= |rest| && ';' !in rest[..end] && (end < |rest| ==> rest[end] == ';')
    ensures |ops| < |full| && full[..|ops|] == ops && PrintOp(full[|ops|]) == rest[..end]
    ensures end == |rest| <==> |full| == |ops| + 1
  {
    hide PrintOp;
    if ops == [] {
      FirstOfRest(full, rest, end);
    } else {
      assert Prefix(ops) + rest == PrintOp(ops[0]) + ";" + (Prefix(ops[1..]) + rest);
      FirstToken(full, ops[0], Prefix(ops[1..]) + rest);
      NextToken(full[1..], ops[1..], rest, end);
      assert full == [full[0]] + full[1..] && ops == [ops[0]] + ops[1..];
    }
  }

  /** The text does not end in a semicolon. */
  lemma {:induction false} LastChar(full: seq<Operation>)
    requires AllValid(full) && full != []
    ensures Print(full) != "" && Print(full)[|Print(full)| - 1] != ';'
  {
    hide PrintOp;
    OpShape(full[0]);
    if |full| > 1 { LastChar(full[1..]); }
  }

  /** Printing is injective: a text has at most one reading. */
  lemma {:induction false} PrintInjective(a: seq<Operation>, b: seq<Operation>)
    requires AllValid(a) && AllValid(b) && a != [] && b != [] && Print(a) == Print(b)
    ensures a == b
  {
    hide PrintOp;
    var n := |b| - 1;
    assert b == b[..n] + [b[n]];
    PrefixAppends(b[..n], b[n]);
    OpShape(b[n]);
    NextToken(a, b[..n], PrintOp(b[n]), |PrintOp(b[n])|);
    PrintOpInjective(a[n], b[n]);
  }
}
