/**
 `parse` of firmware/components/hid_sequence/hid_sequence.cpp: it accepts exactly the printed
 plans that fit the limits and can be carried out from the given state.
 */
module SequenceParser {
  import opened Decimal
  import opened SequenceKeys
  import opened SequenceText

  datatype Plan = Plan(ops: seq<Operation>, duration: nat, keyboard: bool, mouse: bool, initial: Hid)

  // ---------------------------------------------------------------- what a plan does

  /** The state after all of ops, or None if one of them fails. */
  ghost function Simulated(h: Hid, ops: seq<Operation>): Option<Hid> {
    if ops == [] then Some(h)
    else
      var before := Simulated(h, ops[..|ops| - 1]);
      if before.None? then None else Transition(ops[|ops| - 1], before.value)
  }

  /** The default delay in force after ops. */
  ghost function DelayAfter(ops: seq<Operation>): nat {
    if ops == [] then 0
    else if ops[|ops| - 1].DefaultDelay? then ops[|ops| - 1].ms
    else DelayAfter(ops[..|ops| - 1])
  }

  /** The time operation i takes: a wait its own, a report the current delay unless it is last. */
  ghost function Pause(ops: seq<Operation>, i: nat): nat
    requires i < |ops|
  {
    if ops[i].Wait? then ops[i].ms
    else if IsHid(ops[i]) && i + 1 < |ops| then DelayAfter(ops[..i])
    else 0
  }

  ghost function TotalPause(ops: seq<Operation>, n: nat): nat
    requires n <= |ops|
  {
    if n == 0 then 0 else TotalPause(ops, n - 1) + Pause(ops, n - 1)
  }

  /** What parse promises of an accepted text. */
  ghost predicate Accepts(code: string, h: Hid, ops: seq<Operation>) {
    && 1 <= |ops| <= MAXIMUM_TOKENS && |code| <= MAXIMUM_CODE_BYTES
    && AllValid(ops) && code == Print(ops)
    && Simulated(h, ops).Some?
    && TotalPause(ops, |ops|) <= MAXIMUM_SCHEDULED_DURATION_MS
  }

  lemma {:induction false} FailureLasts(h: Hid, ops: seq<Operation>, n: nat)
    requires n <= |ops| && Simulated(h, ops).Some?
    ensures Simulated(h, ops[..n]).Some?
  {
    if n == |ops| {
      assert ops[..n] == ops;
    } else {
      FailureLasts(h, ops[..|ops| - 1], n);
      assert ops[..|ops| - 1][..n] == ops[..n];
    }
  }

  lemma SimulatedFront(h: Hid, ops: seq<Operation>)
    ensures ops == [] ==> Simulated(h, ops) == Some(h)
    ensures ops != [] ==>
              var before := Simulated(h, ops[..|ops| - 1]);
              Simulated(h, ops) == if before.None? then None else Transition(ops[|ops| - 1], before.value)
  {
  }

  lemma {:induction false} PausesGrow(ops: seq<Operation>, m: nat, n: nat)
    requires m <= n <= |ops|
    ensures TotalPause(ops, m) <= TotalPause(ops, n)
    decreases n
  {
    if m < n { PausesGrow(ops, m, n - 1); }
  }

  // ---------------------------------------------------------------- tokens

  function ButtonBit(letter: char): bv8 {
    match letter
    case 'L' => 1
    case 'R' => 2
    case 'M' => 4
    case 'B' => 8
    case 'F' => 16
    case _ => 0
  }

  lemma Tagged(tag: string, token: string)
    requires tag <= token
    ensures token == tag + token[|tag|..]
  {
  }

  /** How an operation prints, as parse takes tokens apart. */
  lemma OpPrinted(op: Operation)
    requires ValidOp(op)
    ensures var token := PrintOp(op);
      match op
      case DefaultDelay(ms) => token != "" && token[0] == 'd' && token[1..] == PrintNat(ms)
      case Wait(ms) => token != "" && token[0] == 'w' && token[1..] == PrintNat(ms)
      case KeyPress(u) => 3 <= |token| <= 5 && token[..2] == "kp" && token[2..] == PrintNat(u)
      case KeyRelease(u) => 3 <= |token| <= 5 && token[..2] == "kr" && token[2..] == PrintNat(u)
      case MousePress(b) => |token| == 3 && token[..2] == "mp" && ButtonBit(token[2]) == b
      case MouseRelease(b) => |token| == 3 && token[..2] == "mr" && ButtonBit(token[2]) == b
  {
    hide PrintNat;
    match op
    case KeyPress(u) => PrintNatShape(u);
    case KeyRelease(u) => PrintNatShape(u);
    case _ =>
  }

  /** No operation prints as this token. */
  ghost predicate NoOp(token: string) { forall op :: ValidOp(op) ==> PrintOp(op) != token }

  method ParseDelayToken(token: string, maximum: nat) returns (op: Option<Operation>)
    requires token != "" && (token[0] == 'd' || token[0] == 'w')
    requires maximum == if token[0] == 'd' then MAXIMUM_DEFAULT_DELAY_MS else MAXIMUM_WAIT_MS
    ensures op.Some? ==> ValidOp(op.value) && PrintOp(op.value) == token
    ensures op.None? ==> NoOp(token)
  {
    hide PrintNat, PrintOp;
    Tagged(token[..1], token);
    var value := ParseNumber(token[1..], maximum);
    if value.Some? {
      op := Some(if token[0] == 'd' then DefaultDelay(value.value) else Wait(value.value));
      OpPrinted(op.value);
      Tagged(token[..1], PrintOp(op.value));
    } else {
      op := None;
      forall o: Operation | ValidOp(o) ensures PrintOp(o) != token { OpPrinted(o); }
    }
  }

  method ParseKeyToken(token: string) returns (op: Option<Operation>)
    requires |token| >= 3 && (token[..2] == "kp" || token[..2] == "kr")
    ensures op.Some? ==> ValidOp(op.value) && PrintOp(op.value) == token
    ensures op.None? ==> NoOp(token)
  {
    hide PrintNat, PrintOp;
    op := None;
    if |token| <= 5 {
      var value := ParseNumber(token[2..], MAXIMUM_USAGE);
      if value.Some? && (OrdinaryUsage(value.value) || ModifierUsage(value.value)) {
        op := Some(if token[1] == 'p' then KeyPress(value.value) else KeyRelease(value.value));
        OpPrinted(op.value);
        Tagged(token[..2], token);
        Tagged(token[..2], PrintOp(op.value));
        return;
      }
    }
    forall o: Operation | ValidOp(o) ensures PrintOp(o) != token { OpPrinted(o); }
  }

  /** The branches of parse for one token. */
  method ParseToken(token: string) returns (op: Option<Operation>)
    ensures op.Some? ==> ValidOp(op.value) && PrintOp(op.value) == token
    ensures op.None? ==> NoOp(token)
  {
    hide PrintNat, PrintOp;
    op := None;
    if token == "" {
      forall o: Operation | ValidOp(o) ensures PrintOp(o) != token { OpPrinted(o); }
    } else if token[0] == 'd' {
      op := ParseDelayToken(token, MAXIMUM_DEFAULT_DELAY_MS);
    } else if token[0] == 'w' {
      op := ParseDelayToken(token, MAXIMUM_WAIT_MS);
    } else if |token| >= 3 && (token[..2] == "kp" || token[..2] == "kr") {
      op := ParseKeyToken(token);
    } else if |token| == 3 && (token[..2] == "mp" || token[..2] == "mr") {
      var bit := ButtonBit(token[2]);
      if bit != 0 {
        op := Some(if token[1] == 'p' then MousePress(bit) else MouseRelease(bit));
        OpPrinted(op.value);
        ButtonPrinted(token, op.value);
      } else {
        forall o: Operation | ValidOp(o) ensures PrintOp(o) != token { OpPrinted(o); }
      }
    } else {
      forall o: Operation | ValidOp(o) ensures PrintOp(o) != token { OpPrinted(o); }
    }
  }

  lemma ButtonPrinted(token: string, op: Operation)
    requires |token| == 3 && ButtonBit(token[2]) != 0
    requires (token[..2] == "mp" && op == MousePress(ButtonBit(token[2])))
      || (token[..2] == "mr" && op == MouseRelease(ButtonBit(token[2])))
    ensures ValidOp(op) && PrintOp(op) == token
  {
    assert token == token[..2] + [token[2]];
  }

  // ---------------------------------------------------------------- parse

  /** The next semicolon, or the end. */
  method FindDelimiter(code: string, offset: nat) returns (end: nat)
    requires offset <= |code|
    ensures offset <= end <= |code| && ';' !in code[offset..end] && (end < |code| ==> code[end] == ';')
  {
    end := offset;
    while end < |code| && code[end] != ';'
      invariant offset <= end <= |code| && ';' !in code[offset..end]
    {
      end := end + 1;
    }
  }

  /** Every reading of code starts with ops and goes on. */
  ghost predicate ReadSoFar(code: string, ops: seq<Operation>, offset: nat) {
    AllValid(ops) && offset <= |code| && code[..offset] == Prefix(ops)
  }

  lemma NextOperation(code: string, h: Hid, ops: seq<Operation>, offset: nat, end: nat, full: seq<Operation>)
    requires ReadSoFar(code, ops, offset) && Accepts(code, h, full)
    requires offset < |code| && offset <= end <= |code|
    requires ';' !in code[offset..end] && (end < |code| ==> code[end] == ';')
    ensures |ops| < |full| && full[..|ops|] == ops && PrintOp(full[|ops|]) == code[offset..end]
    ensures end == |code| <==> |full| == |ops| + 1
  {
    hide PrintOp;
    var rest := code[offset..];
    assert code == Prefix(ops) + rest;
    assert rest[..end - offset] == code[offset..end];
    NextToken(full, ops, rest, end - offset);
  }

  ghost predicate Rejected(code: string, h: Hid) { forall full :: !Accepts(code, h, full) }

  /** The token at offset is no operation, or one too many, or fails. */
  lemma RejectedHere(code: string, h: Hid, ops: seq<Operation>, offset: nat, end: nat, op: Option<Operation>)
    requires ReadSoFar(code, ops, offset) && offset < |code| && offset <= end <= |code|
    requires ';' !in code[offset..end] && (end < |code| ==> code[end] == ';')
    requires
      || |ops| == MAXIMUM_TOKENS
      || (op.None? && NoOp(code[offset..end]))
      || (op.Some? && ValidOp(op.value) && PrintOp(op.value) == code[offset..end]
          && Simulated(h, ops + [op.value]).None?)
    ensures Rejected(code, h)
  {
    hide PrintOp;
    forall full
      ensures !Accepts(code, h, full)
    {
      if Accepts(code, h, full) {
        NextOperation(code, h, ops, offset, end, full);
        var n := |ops|;
        if op.Some? && ValidOp(op.value) && PrintOp(op.value) == code[offset..end] {
          PrintOpInjective(full[n], op.value);
          assert full[..n + 1] == ops + [op.value];
          FailureLasts(h, full, n + 1);
        }
      }
    }
  }

  lemma RejectedLength(code: string, h: Hid)
    requires code == "" || |code| > MAXIMUM_CODE_BYTES
    ensures Rejected(code, h)
  {
    forall full
      ensures !Accepts(code, h, full)
    {
      if AllValid(full) && full != [] { LastChar(full); }
    }
  }

  lemma RejectedTrailing(code: string, h: Hid)
    requires code != "" && code[|code| - 1] == ';'
    ensures Rejected(code, h)
  {
    forall full
      ensures !Accepts(code, h, full)
    {
      if Accepts(code, h, full) { LastChar(full); }
    }
  }

  /** A complete reading decides. */
  lemma DecidedBy(code: string, h: Hid, ops: seq<Operation>)
    requires AllValid(ops) && ops != [] && code == Print(ops) && !Accepts(code, h, ops)
    ensures Rejected(code, h)
  {
    forall full
      ensures !Accepts(code, h, full)
    {
      if Accepts(code, h, full) { PrintInjective(ops, full); }
    }
  }

  /**
   A text is accepted exactly if it is the printing of a plan that is valid, short enough, can
   be carried out from the initial state, and pauses no longer than the bound; the plan is that
   one, and its roles are those its operations need.
   */
  method Parse(code: string, initial: Hid) returns (plan: Option<Plan>)
    requires |initial.keys| == SLOTS
    ensures plan.Some? <==> exists ops :: Accepts(code, initial, ops)
    ensures plan.Some? ==>
              var p := plan.value;
              && Accepts(code, initial, p.ops) && p.initial == initial
              && p.duration == TotalPause(p.ops, |p.ops|)
              && (p.keyboard <==> exists i :: 0 <= i < |p.ops| && (p.ops[i].KeyPress? || p.ops[i].KeyRelease?))
              && (p.mouse <==> exists i :: 0 <= i < |p.ops| && (p.ops[i].MousePress? || p.ops[i].MouseRelease?))
  {
    hide PrintOp, NoOp, Transition, Simulated, TotalPause, Print;
    if code == "" || |code| > MAXIMUM_CODE_BYTES {
      RejectedLength(code, initial);
      return None;
    }
    var simulated := new HidState(initial);
    SimulatedFront(initial, []);
    var ops: seq<Operation>, offset, keyboard, mouse := [], 0, false, false;
    while offset < |code|
      invariant simulated.Valid() && fresh(simulated) && fresh(simulated.keycodes)
      invariant ReadSoFar(code, ops, offset) && offset < |code| && |ops| <= MAXIMUM_TOKENS
      invariant Simulated(initial, ops) == Some(simulated.Value())
      invariant keyboard <==> exists i :: 0 <= i < |ops| && (ops[i].KeyPress? || ops[i].KeyRelease?)
      invariant mouse <==> exists i :: 0 <= i < |ops| && (ops[i].MousePress? || ops[i].MouseRelease?)
      decreases |code| - offset
    {
      var end := FindDelimiter(code, offset);
      if |ops| == MAXIMUM_TOKENS {
        RejectedHere(code, initial, ops, offset, end, None);
        return None;
      }
      var op := ParseToken(code[offset..end]);
      if op.None? {
        RejectedHere(code, initial, ops, offset, end, op);
        return None;
      }
      var ok := simulated.Apply(op.value);
      SimulatedFront(initial, ops + [op.value]);
      assert (ops + [op.value])[..|ops|] == ops;
      if !ok {
        RejectedHere(code, initial, ops, offset, end, op);
        return None;
      }
      PrefixAppends(ops, op.value);
      assert code[..end] == code[..offset] + code[offset..end];
      ghost var n := |ops|;
      ops := ops + [op.value];
      keyboard := keyboard || op.value.KeyPress? || op.value.KeyRelease?;
      mouse := mouse || op.value.MousePress? || op.value.MouseRelease?;
      assert ops[n] == op.value;
      if end == |code| {
        assert code == Print(ops) by { assert code[..end] == code; }
        break;
      }
      assert code[..end + 1] == code[..end] + ";";
      offset := end + 1;
      if offset == |code| {
        RejectedTrailing(code, initial);
        return None;
      }
    }
    var duration := PlanDuration(ops);
    if duration.None? {
      DecidedBy(code, initial, ops);
      return None;
    }
    assert Accepts(code, initial, ops);
    return Some(Plan(ops, duration.value, keyboard, mouse, initial));
  }

  /** The second loop of parse: a running total that never leaves 32 bits. */
  method PlanDuration(ops: seq<Operation>) returns (duration: Option<nat>)
    requires AllValid(ops)
    ensures duration ==
            if TotalPause(ops, |ops|) <= MAXIMUM_SCHEDULED_DURATION_MS then Some(TotalPause(ops, |ops|)) else None
  {
    var defaultDelay, total, index := 0, 0, 0;
    while index < |ops|
      invariant 0 <= index <= |ops|
      invariant defaultDelay == DelayAfter(ops[..index]) && defaultDelay <= MAXIMUM_DEFAULT_DELAY_MS
      invariant total == TotalPause(ops, index) && total <= MAXIMUM_SCHEDULED_DURATION_MS
    {
      var op := ops[index];
      assert ops[..index + 1][..index] == ops[..index];
      if op.DefaultDelay? {
        defaultDelay := op.ms;
      } else if op.Wait? {
        total := total + op.ms;
      } else if index + 1 < |ops| {
        total := total + defaultDelay;
      }
      index := index + 1;
      assert total < 0x1_0000_0000;
      if total > MAXIMUM_SCHEDULED_DURATION_MS {
        PausesGrow(ops, index, |ops|);
        return None;
      }
    }
    return Some(total);
  }

  /** parse and print are inverse to each other: an accepted text has one reading, and prints back. */
  lemma ReadingsAreUnique(code: string, h: Hid, g: Hid, a: seq<Operation>, b: seq<Operation>)
    requires Accepts(code, h, a) && Accepts(code, g, b)
    ensures a == b && Print(a) == code
  {
    PrintInjective(a, b);
  }

  /** From a canonical state a plan only ever reaches canonical states. */
  lemma {:induction false} PlanKeepsCanonical(h: Hid, ops: seq<Operation>)
    requires Canonical(h.keys) && AllValid(ops) && Simulated(h, ops).Some?
    ensures Canonical(Simulated(h, ops).value.keys)
  {
    if ops != [] {
      var front := ops[..|ops| - 1];
      PlanKeepsCanonical(h, front);
      TransitionRefinesSets(ops[|ops| - 1], Simulated(h, front).value);
    }
  }
}
