/**
 The packed lifecycle word of a sequence, as encode_status and the decode functions of
 firmware/components/hid_sequence/hid_sequence.cpp lay it out in 32 bits.
 */
module SequenceStatus {

  datatype State = Accepted | Running | Completed | Failed | Aborted

  datatype Code =
    | NoCode | HidBusy | HidNotReady | HidSafetyPending | SessionMismatch | SequenceTimeout | SequenceAborted

  /** What the word means. */
  datatype Word = Word(state: State, executed: bv8, failedPresent: bool, failedToken: bv8, code: Code, owned: bool)

  predicate Terminal(s: State) { s.Completed? || s.Failed? || s.Aborted? }

  function StateNumber(s: State): bv32 {
    match s
    case Accepted => 0
    case Running => 1
    case Completed => 2
    case Failed => 3
    case Aborted => 4
  }

  function CodeNumber(c: Code): bv32 {
    match c
    case NoCode => 0
    case HidBusy => 1
    case HidNotReady => 2
    case HidSafetyPending => 3
    case SessionMismatch => 4
    case SequenceTimeout => 5
    case SequenceAborted => 6
  }

  function StateOf(n: bv32): State {
    if n == 0 then Accepted else if n == 1 then Running else if n == 2 then Completed
    else if n == 3 then Failed else Aborted
  }

  function CodeOf(n: bv32): Code {
    if n == 0 then NoCode else if n == 1 then HidBusy else if n == 2 then HidNotReady
    else if n == 3 then HidSafetyPending else if n == 4 then SessionMismatch
    else if n == 5 then SequenceTimeout else SequenceAborted
  }

  const EXECUTED_MASK: bv32 := 0x7f
  const FAILED_TOKEN_MASK: bv32 := 0x3f
  const CODE_MASK: bv32 := 0xf
  const STATE_MASK: bv32 := 0x7
  const FAILURE_PRESENT: bv32 := 1 << 10
  const RELEASE_OWNED: bv32 := 1 << 21

  /** The word's layout: executed at bit 3, the failed token at bit 11, the code at bit 17. */
  function Pack(state: bv32, executed: bv32, failedPresent: bool, failedToken: bv32, code: bv32, owned: bool): bv32 {
    state | ((executed & EXECUTED_MASK) << 3) | (if failedPresent then FAILURE_PRESENT else 0)
    | ((failedToken & FAILED_TOKEN_MASK) << 11) | ((code & CODE_MASK) << 17)
    | (if owned then RELEASE_OWNED else 0)
  }

  function StateBits(w: bv32): bv32 { w & STATE_MASK }

  function ExecutedBits(w: bv32): bv32 { (w >> 3) & EXECUTED_MASK }

  function FailedTokenBits(w: bv32): bv32 { (w >> 11) & FAILED_TOKEN_MASK }

  function CodeBits(w: bv32): bv32 { (w >> 17) & CODE_MASK }

  predicate FailurePresent(w: bv32) { w & FAILURE_PRESENT != 0 }

  predicate ReleaseOwned(w: bv32) { w & RELEASE_OWNED != 0 }

  /** No field disturbs another: each comes back as long as it fits its bits. */
  lemma FieldsAreApart(state: bv32, executed: bv32, failedPresent: bool, failedToken: bv32, code: bv32, owned: bool)
    requires state <= STATE_MASK && executed <= EXECUTED_MASK && failedToken <= FAILED_TOKEN_MASK && code <= CODE_MASK
    ensures var w := Pack(state, executed, failedPresent, failedToken, code, owned);
      && StateBits(w) == state && ExecutedBits(w) == executed
      && FailedTokenBits(w) == failedToken && CodeBits(w) == code
      && (FailurePresent(w) <==> failedPresent) && (ReleaseOwned(w) <==> owned)
  {
  }

  function Encode(w: Word): bv32 {
    Pack(StateNumber(w.state), Widen(w.executed), w.failedPresent, Widen(w.failedToken), CodeNumber(w.code), w.owned)
  }

  /** One word, bit by bit: aborted at token 5 by a release after five operations. */
  lemma WordSample()
    ensures Encode(Word(Aborted, 5, true, 5, SequenceAborted, true)) == 0x2c_2c2c
    ensures Encode(Word(Running, 3, false, 0, NoCode, false)) == 0x19
    ensures Encode(Word(Completed, 64, false, 0, NoCode, false)) == 0x202
    ensures Encode(Word(Failed, 2, true, 2, SequenceTimeout, false)) == 0x0a_1413
  {
  }

  lemma ReadIsSmall(w: bv32)
    ensures ExecutedBits(w) < 128 && FailedTokenBits(w) < 64
  {
  }

  function Narrow(w: bv32): bv8
    requires w < 256
  {
    w as bv8
  }

  function Decode(w: bv32): Word {
    ReadIsSmall(w);
    Word(StateOf(StateBits(w)), Narrow(ExecutedBits(w)), FailurePresent(w), Narrow(FailedTokenBits(w)),
         CodeOf(CodeBits(w)), ReleaseOwned(w))
  }

  /** The counts fit their bits. */
  predicate Fits(w: Word) { w.executed < 128 && w.failedToken < 64 }

  function Widen(n: bv8): bv32 { n as bv32 }

  lemma Widened(n: bv8)
    ensures Widen(n) < 256 && Narrow(Widen(n)) == n
    ensures n < 128 <==> Widen(n) <= EXECUTED_MASK
    ensures n < 64 <==> Widen(n) <= FAILED_TOKEN_MASK
  {
  }

  lemma Narrowed(w: bv32)
    requires w < 256
    ensures w < 128 ==> Narrow(w) < 128
    ensures w < 64 ==> Narrow(w) < 64
  {
  }

  lemma NumbersRead(s: State, c: Code)
    ensures StateNumber(s) <= STATE_MASK && StateOf(StateNumber(s)) == s
    ensures CodeNumber(c) <= CODE_MASK && CodeOf(CodeNumber(c)) == c
  {
  }

  lemma FieldsOf(w: Word)
    requires Fits(w)
    ensures var b := Encode(w);
      && StateBits(b) == StateNumber(w.state) && ExecutedBits(b) == Widen(w.executed)
      && FailedTokenBits(b) == Widen(w.failedToken) && CodeBits(b) == CodeNumber(w.code)
      && (FailurePresent(b) <==> w.failedPresent) && (ReleaseOwned(b) <==> w.owned)
  {
    hide Widen, Narrow, Pack, StateNumber, CodeNumber, StateBits, ExecutedBits, FailedTokenBits, CodeBits;
    hide FailurePresent, ReleaseOwned;
    Widened(w.executed);
    Widened(w.failedToken);
    NumbersRead(w.state, w.code);
    FieldsAreApart(StateNumber(w.state), Widen(w.executed), w.failedPresent, Widen(w.failedToken),
                   CodeNumber(w.code), w.owned);
  }

  lemma FittingIsRead(w: Word)
    requires Fits(w)
    ensures Decode(Encode(w)) == w
  {
    hide Encode, StateNumber, CodeNumber, StateOf, CodeOf, Widen, Narrow;
    hide StateBits, ExecutedBits, FailedTokenBits, CodeBits, FailurePresent, ReleaseOwned;
    FieldsOf(w);
    Widened(w.executed);
    Widened(w.failedToken);
    NumbersRead(w.state, w.code);
  }

  /** What is packed is read back, exactly for words whose counts fit. */
  lemma DecodeEncode(w: Word)
    ensures Decode(Encode(w)) == w <==> Fits(w)
  {
    hide Encode, Narrow, ExecutedBits, FailedTokenBits;
    if Fits(w) {
      FittingIsRead(w);
    } else {
      var b := Encode(w);
      ReadIsSmall(b);
      Narrowed(ExecutedBits(b));
      Narrowed(FailedTokenBits(b));
    }
  }

  /** So comparing two packed words compares their meanings. */
  lemma EncodeInjective(a: Word, b: Word)
    requires Fits(a) && Fits(b) && Encode(a) == Encode(b)
    ensures a == b
  {
    DecodeEncode(a);
    DecodeEncode(b);
  }
}
