/**
 The UART framer (control_framing.cpp): what it reports of a byte stream is given by a grammar of
 lines and synchronisation runs, however the stream is cut into calls.
 */
module Framing {

  type byte = n: nat | n < 256

  const PREFIX: seq<byte> := [64, 72, 73, 68, 66, 79, 84, 32]   // "@HIDBOT "
  const MAX_REQUEST_LINE_BYTES := 512
  const SYNC_LENGTH := 4
  const NEWLINE: byte := 10
  const CARRIAGE_RETURN: byte := 13

  datatype Event = Frame(payload: seq<byte>) | OverlongProtocolFrame | TransportSync

  // ---------------------------------------------------------------- the grammar

  predicate FourZeros(h: seq<byte>, k: nat)
    requires k <= |h|
  {
    SYNC_LENGTH <= k && h[k - 4] == 0 && h[k - 3] == 0 && h[k - 2] == 0 && h[k - 1] == 0
  }

  /** A line can start at k: at the beginning, after a newline, and after four zeros. */
  predicate Boundary(h: seq<byte>, k: nat)
    requires k <= |h|
  {
    k == 0 || h[k - 1] == NEWLINE || FourZeros(h, k)
  }

  function LastBoundary(h: seq<byte>, k: nat): (b: nat)
    requires k <= |h|
    ensures b <= k && Boundary(h, b) && forall j :: b < j <= k ==> !Boundary(h, j)
  {
    if Boundary(h, k) then k else LastBoundary(h, k - 1)
  }

  /** The unfinished line at the end of h. */
  function Line(h: seq<byte>): seq<byte> { h[LastBoundary(h, |h|)..] }

  /** The payload of a finished line: without the prefix and one trailing carriage return. */
  function Payload(line: seq<byte>): seq<byte>
    requires PREFIX <= line
  {
    var n := |line|;
    if n > |PREFIX| && line[n - 1] == CARRIAGE_RETURN then line[|PREFIX|..n - 1] else line[|PREFIX|..]
  }

  /** What a finished line is worth. */
  function LineEvent(line: seq<byte>): seq<Event> {
    if !(PREFIX <= line) then []
    else if |line| <= MAX_REQUEST_LINE_BYTES then [Frame(Payload(line))]
    else [OverlongProtocolFrame]
  }

  /** What byte k of h is reported as: the fourth zero of a maximal run, or the end of a line. */
  function EventAt(h: seq<byte>, k: nat): seq<Event>
    requires k < |h|
  {
    if FourZeros(h, k + 1) && !FourZeros(h, k) then [TransportSync]
    else if h[k] == NEWLINE then LineEvent(Line(h[..k]))
    else []
  }

  function Events(h: seq<byte>): seq<Event> {
    if h == [] then [] else Events(h[..|h| - 1]) + EventAt(h, |h| - 1)
  }

  // ---------------------------------------------------------------- one more byte

  lemma BoundaryKept(h: seq<byte>, b: byte, k: nat)
    requires k <= |h|
    ensures Boundary(h + [b], k) == Boundary(h, k) && FourZeros(h + [b], k) == FourZeros(h, k)
  {
  }

  lemma {:induction false} LastBoundaryKept(h: seq<byte>, b: byte, k: nat)
    requires k <= |h|
    ensures LastBoundary(h + [b], k) == LastBoundary(h, k)
  {
    BoundaryKept(h, b, k);
    if !Boundary(h, k) { LastBoundaryKept(h, b, k - 1); }
  }

  lemma LineGrows(h: seq<byte>, b: byte)
    ensures Line(h + [b]) == if Boundary(h + [b], |h| + 1) then [] else Line(h) + [b]
  {
    LastBoundaryKept(h, b, |h|);
  }

  lemma EventsGrow(h: seq<byte>, b: byte)
    ensures Events(h + [b]) == Events(h) + EventAt(h + [b], |h|)
  {
    assert (h + [b])[..|h|] == h;
  }

  // ---------------------------------------------------------------- the decoder

  datatype LineState = SeekingPrefix | CollectingFrame | IgnoringLine | DiscardingFrame

  /** Of history, `line` has been handed on and `zeros` zeros are held back (four stand for any more). */
  ghost predicate Counted(history: seq<byte>, line: seq<byte>, zeros: nat) {
    && zeros <= SYNC_LENGTH
    && (zeros == SYNC_LENGTH <==> FourZeros(history, |history|))
    && (if zeros == SYNC_LENGTH then line == [] else Line(history) == line + Zeros(zeros))
    && (zeros < SYNC_LENGTH ==> TrailingZeros(history) == zeros)
  }

  class Transport {
    var lineState: LineState
    var prefixMatchLength: nat
    var frameLength: nat
    var consecutiveZeros: nat
    const frame: array<byte>
    var log: seq<Event>               // what the callback has been given
    ghost var history: seq<byte>      // what has been consumed
    ghost var line: seq<byte>         // what consume_line_byte has seen of the current line

    ghost predicate LineOk()
      reads `lineState, `prefixMatchLength, `frameLength, `line, frame
    {
      && frame.Length == MAX_REQUEST_LINE_BYTES + 1
      && match lineState
         case SeekingPrefix =>
           line < PREFIX && prefixMatchLength == frameLength == |line| && frame[..frameLength] == line
         case CollectingFrame =>
           PREFIX <= line && frameLength == |line| <= MAX_REQUEST_LINE_BYTES && frame[..frameLength] == line
         case IgnoringLine => !(line <= PREFIX) && !(PREFIX <= line)
         case DiscardingFrame => PREFIX <= line && |line| > MAX_REQUEST_LINE_BYTES
    }

    ghost predicate Valid()
      reads this, frame
    {
      && LineOk()
      && Counted(history, line, consecutiveZeros)
      && log == Events(history)
    }

    constructor ()
      ensures Valid() && history == [] && fresh(frame)
    {
      lineState, prefixMatchLength, frameLength, consecutiveZeros := SeekingPrefix, 0, 0, 0;
      frame := new byte[MAX_REQUEST_LINE_BYTES + 1](_ => 0);
      log, history, line := [], [], [];
    }

    method ResetLine()
      requires frame.Length == MAX_REQUEST_LINE_BYTES + 1
      modifies `lineState, `prefixMatchLength, `frameLength, `line, frame
      ensures LineOk() && line == [] && forall k :: 0 <= k < frame.Length ==> frame[k] == 0
    {
      for k := 0 to frame.Length
        invariant forall j :: 0 <= j < k ==> frame[j] == 0
      {
        frame[k] := 0;
      }
      lineState, prefixMatchLength, frameLength, line := SeekingPrefix, 0, 0, [];
    }

    method ConsumeLineByte(b: byte)
      requires LineOk()
      modifies `lineState, `prefixMatchLength, `frameLength, `line, `log, frame
      ensures LineOk()
      ensures line == if b == NEWLINE then [] else old(line) + [b]
      ensures log == if b == NEWLINE then old(log) + LineEvent(old(line)) else old(log)
    {
      if b == NEWLINE {
        if lineState.CollectingFrame? {
          var payloadLength := frameLength - |PREFIX|;
          if payloadLength > 0 && frame[frameLength - 1] == CARRIAGE_RETURN {
            payloadLength := payloadLength - 1;
          }
          assert frame[frameLength - 1] == line[|line| - 1];
          assert frame[|PREFIX|..|PREFIX| + payloadLength] == frame[..frameLength][|PREFIX|..|PREFIX| + payloadLength];
          log := log + [Frame(frame[|PREFIX|..|PREFIX| + payloadLength])];
        } else if lineState.DiscardingFrame? {
          log := log + [OverlongProtocolFrame];
        }
        ResetLine();
        return;
      }
      match lineState
      case SeekingPrefix =>
        if b != PREFIX[prefixMatchLength] {
          assert (line + [b])[|line|] == b;
          line := line + [b];
          lineState := IgnoringLine;
          return;
        }
        frame[frameLength] := b;
        frameLength := frameLength + 1;
        prefixMatchLength := prefixMatchLength + 1;
        line := line + [b];
        if prefixMatchLength == |PREFIX| {
          lineState := CollectingFrame;
        }
      case CollectingFrame =>
        if frameLength < MAX_REQUEST_LINE_BYTES {
          frame[frameLength] := b;
          frameLength := frameLength + 1;
        } else {
          lineState := DiscardingFrame;
        }
        line := line + [b];
      case IgnoringLine =>
        assert (line + [b])[..|line|] == line;
        line := line + [b];
      case DiscardingFrame =>
        line := line + [b];
    }

    /** A zero byte: counted, and with the fourth the line is dropped. */
    method ConsumeZero()
      requires Valid()
      modifies this, frame
      ensures Valid() && history == old(history) + [0]
    {
      ghost var h := history;
      ZeroCounts(h);
      hide Line, TrailingZeros, FourZeros, EventAt, Events;
      if consecutiveZeros < SYNC_LENGTH {
        consecutiveZeros := consecutiveZeros + 1;
        assert Zeros(consecutiveZeros) == Zeros(consecutiveZeros - 1) + [0];
        if consecutiveZeros == SYNC_LENGTH {
          ResetLine();
          log := log + [TransportSync];
        }
      }
      history := h + [0];
    }

    /** Fewer than four zeros turned out to be data: they are handed on. */
    method ConsumeHeldZeros()
      requires Valid()
      modifies `lineState, `prefixMatchLength, `frameLength, `line, `log, frame
      ensures LineOk() && line == Line(history) && log == Events(history)
    {
      if consecutiveZeros < SYNC_LENGTH {
        ghost var seen, reported := line, log;
        var zero := 0;
        while zero < consecutiveZeros
          invariant 0 <= zero <= consecutiveZeros && LineOk()
          invariant line == seen + Zeros(zero) && log == reported
        {
          ConsumeLineByte(0);
          assert Zeros(zero + 1) == Zeros(zero) + [0];
          zero := zero + 1;
        }
      }
    }

    method ConsumeOther(b: byte)
      requires Valid() && b != 0
      modifies this, frame
      ensures Valid() && history == old(history) + [b]
    {
      hide Counted, Line, TrailingZeros, FourZeros, EventAt, Events, LineEvent, LineOk;
      ConsumeHeldZeros();
      OtherIsCounted(history, b);
      ConsumeLineByte(b);
      consecutiveZeros := 0;
      history := history + [b];
    }

    /** consume: whatever has been reported is what the grammar says of all bytes so far. */
    method Consume(data: seq<byte>)
      requires Valid()
      modifies this, frame
      ensures Valid() && history == old(history) + data
      ensures log == Events(history)
    {
      hide Counted, Events, LineOk;
      var index := 0;
      while index < |data|
        invariant 0 <= index <= |data| && Valid() && history == old(history) + data[..index]
      {
        if data[index] == 0 {
          ConsumeZero();
        } else {
          ConsumeOther(data[index]);
        }
        assert data[..index + 1] == data[..index] + [data[index]];
        index := index + 1;
      }
      assert data[..index] == data;
    }

    /** reset: the decoder is as new, and its storage is zero. */
    method Reset()
      requires Valid()
      modifies this, frame
      ensures Valid() && history == [] && log == []
      ensures forall k :: 0 <= k < frame.Length ==> frame[k] == 0
    {
      ResetLine();
      consecutiveZeros, history, log := 0, [], [];
    }
  }

  lemma ZerosGrow(h: seq<byte>)
    ensures TrailingZeros(h + [0]) == TrailingZeros(h) + 1
    ensures FourZeros(h + [0], |h| + 1) <==> TrailingZeros(h) >= SYNC_LENGTH - 1
    ensures FourZeros(h, |h|) <==> TrailingZeros(h) >= SYNC_LENGTH
  {
    assert (h + [0])[..|h|] == h;
    ZerosCount(h);
    ZerosCount(h + [0]);
  }

  lemma ZeroEnds(h: seq<byte>)
    ensures Boundary(h + [0], |h| + 1) <==> FourZeros(h + [0], |h| + 1)
    ensures EventAt(h + [0], |h|) == if FourZeros(h + [0], |h| + 1) && !FourZeros(h, |h|) then [TransportSync] else []
  {
    BoundaryKept(h, 0, |h|);
  }

  /** What a zero adds to the line and to the report. */
  lemma ZeroCounts(h: seq<byte>)
    ensures TrailingZeros(h + [0]) == TrailingZeros(h) + 1
    ensures FourZeros(h + [0], |h| + 1) <==> TrailingZeros(h) >= SYNC_LENGTH - 1
    ensures FourZeros(h, |h|) <==> TrailingZeros(h) >= SYNC_LENGTH
    ensures Line(h + [0]) == if TrailingZeros(h) >= SYNC_LENGTH - 1 then [] else Line(h) + [0]
    ensures Events(h + [0]) == Events(h) + if TrailingZeros(h) == SYNC_LENGTH - 1 then [TransportSync] else []
  {
    hide Line, Events, EventAt, TrailingZeros, FourZeros, Boundary;
    ZerosGrow(h);
    ZeroEnds(h);
    LineGrows(h, 0);
    EventsGrow(h, 0);
  }

  /** And what any other byte adds. */
  lemma OtherCounts(h: seq<byte>, b: byte)
    requires b != 0
    ensures TrailingZeros(h + [b]) == 0 && !FourZeros(h + [b], |h| + 1)
    ensures Line(h + [b]) == if b == NEWLINE then [] else Line(h) + [b]
    ensures Events(h + [b]) == Events(h) + if b == NEWLINE then LineEvent(Line(h)) else []
    ensures FourZeros(h, |h|) ==> Line(h) == []
  {
    assert (h + [b])[..|h|] == h;
    LineGrows(h, b);
    EventsGrow(h, b);
  }

  lemma OtherIsCounted(h: seq<byte>, b: byte)
    requires b != 0
    ensures Counted(h + [b], if b == NEWLINE then [] else Line(h) + [b], 0)
    ensures Events(h + [b]) == if b == NEWLINE then Events(h) + LineEvent(Line(h)) else Events(h)
  {
    OtherCounts(h, b);
  }

  lemma {:induction false} ZerosCount(h: seq<byte>)
    ensures FourZeros(h, |h|) <==> TrailingZeros(h) >= SYNC_LENGTH
  {
    if h != [] {
      var n := |h| - 1;
      assert forall k :: 0 <= k <= n ==> FourZeros(h[..n], k) == FourZeros(h, k);
      TrailingIs(h, 4);
    }
  }

  lemma {:induction false} TrailingIs(h: seq<byte>, n: nat)
    ensures TrailingZeros(h) >= n <==> n <= |h| && forall k :: |h| - n <= k < |h| ==> h[k] == 0
  {
    if n > 0 && h != [] { TrailingIs(h[..|h| - 1], n - 1); }
  }

  function Zeros(n: nat): seq<byte> { seq(n, _ => 0) }

  function TrailingZeros(h: seq<byte>): nat {
    if h == [] || h[|h| - 1] != 0 then 0 else 1 + TrailingZeros(h[..|h| - 1])
  }

  // ---------------------------------------------------------------- what the grammar promises

  /** Every way to cut a stream into calls reports the same. */
  method ConsumeAll(transport: Transport, chunks: seq<seq<byte>>)
    requires transport.Valid() && transport.history == []
    modifies transport, transport.frame
    ensures transport.Valid() && transport.log == Events(Joined(chunks))
  {
    var k := 0;
    while k < |chunks|
      invariant 0 <= k <= |chunks| && transport.Valid() && transport.history == Joined(chunks[..k])
    {
      transport.Consume(chunks[k]);
      assert chunks[..k + 1][..k] == chunks[..k];
      k := k + 1;
    }
    assert chunks[..k] == chunks;
  }

  function Joined(chunks: seq<seq<byte>>): seq<byte> {
    if chunks == [] then [] else Joined(chunks[..|chunks| - 1]) + chunks[|chunks| - 1]
  }

  /** A maximal run of zeros from a to b. */
  predicate ZeroRun(h: seq<byte>, a: nat, b: nat) {
    && a < b <= |h|
    && (forall k :: a <= k < b ==> h[k] == 0)
    && (a > 0 ==> h[a - 1] != 0) && (b < |h| ==> h[b] != 0)
  }

  /** A maximal run of at least four zeros is reported once, with its fourth zero; a shorter one not at all. */
  lemma OneSyncARun(h: seq<byte>, a: nat, b: nat, k: nat)
    requires ZeroRun(h, a, b) && a <= k < b
    ensures EventAt(h, k) == if k == a + 3 then [TransportSync] else []
  {
  }

  /** A line holds no newline and no four zeros in a row after its start, and begins at a boundary. */
  lemma LineIsMaximal(h: seq<byte>, k: nat)
    requires |h| - |Line(h)| <= k <= |h|
    ensures Boundary(h, |h| - |Line(h)|)
    ensures k > |h| - |Line(h)| ==> h[k - 1] != NEWLINE && !FourZeros(h, k)
  {
    var b := LastBoundary(h, |h|);
    assert |h| - |Line(h)| == b;
    assert k > b ==> !Boundary(h, k);
  }

  /** What is reported after a synchronisation. */
  function After(h: seq<byte>, t: seq<byte>): seq<Event> {
    if t == [] then [] else After(h, t[..|t| - 1]) + EventAt(h + t, |h| + |t| - 1)
  }

  lemma AfterGrows(h: seq<byte>, t: seq<byte>, b: byte)
    ensures After(h, t + [b]) == After(h, t) + EventAt(h + t + [b], |h| + |t|)
  {
    assert (t + [b])[..|t|] == t;
    assert h + (t + [b]) == h + t + [b];
  }

  lemma {:induction false} EventsSplit(h: seq<byte>, t: seq<byte>)
    ensures Events(h + t) == Events(h) + After(h, t)
  {
    hide Events, EventAt;
    if t == [] {
      assert h + t == h;
    } else {
      var n := |t| - 1;
      EventsSplit(h, t[..n]);
      assert t == t[..n] + [t[n]];
      assert h + t == (h + t[..n]) + [t[n]];
      EventsGrow(h + t[..n], t[n]);
      AfterGrows(h, t[..n], t[n]);
    }
  }

  lemma SameBoundary(h: seq<byte>, g: seq<byte>, t: seq<byte>)
    requires FourZeros(h, |h|) && FourZeros(g, |g|) && t != []
    ensures Boundary(h + t, |h| + |t|) == Boundary(g + t, |g| + |t|)
  {
    SameTail(h, g, t, |t|);
    TailAt(h, g, t, |t| - 1);
    hide FourZeros;
  }

  lemma SyncEndsLine(h: seq<byte>)
    requires FourZeros(h, |h|)
    ensures Line(h) == []
  {
  }

  lemma {:induction false} SameLineAfterSync(h: seq<byte>, g: seq<byte>, t: seq<byte>)
    requires FourZeros(h, |h|) && FourZeros(g, |g|)
    ensures Line(h + t) == Line(g + t)
  {
    hide Line, FourZeros, Boundary;
    if t == [] {
      assert h + t == h && g + t == g;
      SyncEndsLine(h);
      SyncEndsLine(g);
    } else {
      var front, b := t[..|t| - 1], t[|t| - 1];
      SameLineAfterSync(h, g, front);
      SameBoundary(h, g, t);
      assert h + t == (h + front) + [b] && g + t == (g + front) + [b];
      LineGrows(h + front, b);
      LineGrows(g + front, b);
    }
  }

  lemma SameTail(h: seq<byte>, g: seq<byte>, t: seq<byte>, k: nat)
    requires FourZeros(h, |h|) && FourZeros(g, |g|) && k <= |t|
    ensures FourZeros(h + t, |h| + k) == FourZeros(g + t, |g| + k)
  {
    TailAt(h, g, t, k - 4);
    TailAt(h, g, t, k - 3);
    TailAt(h, g, t, k - 2);
    TailAt(h, g, t, k - 1);
  }

  lemma TailAt(h: seq<byte>, g: seq<byte>, t: seq<byte>, i: int)
    requires FourZeros(h, |h|) && FourZeros(g, |g|) && -4 <= i < |t|
    ensures (h + t)[|h| + i] == (g + t)[|g| + i]
  {
    if i >= 0 {
      assert (h + t)[|h| + i] == t[i] == (g + t)[|g| + i];
    } else {
      assert (h + t)[|h| + i] == h[|h| + i] == 0 && (g + t)[|g| + i] == g[|g| + i] == 0;
    }
  }

  /** After a synchronisation run the reports depend on the later bytes alone. */
  lemma {:induction false} SyncForgetsThePast(h: seq<byte>, g: seq<byte>, t: seq<byte>)
    requires FourZeros(h, |h|) && FourZeros(g, |g|)
    ensures After(h, t) == After(g, t)
    ensures Events(h + t) == Events(h) + After(g, t)
  {
    hide After, EventAt, Events, FourZeros;
    EventsSplit(h, t);
    if t == [] {
      AfterNothing(h);
      AfterNothing(g);
    } else {
      var front, b := t[..|t| - 1], t[|t| - 1];
      SyncForgetsThePast(h, g, front);
      SameEvent(h, g, front, b);
      AfterGrows(h, front, b);
      AfterGrows(g, front, b);
      assert t == front + [b];
    }
  }

  lemma AfterNothing(h: seq<byte>)
    ensures After(h, []) == []
  {
  }

  lemma SameEvent(h: seq<byte>, g: seq<byte>, t: seq<byte>, b: byte)
    requires FourZeros(h, |h|) && FourZeros(g, |g|)
    ensures EventAt(h + t + [b], |h| + |t|) == EventAt(g + t + [b], |g| + |t|)
  {
    hide FourZeros, Line;
    SameTail(h, g, t + [b], |t|);
    SameTail(h, g, t + [b], |t| + 1);
    SameLineAfterSync(h, g, t);
    assert h + (t + [b]) == h + t + [b] && g + (t + [b]) == g + t + [b];
    assert (h + t + [b])[..|h| + |t|] == h + t && (g + t + [b])[..|g| + |t|] == g + t;
  }
}
