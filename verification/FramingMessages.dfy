/**
 What is sent as frames comes back as frames: the decoder is the inverse of writing each payload
 between the prefix and the end of a line, and other lines are told apart.
 */
module FramingMessages {
  import opened Framing

  /** Bytes that a line can hold: no newline, no four zeros in a row, and no zero first. */
  predicate LineBytes(s: seq<byte>) {
    && (s != [] ==> s[0] != 0)
    && (forall k :: 0 <= k < |s| ==> s[k] != NEWLINE)
    && (forall k :: 0 <= k <= |s| ==> !FourZeros(s, k))
  }

  lemma NothingEnds(h: seq<byte>, s: seq<byte>, j: nat)
    requires LineBytes(s) && 0 < j <= |s|
    ensures !FourZeros(h + s[..j], |h| + j) && !Boundary(h + s[..j], |h| + j)
  {
    var t := h + s[..j];
    assert t[|h| + j - 1] == s[j - 1] && t[|h|] == s[0];
    assert j >= 4 ==> !FourZeros(s, j);
  }

  /** Such bytes after the end of a line are the next line, and nothing is reported for them. */
  lemma {:induction false} LineGoesOn(h: seq<byte>, s: seq<byte>, j: nat)
    requires Line(h) == [] && LineBytes(s) && j <= |s|
    ensures Line(h + s[..j]) == s[..j] && Events(h + s[..j]) == Events(h)
  {
    hide Line, Events, FourZeros, Boundary;
    if j == 0 {
      assert h + s[..0] == h;
    } else {
      LineGoesOn(h, s, j - 1);
      var before, b := h + s[..j - 1], s[j - 1];
      assert h + s[..j] == before + [b];
      NothingEnds(h, s, j);
      LineGrows(before, b);
      EventsGrow(before, b);
      NothingAt(before, b);
    }
  }

  lemma NothingAt(before: seq<byte>, b: byte)
    requires b != NEWLINE && !FourZeros(before + [b], |before| + 1)
    ensures EventAt(before + [b], |before|) == []
  {
  }

  /** A finished line is worth what it is alone. */
  lemma LineIsReported(h: seq<byte>, s: seq<byte>)
    requires Line(h) == [] && LineBytes(s)
    ensures Events(h + s + [NEWLINE]) == Events(h) + LineEvent(s) && Line(h + s + [NEWLINE]) == []
  {
    assert s[..|s|] == s;
    LineGoesOn(h, s, |s|);
    OtherCounts(h + s, NEWLINE);
  }

  // ---------------------------------------------------------------- frames

  /** "@HIDBOT ", a payload, a carriage return and a newline. */
  function Sent(payload: seq<byte>): seq<byte> { [64, 72, 73, 68, 66, 79, 84, 32] + payload + [13, 10] }

  function Stream(payloads: seq<seq<byte>>): seq<byte> {
    if payloads == [] then [] else Stream(payloads[..|payloads| - 1]) + Sent(payloads[|payloads| - 1])
  }

  function Frames(payloads: seq<seq<byte>>): seq<Event> {
    seq(|payloads|, i requires 0 <= i < |payloads| => Frame(payloads[i]))
  }

  predicate Sendable(payload: seq<byte>) {
    && |payload| <= 503
    && (forall k :: 0 <= k < |payload| ==> payload[k] != NEWLINE)
    && (forall k :: 0 <= k <= |payload| ==> !FourZeros(payload, k))
  }

  lemma SentLine(payload: seq<byte>)
    requires Sendable(payload)
    ensures var line := PREFIX + payload + [CARRIAGE_RETURN];
      LineBytes(line) && Sent(payload) == line + [NEWLINE] && LineEvent(line) == [Frame(payload)]
  {
    var line := PREFIX + payload + [CARRIAGE_RETURN];
    forall k | 0 <= k <= |line| ensures !FourZeros(line, k) {
      assert 12 <= k <= 8 + |payload| ==> !FourZeros(payload, k - 8);
    }
    assert line[8..|line| - 1] == payload;
    assert line[|line| - 1] == CARRIAGE_RETURN;
  }

  /** The frames sent come back in order, each with its payload, and nothing else. */
  lemma {:induction false} FramesComeBack(payloads: seq<seq<byte>>)
    requires forall i :: 0 <= i < |payloads| ==> Sendable(payloads[i])
    ensures Events(Stream(payloads)) == Frames(payloads) && Line(Stream(payloads)) == []
  {
    hide Line, Events, LineBytes, LineEvent, Sendable, Sent;
    if payloads == [] {
      NoBytes();
    } else {
      var n := |payloads| - 1;
      FramesComeBack(payloads[..n]);
      SentIsReported(Stream(payloads[..n]), payloads[n]);
      assert Frames(payloads) == Frames(payloads[..n]) + [Frame(payloads[n])];
    }
  }

  lemma NoBytes()
    ensures Events([]) == [] && Line([]) == []
  {
  }

  lemma BareLine(payload: seq<byte>)
    requires |payload| <= 504 && (payload != [] ==> payload[|payload| - 1] != CARRIAGE_RETURN)
    ensures LineEvent(PREFIX + payload) == [Frame(payload)]
  {
    var line := PREFIX + payload;
    assert line[8..] == payload;
    assert payload != [] ==> line[|line| - 1] == payload[|payload| - 1];
  }

  /** Without the carriage return, if the payload does not end in one itself. */
  lemma BareLineComesBack(h: seq<byte>, payload: seq<byte>)
    requires Line(h) == [] && LineBytes(PREFIX + payload) && |payload| <= 504
    requires payload != [] ==> payload[|payload| - 1] != CARRIAGE_RETURN
    ensures Events(h + PREFIX + payload + [NEWLINE]) == Events(h) + [Frame(payload)]
  {
    hide Line, Events, LineBytes, LineEvent;
    BareLine(payload);
    LineIsReported(h, PREFIX + payload);
    assert h + PREFIX + payload == h + (PREFIX + payload);
  }

  /** A line with the prefix that is longer than 512 bytes is reported as such, and its payload not at all. */
  lemma OverlongIsReported(h: seq<byte>, payload: seq<byte>)
    requires Line(h) == [] && LineBytes(PREFIX + payload) && |payload| > 504
    ensures Events(h + PREFIX + payload + [NEWLINE]) == Events(h) + [OverlongProtocolFrame]
  {
    hide Line, Events, LineBytes;
    LineIsReported(h, PREFIX + payload);
    assert h + PREFIX + payload == h + (PREFIX + payload);
  }

  /** A line without the prefix is passed over. */
  lemma OtherLinesAreIgnored(h: seq<byte>, line: seq<byte>)
    requires Line(h) == [] && LineBytes(line) && !([64, 72, 73, 68, 66, 79, 84, 32] <= line)
    ensures Events(h + line + [NEWLINE]) == Events(h)
  {
    LineIsReported(h, line);
  }

  lemma FourZerosSync(g: seq<byte>)
    requires g != [] && g[|g| - 1] != 0
    ensures Line(g + [0, 0, 0, 0]) == [] && Events(g + [0, 0, 0, 0]) == Events(g) + [TransportSync]
  {
    hide Line, Events, TrailingZeros, FourZeros;
    NoZerosLast(g);
    ZeroCounts(g);
    ZeroCounts(g + [0]);
    ZeroCounts(g + [0] + [0]);
    ZeroCounts(g + [0] + [0] + [0]);
    assert g + [0, 0, 0, 0] == g + [0] + [0] + [0] + [0];
  }

  lemma NoZerosLast(g: seq<byte>)
    requires g != [] && g[|g| - 1] != 0
    ensures TrailingZeros(g) == 0
  {
  }

  /** Four zeros in the middle of a frame drop it, and the next frame comes back. */
  lemma SyncRecovers(h: seq<byte>, part: seq<byte>, payload: seq<byte>)
    requires Line(h) == [] && LineBytes(part) && Sendable(payload)
    requires part != [] && part[|part| - 1] != 0
    ensures Events(h + part + [0, 0, 0, 0] + Sent(payload)) == Events(h) + [TransportSync, Frame(payload)]
  {
    hide Line, Events, LineBytes, LineEvent, Sendable, Sent;
    PartIsNotReported(h, part);
    FourZerosSync(h + part);
    SentIsReported(h + part + [0, 0, 0, 0], payload);
  }

  lemma PartIsNotReported(h: seq<byte>, part: seq<byte>)
    requires Line(h) == [] && LineBytes(part)
    ensures Events(h + part) == Events(h)
  {
    hide Line, Events, LineBytes;
    assert part[..|part|] == part;
    LineGoesOn(h, part, |part|);
  }

  lemma SentIsReported(h: seq<byte>, payload: seq<byte>)
    requires Line(h) == [] && Sendable(payload)
    ensures Events(h + Sent(payload)) == Events(h) + [Frame(payload)] && Line(h + Sent(payload)) == []
  {
    hide Line, Events, LineBytes, LineEvent, Sendable, Sent;
    SentLine(payload);
    var line := PREFIX + payload + [CARRIAGE_RETURN];
    LineIsReported(h, line);
    assert h + Sent(payload) == h + line + [NEWLINE];
  }
}
