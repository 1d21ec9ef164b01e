/**
 The lossless JPEG scrubber (src/engine/opsec.rs, lines 169-263).

 The input is read against the marker grammar of ITU-T T.81: fill bytes before a marker
 (B.1.1.2), marker segments with a two-byte length (B.1.1.4) and entropy-coded segments
 (B.1.1.5). `Parse` and `Print` are exact inverses on that grammar, so fill bytes and the
 trailer behind the end-of-image marker are part of a parsed stream. The scrubber is then
 filter-then-print, and `Absorb` says what a second walk makes of its output.
 */
module Jpeg {
  import opened Common

  datatype JpegError =
    | NoStartOfScan
    | ExpectedMarker(offset: nat)
    | TruncatedMarker
    | TruncatedScanHeader
    | MalformedScanHeaderLength
    | TruncatedSegmentLength
    | MalformedSegmentLength(marker: byte)

  /** What one marker introduces. `body` and `header` begin with their length field. */
  datatype Unit =
    | Standalone(marker: byte)
    | Segment(marker: byte, body: seq<byte>)
    | Scan(header: seq<byte>, ecs: seq<byte>)

  /** Everything after the start-of-image marker; `fill` counts the 0xFF bytes before the marker's own 0xFF. */
  datatype Stream =
    | End(fill: nat, trailer: seq<byte>)
    | OpenScan(fill: nat, header: seq<byte>, ecs: seq<byte>)
    | More(fill: nat, head: Unit, rest: Stream)

  const SOI: seq<byte> := [0xFF, 0xD8]
  const EOI: seq<byte> := [0xFF, 0xD9]

  predicate IsRestart(marker: byte) { 0xD0 <= marker <= 0xD7 }

  /** Markers that carry no length field (TEM and RSTn). */
  predicate IsStandalone(marker: byte) { marker == 0x01 || IsRestart(marker) }

  /** What may follow 0xFF inside entropy-coded data: a stuffed zero or a restart number. */
  predicate ContinuesScan(marker: byte) { marker == 0x00 || IsRestart(marker) }

  /** What may not: a marker that ends the entropy-coded data (0xFF itself is a fill byte). */
  predicate EndsScan(marker: byte) { marker != 0xFF && !ContinuesScan(marker) }

  /** ASCII "ICC_PROFILE" with its terminating zero. */
  const ICC_PROFILE: seq<byte> := [0x49, 0x43, 0x43, 0x5F, 0x50, 0x52, 0x4F, 0x46, 0x49, 0x4C, 0x45, 0x00]

  /** ASCII "Adobe". */
  const ADOBE: seq<byte> := [0x41, 0x64, 0x6F, 0x62, 0x65]

  /** A big-endian two-byte length, which counts itself. */
  function Length(s: seq<byte>, i: nat): nat
    requires i + 2 <= |s|
  {
    var high: int, low: int := s[i], s[i + 1];
    high * 256 + low
  }

  predicate IsMetadataSegment(marker: byte, payload: seq<byte>) {
    var keepColourInfo := (marker == 0xE2 && ICC_PROFILE <= payload) || (marker == 0xEE && ADOBE <= payload);
    (0xE1 <= marker <= 0xEF || marker == 0xFE) && !keepColourInfo
  }

  predicate IsMetadata(u: Unit) {
    u.Segment? && |u.body| >= 2 && IsMetadataSegment(u.marker, u.body[2..])
  }

  // ---------------------------------------------------------------------------
  // Grammar: printing, well-formedness
  // ---------------------------------------------------------------------------

  function Fill(n: nat): (r: seq<byte>)
    ensures |r| == n && forall i :: 0 <= i < n ==> r[i] == 0xFF
  {
    seq(n, _ => 0xFF)
  }

  function UnitMarker(u: Unit): byte {
    match u
    case Standalone(m) => m
    case Segment(m, _) => m
    case Scan(_, _) => 0xDA
  }

  function UnitTail(u: Unit): seq<byte> {
    match u
    case Standalone(_) => []
    case Segment(_, body) => body
    case Scan(header, ecs) => header + ecs
  }

  /** A unit behind `fill` fill bytes. */
  function PrintUnit(fill: nat, u: Unit): (r: seq<byte>)
    ensures |r| == fill + 2 + |UnitTail(u)|
  {
    Fill(fill) + [0xFF, UnitMarker(u)] + UnitTail(u)
  }

  function Print(st: Stream): seq<byte> {
    match st
    case End(fill, trailer) => Fill(fill) + EOI + trailer
    case OpenScan(fill, header, ecs) => PrintUnit(fill, Scan(header, ecs))
    case More(fill, u, rest) => PrintUnit(fill, u) + Print(rest)
  }

  /** Entropy-coded data: 0xFF is followed by a stuffed zero, a restart number, another 0xFF, or nothing. */
  predicate IsEcs(s: seq<byte>) {
    forall i :: 0 <= i < |s| - 1 && s[i] == 0xFF ==> !EndsScan(s[i + 1])
  }

  /** The first two bytes are the number of all bytes, high byte first. */
  predicate IsLengthPrefixed(s: seq<byte>) {
    2 <= |s| < 0x1_0000 && s[0] == |s| / 256 && s[1] == |s| % 256
  }

  predicate WellFormedUnit(u: Unit) {
    match u
    case Standalone(m) => IsStandalone(m)
    case Segment(m, body) => m != 0xD9 && m != 0xDA && m != 0xFF && !IsStandalone(m) && IsLengthPrefixed(body)
    case Scan(header, ecs) => IsLengthPrefixed(header) && IsEcs(ecs)
  }

  function FirstMarker(st: Stream): byte {
    match st
    case End(_, _) => 0xD9
    case OpenScan(_, _, _) => 0xDA
    case More(_, u, _) => UnitMarker(u)
  }

  /** Entropy-coded data runs up to the next real marker, so it owns the fill bytes before that marker. */
  predicate WellFormed(st: Stream) {
    match st
    case End(_, _) => true
    case OpenScan(_, header, ecs) => WellFormedUnit(Scan(header, ecs))
    case More(_, u, rest) =>
      && WellFormedUnit(u)
      && WellFormed(rest)
      && (u.Scan? ==> rest.fill == 0 && !ContinuesScan(FirstMarker(rest)))
  }

  // ---------------------------------------------------------------------------
  // Parsing
  // ---------------------------------------------------------------------------

  /** The first position from `i` on that does not hold 0xFF. */
  function MarkerAt(data: seq<byte>, i: nat): (m: nat)
    requires i <= |data|
    ensures i <= m <= |data|
    ensures forall k :: i <= k < m ==> data[k] == 0xFF
    ensures m < |data| ==> data[m] != 0xFF
    decreases |data| - i
  {
    if i < |data| && data[i] == 0xFF then MarkerAt(data, i + 1) else i
  }

  /** Where a scan whose data starts at `i` ends: in front of a real marker, or at most one byte before the end. */
  function ScanEnd(data: seq<byte>, i: nat): (e: nat)
    requires i <= |data|
    ensures i <= e <= |data|
    ensures forall k :: i <= k < e && k + 1 < |data| && data[k] == 0xFF ==> !EndsScan(data[k + 1])
    ensures e + 1 < |data| ==> data[e] == 0xFF && EndsScan(data[e + 1])
    decreases |data| - i
  {
    if i + 1 >= |data| then i
    else if data[i] != 0xFF then ScanEnd(data, i + 1)
    else if ContinuesScan(data[i + 1]) then ScanEnd(data, i + 2)
    else if data[i + 1] == 0xFF then ScanEnd(data, i + 1)
    else i
  }

  /** The first thing read at some position: the end marker, an undelimited scan, or one unit that stops at `end`. */
  datatype Lexeme =
    | AtEnd(fill: nat, trailer: seq<byte>)
    | AtOpenScan(fill: nat, header: seq<byte>, ecs: seq<byte>)
    | Next(fill: nat, u: Unit, end: nat)

  /** Reads what `marker` introduces; `h` is the position right behind it. */
  function LexBehind(data: seq<byte>, fill: nat, marker: byte, h: nat): (r: Result<Lexeme, JpegError>)
    requires h <= |data|
    ensures r.Success? && r.value.Next? ==> h <= r.value.end <= |data|
  {
    if marker == 0xD9 then Success(AtEnd(fill, data[h..]))
    else if IsStandalone(marker) then Success(Next(fill, Standalone(marker), h))
    else if h + 2 > |data| then Failure(if marker == 0xDA then TruncatedScanHeader else TruncatedSegmentLength)
    else
      var len := Length(data, h);
      if len < 2 || h + len > |data| then
        Failure(if marker == 0xDA then MalformedScanHeaderLength else MalformedSegmentLength(marker))
      else
        var start := h + len;
        if marker != 0xDA then Success(Next(fill, Segment(marker, data[h..start]), start))
        else
          var end := ScanEnd(data, start);
          if end + 1 >= |data| then Success(AtOpenScan(fill, data[h..start], data[start..]))
          else Success(Next(fill, Scan(data[h..start], data[start..end]), end))
  }

  /** Reads one unit at position `i`. */
  function Lex(data: seq<byte>, i: nat): (r: Result<Lexeme, JpegError>)
    requires i <= |data|
    ensures r.Success? && r.value.Next? ==> i < r.value.end <= |data|
  {
    if i == |data| then Failure(NoStartOfScan)
    else if data[i] != 0xFF then Failure(ExpectedMarker(i))
    else
      var m := MarkerAt(data, i);
      if m == |data| then Failure(TruncatedMarker) else LexBehind(data, m - i - 1, data[m], m + 1)
  }

  function Prepend(fill: nat, u: Unit, r: Result<Stream, JpegError>): Result<Stream, JpegError> {
    match r
    case Success(st) => Success(More(fill, u, st))
    case Failure(e) => Failure(e)
  }

  /** Reads everything from position `i` on. */
  function Parse(data: seq<byte>, i: nat): Result<Stream, JpegError>
    requires i <= |data|
    decreases |data| - i
  {
    match Lex(data, i)
    case Failure(e) => Failure(e)
    case Success(AtEnd(fill, trailer)) => Success(End(fill, trailer))
    case Success(AtOpenScan(fill, header, ecs)) => Success(OpenScan(fill, header, ecs))
    case Success(Next(fill, u, end)) => Prepend(fill, u, Parse(data, end))
  }

  // ---------------------------------------------------------------------------
  // Parse and Print are inverse
  // ---------------------------------------------------------------------------

  lemma JoinSuffix<T>(data: seq<T>, i: nat, j: nat)
    requires i <= j <= |data|
    ensures data[i..] == data[i..j] + data[j..]
  {
  }

  lemma JoinSlices<T>(data: seq<T>, i: nat, j: nat, k: nat)
    requires i <= j <= k <= |data|
    ensures data[i..k] == data[i..j] + data[j..k]
  {
  }

  lemma HeadSlice(data: seq<byte>, i: nat, m: nat, marker: byte)
    requires i < m < |data| && (forall k :: i <= k < m ==> data[k] == 0xFF) && data[m] == marker
    ensures data[i..m + 1] == Fill(m - i - 1) + [0xFF, marker]
  {
    hide *;
  }

  /** A unit whose marker was found at `m` is the bytes from `i` up to its end. */
  lemma UnitSlice(data: seq<byte>, i: nat, m: nat, u: Unit, end: nat, fill: nat)
    requires fill == m - i - 1 && i < m < end <= |data| && (forall k :: i <= k < m ==> data[k] == 0xFF)
    requires data[m] == UnitMarker(u) && data[m + 1..end] == UnitTail(u)
    ensures data[i..end] == PrintUnit(fill, u)
  {
    hide *;
    HeadSlice(data, i, m, UnitMarker(u));
    assert data[i..end] == data[i..m + 1] + data[m + 1..end];
    UnitPieces(m - i - 1, u);
  }

  lemma UnitPieces(fill: nat, u: Unit)
    ensures PrintUnit(fill, u) == Fill(fill) + [0xFF, UnitMarker(u)] + UnitTail(u)
  {
  }

  /** One lexing step yields a well-formed unit, and delimits a scan by a real marker. */
  lemma LexIsSound(data: seq<byte>, i: nat, fill: nat, u: Unit, end: nat)
    requires i <= |data| && Lex(data, i) == Success(Next(fill, u, end))
    ensures WellFormedUnit(u)
    ensures u.Scan? ==> end + 1 < |data| && EndsScan(data[end + 1])
  {
    hide *;
    var m := MarkerAt(data, i);
    LexedBehind(data, i, m);
    LexedFill(data, m - i - 1, data[m], m + 1);
    LexBehindIsSound(data, fill, data[m], m + 1, u, end);
  }

  /** One lexing step loses nothing. */
  lemma LexSlice(data: seq<byte>, i: nat, fill: nat, u: Unit, end: nat)
    requires i <= |data| && Lex(data, i) == Success(Next(fill, u, end))
    ensures data[i..end] == PrintUnit(fill, u)
  {
    hide *;
    var m := MarkerAt(data, i);
    LexedBehind(data, i, m);
    LexedFill(data, m - i - 1, data[m], m + 1);
    LexBehindIsSound(data, fill, data[m], m + 1, u, end);
    UnitSlice(data, i, m, u, end, fill);
  }

  lemma LexedBehind(data: seq<byte>, i: nat, m: nat)
    requires i <= |data| && Lex(data, i).Success? && m == MarkerAt(data, i)
    ensures i < m < |data| && data[m] != 0xFF && Lex(data, i) == LexBehind(data, m - i - 1, data[m], m + 1)
  {
    hide LexBehind;
  }

  lemma LexedFill(data: seq<byte>, fill: nat, marker: byte, h: nat)
    requires h <= |data| && LexBehind(data, fill, marker, h).Success?
    ensures LexBehind(data, fill, marker, h).value.fill == fill
  {
    hide Length, ScanEnd, IsStandalone;
  }

  lemma LexBehindIsSound(data: seq<byte>, fill: nat, marker: byte, h: nat, u: Unit, end: nat)
    requires h <= |data| && marker != 0xFF && LexBehind(data, fill, marker, h) == Success(Next(fill, u, end))
    ensures WellFormedUnit(u) && UnitMarker(u) == marker && UnitTail(u) == data[h..end]
    ensures u.Scan? ==> end + 1 < |data| && EndsScan(data[end + 1])
  {
    match u {
      case Standalone(_) =>
      case Segment(_, body) =>
        LengthAt(data, h, body);
      case Scan(header, ecs) =>
        LexBehindScanIsSound(data, fill, h, u, end);
    }
  }

  lemma LexBehindScanIsSound(data: seq<byte>, fill: nat, h: nat, u: Unit, end: nat)
    requires h <= |data| && LexBehind(data, fill, 0xDA, h) == Success(Next(fill, u, end))
    ensures WellFormedUnit(u) && u.Scan? && UnitTail(u) == data[h..end]
    ensures end + 1 < |data| && EndsScan(data[end + 1])
  {
    var start := h + Length(data, h);
    assert u.header == data[h..start] && u.ecs == data[start..end] && 2 <= start - h && end == ScanEnd(data, start);
    hide LexBehind, ScanEnd;
    assert IsEcs(u.ecs);
    LengthAt(data, h, u.header);
    assert data[h..end] == u.header + u.ecs by { JoinSlices(data, h, start, end); }
  }

  lemma LexEndIsSound(data: seq<byte>, i: nat, fill: nat, trailer: seq<byte>)
    requires i <= |data| && Lex(data, i) == Success(AtEnd(fill, trailer))
    ensures data[i..] == Fill(fill) + EOI + trailer
  {
    var m := MarkerAt(data, i);
    hide Fill;
    HeadSlice(data, i, m, 0xD9);
    JoinSuffix(data, i, m + 1);
  }

  lemma LexOpenScanIsSound(data: seq<byte>, i: nat, fill: nat, header: seq<byte>, ecs: seq<byte>)
    requires i <= |data| && Lex(data, i) == Success(AtOpenScan(fill, header, ecs))
    ensures WellFormedUnit(Scan(header, ecs))
    ensures data[i..] == PrintUnit(fill, Scan(header, ecs))
  {
    var m := MarkerAt(data, i);
    hide LexBehind, PrintUnit;
    LexBehindOpenIsSound(data, m - i - 1, data[m], m + 1, fill, header, ecs);
    hide *;
    OpenScanSlice(data, i, m, m + 1 + |header|, fill, header, ecs);
  }

  lemma LexBehindOpenIsSound(
    data: seq<byte>, fill: nat, marker: byte, h: nat, f: nat, header: seq<byte>, ecs: seq<byte>)
    requires h <= |data| && LexBehind(data, fill, marker, h) == Success(AtOpenScan(f, header, ecs))
    ensures var start := h + |header|;
      && f == fill && marker == 0xDA && h < start <= |data|
      && header == data[h..start] && ecs == data[start..]
      && WellFormedUnit(Scan(header, ecs))
  {
    LengthAt(data, h, header);
  }

  lemma OpenScanSlice(
    data: seq<byte>, i: nat, m: nat, start: nat, fill: nat, header: seq<byte>, ecs: seq<byte>)
    requires i < m < start <= |data| && (forall k :: i <= k < m ==> data[k] == 0xFF) && data[m] == 0xDA
    requires fill == m - i - 1 && header == data[m + 1..start] && ecs == data[start..]
    ensures data[i..] == PrintUnit(fill, Scan(header, ecs))
  {
    var u := Scan(header, ecs);
    assert UnitMarker(u) == 0xDA && UnitTail(u) == header + ecs;
    hide *;
    JoinSuffix(data, m + 1, start);
    assert data[m + 1..|data|] == data[m + 1..] && data[i..|data|] == data[i..];
    UnitSlice(data, i, m, u, |data|, fill);
  }

  /** Every accepted input is the print of the stream it parses to, fill bytes and trailer included. */
  lemma {:induction false} ParseIsSound(data: seq<byte>, i: nat, st: Stream)
    requires i <= |data| && Parse(data, i) == Success(st)
    ensures data[i..] == Print(st) && WellFormed(st)
    decreases |data| - i
  {
    match st {
      case More(fill, u, rest) =>
        var end := Lex(data, i).value.end;
        LexIsSound(data, i, fill, u, end);
        LexSlice(data, i, fill, u, end);
        ParseIsSound(data, end, rest);
        JoinSuffix(data, i, end);
        if u.Scan? {
          PrintBeginsLike(data, end, rest);
        }
      case End(fill, trailer) =>
        LexEndIsSound(data, i, fill, trailer);
      case OpenScan(fill, header, ecs) =>
        LexOpenScanIsSound(data, i, fill, header, ecs);
    }
  }

  /** What follows the first marker in the print of a stream. */
  function Tail(st: Stream): seq<byte> {
    match st
    case End(_, trailer) => trailer
    case OpenScan(_, header, ecs) => header + ecs
    case More(_, u, rest) => UnitTail(u) + Print(rest)
  }

  lemma {:induction false} PrintFromMarker(st: Stream)
    ensures Print(st) == Fill(st.fill) + [0xFF, FirstMarker(st)] + Tail(st)
  {
    if st.More? {
      var a, b := Fill(st.fill) + [0xFF, FirstMarker(st)], UnitTail(st.head);
      assert a + b + Print(st.rest) == a + (b + Print(st.rest));
    }
  }

  lemma FirstMarkerIsReal(st: Stream)
    requires WellFormed(st)
    ensures FirstMarker(st) != 0xFF
  {
  }

  /** Where the first marker of a printed stream is found; `h` is the position behind it. */
  lemma MarkerOfPrint(data: seq<byte>, i: nat, st: Stream, h: nat)
    requires i <= |data| && data[i..] == Print(st) && WellFormed(st) && h == i + st.fill + 2
    ensures h <= |data| && MarkerAt(data, i) == h - 1 && data[i] == 0xFF && data[h - 1] == FirstMarker(st)
    ensures data[h..] == Tail(st)
  {
    var a := Fill(st.fill) + [0xFF, FirstMarker(st)];
    PrintFromMarker(st);
    FirstMarkerIsReal(st);
    hide *;
    SplitSuffix(data, i, a, Tail(st));
    assert a[st.fill + 1] == FirstMarker(st);
    assert forall k :: 0 <= k <= st.fill ==> a[k] == 0xFF;
    assert forall k :: i <= k < h - 1 ==> data[k] == a[k - i];
  }

  lemma PrintBeginsLike(data: seq<byte>, i: nat, st: Stream)
    requires i + 1 < |data| && data[i..] == Print(st) && WellFormed(st)
    requires EndsScan(data[i + 1])
    ensures st.fill == 0 && !ContinuesScan(FirstMarker(st))
  {
    MarkerOfPrint(data, i, st, i + st.fill + 2);
  }

  /** The first lexeme of the print of a stream, when its first marker ends at `h`. */
  function Head(st: Stream, h: nat): Lexeme {
    match st
    case End(fill, trailer) => AtEnd(fill, trailer)
    case OpenScan(fill, header, ecs) => AtOpenScan(fill, header, ecs)
    case More(fill, u, rest) => Next(fill, u, h + |UnitTail(u)|)
  }

  lemma LexIsComplete(data: seq<byte>, i: nat, st: Stream, h: nat)
    requires i <= |data| && data[i..] == Print(st) && WellFormed(st) && h == i + st.fill + 2
    ensures Lex(data, i) == Success(Head(st, h))
    ensures st.More? ==> data[Head(st, h).end..] == Print(st.rest)
  {
    hide *;
    MarkerOfPrint(data, i, st, h);
    LexBehindIsComplete(data, h, st);
    LexFromMarker(data, i, h);
  }

  lemma LexFromMarker(data: seq<byte>, i: nat, h: nat)
    requires i < h - 1 < |data| && data[i] == 0xFF && MarkerAt(data, i) == h - 1
    ensures Lex(data, i) == LexBehind(data, h - i - 2, data[h - 1], h)
  {
    hide LexBehind, MarkerAt;
  }

  lemma LexBehindIsComplete(data: seq<byte>, h: nat, st: Stream)
    requires h <= |data| && data[h..] == Tail(st) && WellFormed(st)
    ensures LexBehind(data, st.fill, FirstMarker(st), h) == Success(Head(st, h))
    ensures st.More? ==> data[Head(st, h).end..] == Print(st.rest)
  {
    hide Print, LexBehind, Length, IsEcs;
    match st {
      case End(fill, trailer) =>
        LexEndIsComplete(data, h, fill);
      case OpenScan(fill, header, ecs) =>
        LexOpenScanIsComplete(data, h, fill, header, ecs);
      case More(fill, u, rest) =>
        hide *;
        LexUnitIsComplete(data, h, fill, u, rest);
    }
  }

  lemma LexEndIsComplete(data: seq<byte>, h: nat, fill: nat)
    requires h <= |data|
    ensures LexBehind(data, fill, 0xD9, h) == Success(AtEnd(fill, data[h..]))
  {
  }

  lemma LexUnitIsComplete(data: seq<byte>, h: nat, fill: nat, u: Unit, rest: Stream)
    requires h <= |data| && data[h..] == UnitTail(u) + Print(rest)
    requires WellFormed(More(fill, u, rest))
    ensures var end := h + |UnitTail(u)|;
      end <= |data| && data[end..] == Print(rest)
      && LexBehind(data, fill, UnitMarker(u), h) == Success(Next(fill, u, end))
  {
    hide Print;
    SplitSuffix(data, h, UnitTail(u), Print(rest));
    match u {
      case Standalone(_) =>
      case Segment(m, body) =>
        assert WellFormedUnit(u);
        hide LexBehind, WellFormed;
        LexSegmentIsComplete(data, h, fill, m, body);
      case Scan(header, ecs) =>
        hide LexBehind, WellFormed;
        LexScanIsComplete(data, h, fill, header, ecs, rest, h + |UnitTail(u)|);
    }
  }

  lemma LexSegmentIsComplete(data: seq<byte>, h: nat, fill: nat, marker: byte, body: seq<byte>)
    requires h + |body| <= |data| && data[h..h + |body|] == body && WellFormedUnit(Segment(marker, body))
    ensures LexBehind(data, fill, marker, h) == Success(Next(fill, Segment(marker, body), h + |body|))
  {
    LengthAt(data, h, body);
  }

  lemma LengthAt(data: seq<byte>, h: nat, p: seq<byte>)
    requires h + |p| <= |data| && data[h..h + |p|] == p && |p| >= 2
    ensures Length(data, h) == |p| <==> IsLengthPrefixed(p)
  {
    assert data[h] == p[0] && data[h + 1] == p[1];
  }

  lemma LexOpenScanIsComplete(data: seq<byte>, h: nat, fill: nat, header: seq<byte>, ecs: seq<byte>)
    requires h <= |data| && data[h..] == header + ecs && IsLengthPrefixed(header) && IsEcs(ecs)
    ensures LexBehind(data, fill, 0xDA, h) == Success(AtOpenScan(fill, header, ecs))
  {
    SplitSuffix(data, h, header, ecs);
    LengthAt(data, h, header);
    var start := h + |header|;
    assert forall k :: start <= k < |data| ==> data[k] == ecs[k - start];
  }

  lemma LexScanIsComplete(
    data: seq<byte>, h: nat, fill: nat, header: seq<byte>, ecs: seq<byte>, rest: Stream, end: nat)
    requires h <= |data| && data[h..] == header + ecs + Print(rest) && end == h + |header + ecs|
    requires WellFormed(More(fill, Scan(header, ecs), rest))
    ensures LexBehind(data, fill, 0xDA, h) == Success(Next(fill, Scan(header, ecs), end))
  {
    hide *;
    ScanIsWellFormed(fill, header, ecs, rest);
    ScanParts(data, h, header, ecs, rest, h + |header|, end);
    LexDelimitedScan(data, fill, h, h + |header|, end, header, ecs);
  }

  lemma ScanIsWellFormed(fill: nat, header: seq<byte>, ecs: seq<byte>, rest: Stream)
    requires WellFormed(More(fill, Scan(header, ecs), rest))
    ensures IsLengthPrefixed(header) && IsEcs(ecs) && WellFormed(rest)
    ensures rest.fill == 0 && !ContinuesScan(FirstMarker(rest))
  {
    hide IsEcs, IsLengthPrefixed, FirstMarker;
  }

  lemma ScanParts(
    data: seq<byte>, h: nat, header: seq<byte>, ecs: seq<byte>, rest: Stream, start: nat, end: nat)
    requires h <= |data| && data[h..] == header + ecs + Print(rest)
    requires start == h + |header| && end == start + |ecs|
    requires WellFormed(rest) && IsLengthPrefixed(header) && IsEcs(ecs)
    requires rest.fill == 0 && !ContinuesScan(FirstMarker(rest))
    ensures end + 1 < |data| && data[h..start] == header && data[start..end] == ecs
    ensures ScanEnd(data, start) == end && start - h >= 2 && Length(data, h) == start - h
  {
    hide Print, ScanEnd, WellFormed;
    SplitTwice(data, h, header, ecs, Print(rest));
    ScanEndsBefore(data, start, ecs, rest);
    LengthAt(data, h, header);
  }

  lemma LexDelimitedScan(
    data: seq<byte>, fill: nat, h: nat, start: nat, end: nat, header: seq<byte>, ecs: seq<byte>)
    requires h + 2 <= start <= end && end + 1 < |data| && Length(data, h) == start - h && ScanEnd(data, start) == end
    requires data[h..start] == header && data[start..end] == ecs
    ensures LexBehind(data, fill, 0xDA, h) == Success(Next(fill, Scan(header, ecs), end))
  {
    hide ScanEnd, Length;
  }

  lemma ScanEndsBefore(data: seq<byte>, start: nat, ecs: seq<byte>, rest: Stream)
    requires start + |ecs| <= |data| && data[start..start + |ecs|] == ecs && data[start + |ecs|..] == Print(rest)
    requires WellFormed(rest) && IsEcs(ecs) && rest.fill == 0 && !ContinuesScan(FirstMarker(rest))
    ensures start + |ecs| + 1 < |data| && ScanEnd(data, start) == start + |ecs|
  {
    var end := start + |ecs|;
    MarkerOfPrint(data, end, rest, end + 2);
    FirstMarkerIsReal(rest);
    hide Print, WellFormed, ScanEnd, Fill, Tail;
    assert forall k :: start <= k < end ==> data[k] == ecs[k - start];
    ScanEndIs(data, start, end);
  }

  lemma SplitTwice<T>(data: seq<T>, h: nat, a: seq<T>, b: seq<T>, c: seq<T>)
    requires h <= |data| && data[h..] == a + b + c
    ensures var start := h + |a|; var end := start + |b|;
      end <= |data| && data[h..start] == a && data[start..end] == b && data[end..] == c
  {
    assert a + b + c == a + (b + c);
    SplitSuffix(data, h, a, b + c);
    SplitSuffix(data, h + |a|, b, c);
  }

  /** The scan end is the only position in front of which no real marker occurs and behind which one does. */
  lemma ScanEndIs(data: seq<byte>, start: nat, end: nat)
    requires start <= end && end + 1 < |data|
    requires forall k :: start <= k < end && data[k] == 0xFF ==> !EndsScan(data[k + 1])
    requires data[end] == 0xFF && EndsScan(data[end + 1])
    ensures ScanEnd(data, start) == end
  {
  }

  /** Every well-formed stream is what its print parses to: the grammar is unambiguous and nothing well-formed is
      refused. */
  lemma {:induction false} ParseIsComplete(data: seq<byte>, i: nat, st: Stream)
    requires i <= |data| && data[i..] == Print(st) && WellFormed(st)
    ensures Parse(data, i) == Success(st)
    decreases st
  {
    var h := i + st.fill + 2;
    LexIsComplete(data, i, st, h);
    if st.More? {
      ParseIsComplete(data, Head(st, h).end, st.rest);
    }
  }

  /** The scrubber accepts exactly the prints of well-formed streams. */
  lemma AcceptedIffWellFormed(data: seq<byte>, i: nat, st: Stream)
    requires i <= |data|
    ensures Parse(data, i) == Success(st) <==> WellFormed(st) && Print(st) == data[i..]
  {
    if Parse(data, i) == Success(st) {
      ParseIsSound(data, i, st);
    }
    if WellFormed(st) && Print(st) == data[i..] {
      ParseIsComplete(data, i, st);
    }
  }

  // ---------------------------------------------------------------------------
  // The scrubber
  // ---------------------------------------------------------------------------

  /** Drops metadata segments, fill bytes before markers and everything behind the end-of-image marker. */
  function Scrub(st: Stream): Stream {
    match st
    case End(_, _) => End(0, [])
    case OpenScan(_, header, ecs) => OpenScan(0, header, ecs)
    case More(_, u, rest) => if IsMetadata(u) then Scrub(rest) else More(0, u, Scrub(rest))
  }

  /** What the scrubber makes of a whole file: its first two bytes are replaced by a start-of-image marker. */
  function Stripped(data: seq<byte>): Result<seq<byte>, JpegError> {
    if |data| < 2 then Failure(NoStartOfScan) else Continued(SOI, data, 2)
  }

  /** The result of scrubbing when `out` is written already and the input is left to read from `i` on. */
  function Continued(out: seq<byte>, data: seq<byte>, i: nat): Result<seq<byte>, JpegError>
    requires i <= |data|
  {
    match Parse(data, i)
    case Success(st) => Success(out + Print(Scrub(st)))
    case Failure(e) => Failure(e)
  }

  lemma NoFill(u: Unit)
    ensures PrintUnit(0, u) == [0xFF, UnitMarker(u)] + UnitTail(u)
  {
  }

  lemma ContinuedStep(out: seq<byte>, data: seq<byte>, i: nat, fill: nat, u: Unit, end: nat)
    requires i < end <= |data| && Lex(data, i) == Success(Next(fill, u, end))
    ensures Continued(out, data, i) == Continued(if IsMetadata(u) then out else out + PrintUnit(0, u), data, end)
  {
    hide Lex, PrintUnit;
    match Parse(data, end) {
      case Success(rest) =>
        assert out + (PrintUnit(0, u) + Print(Scrub(rest))) == out + PrintUnit(0, u) + Print(Scrub(rest));
      case Failure(_) =>
    }
  }

  /** The loop has skipped the fill bytes from `i` on and read `marker`, which ends at `h`. */
  predicate BehindMarker(data: seq<byte>, i: nat, marker: byte, h: nat) {
    && i + 2 <= h <= |data| && marker != 0xFF
    && Lex(data, i) == LexBehind(data, h - i - 2, marker, h)
  }

  lemma AdvanceUnit(data: seq<byte>, out: seq<byte>, i: nat, h: nat, u: Unit, end: nat)
    requires BehindMarker(data, i, UnitMarker(u), h) && h <= end <= |data|
    requires LexBehind(data, h - i - 2, UnitMarker(u), h) == Success(Next(h - i - 2, u, end))
    ensures Continued(out, data, i)
         == Continued(if IsMetadata(u) then out else out + [0xFF, UnitMarker(u)] + UnitTail(u), data, end)
  {
    hide Continued, LexBehind, Lex;
    ContinuedStep(out, data, i, h - i - 2, u, end);
    NoFill(u);
    assert out + ([0xFF, UnitMarker(u)] + UnitTail(u)) == out + [0xFF, UnitMarker(u)] + UnitTail(u);
  }

  lemma AdvanceScan(data: seq<byte>, out: seq<byte>, i: nat, h: nat, start: nat, end: nat)
    requires BehindMarker(data, i, 0xDA, h) && h + 2 <= start <= |data| && Length(data, h) == start - h
    requires end == ScanEnd(data, start) && end + 1 < |data|
    ensures Continued(out, data, i) == Continued(out + [0xFF, 0xDA] + data[h..start] + data[start..end], data, end)
  {
    var header, ecs := data[h..start], data[start..end];
    LexDelimitedScan(data, h - i - 2, h, start, end, header, ecs);
    AdvanceUnit(data, out, i, h, Scan(header, ecs), end);
    hide *;
    assert out + [0xFF, 0xDA] + (header + ecs) == out + [0xFF, 0xDA] + header + ecs;
  }

  lemma AdvanceOpenScan(
    data: seq<byte>, out: seq<byte>, i: nat, h: nat, start: nat, header: seq<byte>, ecs: seq<byte>)
    requires BehindMarker(data, i, 0xDA, h) && h + 2 <= start <= |data| && Length(data, h) == start - h
    requires ScanEnd(data, start) + 1 >= |data| && header == data[h..start] && ecs == data[start..]
    ensures i <= |data| && Continued(out, data, i) == Success(out + [0xFF, 0xDA] + header + ecs)
  {
    hide *;
    Refused(data, out, i, 0xDA, h);
    LexUndelimitedScan(data, i, h, start, header, ecs);
    ContinuedOpenScan(out, data, i, h - i - 2, header, ecs);
    OpenScanPieces(out, header, ecs);
  }

  lemma OpenScanPieces(out: seq<byte>, header: seq<byte>, ecs: seq<byte>)
    ensures out + PrintUnit(0, Scan(header, ecs)) == out + [0xFF, 0xDA] + header + ecs
  {
    NoFill(Scan(header, ecs));
    hide PrintUnit;
    assert out + ([0xFF, 0xDA] + (header + ecs)) == out + [0xFF, 0xDA] + header + ecs;
  }

  lemma LexUndelimitedScan(data: seq<byte>, i: nat, h: nat, start: nat, header: seq<byte>, ecs: seq<byte>)
    requires BehindMarker(data, i, 0xDA, h) && h + 2 <= start <= |data| && Length(data, h) == start - h
    requires ScanEnd(data, start) + 1 >= |data| && header == data[h..start] && ecs == data[start..]
    ensures Lex(data, i) == Success(AtOpenScan(h - i - 2, header, ecs))
  {
    hide ScanEnd, Length, Lex;
  }

  lemma ContinuedOpenScan(out: seq<byte>, data: seq<byte>, i: nat, fill: nat, header: seq<byte>, ecs: seq<byte>)
    requires i <= |data| && Lex(data, i) == Success(AtOpenScan(fill, header, ecs))
    ensures Continued(out, data, i) == Success(out + PrintUnit(0, Scan(header, ecs)))
  {
    hide Lex, PrintUnit;
  }

  lemma RefuseMarker(data: seq<byte>, out: seq<byte>, i: nat)
    requires i <= |data|
    ensures i == |data| ==> Continued(out, data, i) == Failure(NoStartOfScan)
    ensures i < |data| && data[i] != 0xFF ==> Continued(out, data, i) == Failure(ExpectedMarker(i))
    ensures i < |data| && data[i] == 0xFF && MarkerAt(data, i) == |data| ==>
      Continued(out, data, i) == Failure(TruncatedMarker)
  {
  }

  lemma MarkerFound(data: seq<byte>, i: nat, h: nat)
    requires i < h - 1 < |data| && data[i] == 0xFF && MarkerAt(data, i) == h - 1
    ensures BehindMarker(data, i, data[h - 1], h)
  {
    hide LexBehind, MarkerAt;
  }

  /** The fill-byte loop. */
  method SkipFill(data: seq<byte>, i: nat) returns (idx: nat)
    requires i <= |data|
    ensures idx == MarkerAt(data, i)
    ensures i < |data| && data[i] == 0xFF ==> i < idx
  {
    idx := i;
    while idx < |data| && data[idx] == 0xFF
      invariant i <= idx <= |data|
      invariant MarkerAt(data, i) == MarkerAt(data, idx)
    {
      idx := idx + 1;
    }
  }

  /** The scan loop. */
  method SkipScan(data: seq<byte>, start: nat) returns (idx: nat)
    requires start <= |data|
    ensures idx == ScanEnd(data, start)
  {
    idx := start;
    while idx + 1 < |data|
      invariant start <= idx <= |data|
      invariant ScanEnd(data, start) == ScanEnd(data, idx)
    {
      if data[idx] != 0xFF {
        idx := idx + 1;
      } else if ContinuesScan(data[idx + 1]) {
        idx := idx + 2;
      } else if data[idx + 1] == 0xFF {
        idx := idx + 1;
      } else {
        break;
      }
    }
  }

  /** Copies a scan whose marker ends at `h`; the position is `None` when the data ends inside the scan. */
  method CopyScan(data: seq<byte>, out: seq<byte>, ghost i: nat, h: nat)
    returns (r: Result<(seq<byte>, Option<nat>), JpegError>)
    requires BehindMarker(data, i, 0xDA, h)
    ensures match r
            case Failure(e) => Continued(out, data, i) == Failure(e)
            case Success((out', None)) => Continued(out, data, i) == Success(out')
            case Success((out', Some(end))) =>
              i < end <= |data| && Continued(out, data, i) == Continued(out', data, end)
  {
    hide *;
    Refused(data, out, i, 0xDA, h);
    if h + 2 > |data| {
      return Failure(TruncatedScanHeader);
    }
    var len := Length(data, h);
    if len < 2 || h + len > |data| {
      return Failure(MalformedScanHeaderLength);
    }
    var start := h + len;
    var end := SkipScan(data, start);
    if end + 1 >= |data| {
      AdvanceOpenScan(data, out, i, h, start, data[h..start], data[start..]);
      return Success((out + [0xFF, 0xDA] + data[h..start] + data[start..], None));
    }
    AdvanceScan(data, out, i, h, start, end);
    return Success((out + [0xFF, 0xDA] + data[h..start] + data[start..end], Some(end)));
  }

  /** Copies a length-prefixed segment whose marker ends at `h`, unless it is metadata. */
  method CopySegment(data: seq<byte>, out: seq<byte>, ghost i: nat, marker: byte, h: nat)
    returns (r: Result<(seq<byte>, nat), JpegError>)
    requires BehindMarker(data, i, marker, h) && marker != 0xD9 && marker != 0xDA && !IsStandalone(marker)
    ensures match r
            case Failure(e) => Continued(out, data, i) == Failure(e)
            case Success((out', end)) =>
              i < end <= |data| && Continued(out, data, i) == Continued(out', data, end)
  {
    hide *;
    Refused(data, out, i, marker, h);
    if h + 2 > |data| {
      return Failure(TruncatedSegmentLength);
    }
    var len := Length(data, h);
    if len < 2 || h + len > |data| {
      return Failure(MalformedSegmentLength(marker));
    }
    var end := h + len;
    AdvanceSegment(data, out, i, h, marker, end);
    var payload := data[h + 2..end];
    if IsMetadataSegment(marker, payload) {
      return Success((out, end));
    }
    return Success((out + [0xFF, marker] + data[h..end], end));
  }

  method StripJpegMetadata(data: seq<byte>) returns (r: Result<seq<byte>, JpegError>)
    ensures r == Stripped(data)
  {
    var out: seq<byte> := SOI;
    var idx := 2;
    if idx >= |data| {
      return Failure(NoStartOfScan);
    }
    while true
      invariant 2 <= idx <= |data|
      invariant Stripped(data) == Continued(out, data, idx)
      decreases |data| - idx
    {
      hide *;
      RefuseMarker(data, out, idx);
      if idx >= |data| {
        return Failure(NoStartOfScan);
      }
      if data[idx] != 0xFF {
        return Failure(ExpectedMarker(idx));
      }
      ghost var i := idx;
      idx := SkipFill(data, idx);
      if idx >= |data| {
        return Failure(TruncatedMarker);
      }
      var marker := data[idx];
      idx := idx + 1;
      MarkerFound(data, i, idx);
      if marker == 0xD9 {
        AdvanceEnd(data, out, i, idx);
        return Success(out + EOI);
      } else if marker == 0xDA {
        var scan := CopyScan(data, out, i, idx);
        match scan {
          case Failure(e) =>
            return Failure(e);
          case Success((copied, None)) =>
            return Success(copied);
          case Success((copied, Some(end))) =>
            out, idx := copied, end;
        }
      } else if IsStandalone(marker) {
        AdvanceStandalone(data, out, i, idx, marker);
        out := out + [0xFF, marker];
      } else {
        var segment := CopySegment(data, out, i, marker, idx);
        match segment {
          case Failure(e) =>
            return Failure(e);
          case Success((copied, end)) =>
            out, idx := copied, end;
        }
      }
    }
  }

  lemma AdvanceEnd(data: seq<byte>, out: seq<byte>, i: nat, h: nat)
    requires BehindMarker(data, i, 0xD9, h)
    ensures Continued(out, data, i) == Success(out + EOI)
  {
    assert Print(End(0, [])) == EOI;
  }

  lemma AdvanceStandalone(data: seq<byte>, out: seq<byte>, i: nat, h: nat, marker: byte)
    requires BehindMarker(data, i, marker, h) && IsStandalone(marker)
    ensures Continued(out, data, i) == Continued(out + [0xFF, marker], data, h)
  {
    AdvanceUnit(data, out, i, h, Standalone(marker), h);
    assert out + [0xFF, marker] + [] == out + [0xFF, marker];
  }

  lemma AdvanceSegment(data: seq<byte>, out: seq<byte>, i: nat, h: nat, marker: byte, end: nat)
    requires BehindMarker(data, i, marker, h) && marker != 0xD9 && marker != 0xDA && !IsStandalone(marker)
    requires h + 2 <= end <= |data| && Length(data, h) == end - h
    ensures Continued(out, data, i)
         == Continued(if IsMetadataSegment(marker, data[h + 2..end]) then out
                      else out + [0xFF, marker] + data[h..end], data, end)
  {
    var u := Segment(marker, data[h..end]);
    assert u.body[2..] == data[h + 2..end];
    assert LexBehind(data, h - i - 2, marker, h) == Success(Next(h - i - 2, u, end));
    hide Continued, LexBehind, Lex;
    AdvanceUnit(data, out, i, h, u, end);
  }

  /** A marker whose length field is missing or wrong is refused. */
  lemma Refused(data: seq<byte>, out: seq<byte>, i: nat, marker: byte, h: nat)
    requires BehindMarker(data, i, marker, h) && (marker == 0xDA || (marker != 0xD9 && !IsStandalone(marker)))
    ensures i + 2 <= h <= |data|
    ensures h + 2 > |data| ==>
      Continued(out, data, i) == Failure(if marker == 0xDA then TruncatedScanHeader else TruncatedSegmentLength)
    ensures h + 2 <= |data| && (Length(data, h) < 2 || h + Length(data, h) > |data|) ==>
      Continued(out, data, i)
      == Failure(if marker == 0xDA then MalformedScanHeaderLength else MalformedSegmentLength(marker))
  {
  }

  // ---------------------------------------------------------------------------
  // The scrubber byte by byte
  // ---------------------------------------------------------------------------

  /** The bytes begin with the characters of `text`. */
  predicate BeginsWith(s: seq<byte>, text: string) {
    |text| <= |s| && forall i :: 0 <= i < |text| ==> s[i] == text[i] as int
  }

  /** What is to be removed: APP1 and APP3 to APP15 and comments, and APP2; but not an ICC profile or Adobe's APP14. */
  predicate IsUnwanted(marker: byte, payload: seq<byte>) {
    || marker in {0xE1, 0xE3, 0xE4, 0xE5, 0xE6, 0xE7, 0xE8, 0xE9, 0xEA, 0xEB, 0xEC, 0xED, 0xEF, 0xFE}
    || (marker == 0xE2 && !BeginsWith(payload, "ICC_PROFILE\0"))
    || (marker == 0xEE && !BeginsWith(payload, "Adobe"))
  }

  /** The bytes of a marker with its payload behind a two-byte length. */
  function Written(marker: byte, payload: seq<byte>): seq<byte>
    requires |payload| + 2 < 0x1_0000
  {
    [0xFF, marker, (|payload| + 2) / 256, (|payload| + 2) % 256] + payload
  }

  /** What scrubbing makes of an image that is written as `part` and then `rest`. */
  function ScrubbedPart(part: seq<byte>, rest: Stream): Result<seq<byte>, JpegError> {
    Stripped([0xFF, 0xD8] + (part + Print(rest)))
  }

  lemma ScrubbedUnit(fill: nat, u: Unit, rest: Stream)
    requires WellFormed(More(fill, u, rest))
    ensures ScrubbedPart(PrintUnit(fill, u), rest)
         == Success([0xFF, 0xD8] + ((if IsMetadata(u) then [] else PrintUnit(0, u)) + Print(Scrub(rest))))
  {
    var data, st := [0xFF, 0xD8] + (PrintUnit(fill, u) + Print(rest)), More(fill, u, rest);
    assert data[2..] == Print(st);
    hide Parse, WellFormed, PrintUnit;
    ParseIsComplete(data, 2, st);
    assert [] + Print(Scrub(rest)) == Print(Scrub(rest));
  }

  lemma MetadataIsUnwanted(marker: byte, payload: seq<byte>)
    ensures IsMetadataSegment(marker, payload) <==> IsUnwanted(marker, payload)
  {
    assert ICC_PROFILE <= payload <==> BeginsWith(payload, "ICC_PROFILE\0");
    assert ADOBE <= payload <==> BeginsWith(payload, "Adobe");
  }

  /** Every segment with a payload of any content and any length that fits is removed if it is unwanted, and kept byte
      for byte otherwise. */
  lemma WrittenSegment(marker: byte, payload: seq<byte>, rest: Stream)
    requires marker !in {0x01, 0xD0, 0xD1, 0xD2, 0xD3, 0xD4, 0xD5, 0xD6, 0xD7, 0xD9, 0xDA, 0xFF}
    requires |payload| + 2 < 0x1_0000 && WellFormed(rest)
    ensures ScrubbedPart(Written(marker, payload), rest)
         == Success([0xFF, 0xD8] + ((if IsUnwanted(marker, payload) then [] else Written(marker, payload))
                                    + Print(Scrub(rest))))
  {
    var body := [(|payload| + 2) / 256, (|payload| + 2) % 256] + payload;
    var u := Segment(marker, body);
    assert body[2..] == payload;
    NoFill(u);
    assert [0xFF, marker] + body == Written(marker, payload);
    MetadataIsUnwanted(marker, payload);
    hide Print, ScrubbedPart, IsUnwanted, IsMetadataSegment, WellFormed;
    assert WellFormedUnit(u);
    MoreIsWellFormed(0, u, rest);
    ScrubbedUnit(0, u, rest);
  }

  lemma MoreIsWellFormed(fill: nat, u: Unit, rest: Stream)
    requires WellFormedUnit(u) && WellFormed(rest)
    requires u.Scan? ==> rest.fill == 0 && !ContinuesScan(FirstMarker(rest))
    ensures WellFormed(More(fill, u, rest))
  {
    hide WellFormedUnit, ContinuesScan, FirstMarker;
  }

  /** Restart markers and TEM are kept. */
  lemma WrittenMarker(marker: byte, rest: Stream)
    requires marker in {0x01, 0xD0, 0xD1, 0xD2, 0xD3, 0xD4, 0xD5, 0xD6, 0xD7} && WellFormed(rest)
    ensures ScrubbedPart([0xFF, marker], rest) == Success([0xFF, 0xD8] + ([0xFF, marker] + Print(Scrub(rest))))
  {
    var u := Standalone(marker);
    NoFill(u);
    assert [0xFF, marker] + [] == [0xFF, marker];
    hide Print, ScrubbedPart, WellFormed;
    MoreIsWellFormed(0, u, rest);
    ScrubbedUnit(0, u, rest);
  }

  /** What entropy-coded data may hold: behind each 0xFF a stuffed zero, a restart number or another 0xFF. */
  predicate IsScanData(s: seq<byte>) {
    forall i :: 0 <= i < |s| - 1 && s[i] == 0xFF ==>
      s[i + 1] in {0x00, 0xD0, 0xD1, 0xD2, 0xD3, 0xD4, 0xD5, 0xD6, 0xD7, 0xFF}
  }

  /** A scan in front of any marker that does not belong to it is kept byte for byte. */
  lemma WrittenScan(params: seq<byte>, ecs: seq<byte>, rest: Stream)
    requires |params| + 2 < 0x1_0000 && IsScanData(ecs) && WellFormed(rest) && rest.fill == 0
    requires FirstMarker(rest) !in {0x00, 0xD0, 0xD1, 0xD2, 0xD3, 0xD4, 0xD5, 0xD6, 0xD7}
    ensures ScrubbedPart(Written(0xDA, params) + ecs, rest)
         == Success([0xFF, 0xD8] + (Written(0xDA, params) + ecs + Print(Scrub(rest))))
  {
    var u := WrittenScanUnit(params, ecs);
    hide Print, ScrubbedPart, WellFormed, WellFormedUnit, PrintUnit;
    MoreIsWellFormed(0, u, rest);
    ScrubbedUnit(0, u, rest);
  }

  lemma WrittenScanUnit(params: seq<byte>, ecs: seq<byte>) returns (u: Unit)
    requires |params| + 2 < 0x1_0000 && IsScanData(ecs)
    ensures u.Scan? && WellFormedUnit(u) && PrintUnit(0, u) == Written(0xDA, params) + ecs
  {
    var header := [(|params| + 2) / 256, (|params| + 2) % 256] + params;
    u := Scan(header, ecs);
    NoFill(u);
    assert [0xFF, 0xDA] + (header + ecs) == Written(0xDA, params) + ecs;
  }

  /** A scan without a marker behind it is kept to the end of the file. */
  lemma WrittenOpenScan(params: seq<byte>, ecs: seq<byte>)
    requires |params| + 2 < 0x1_0000 && IsScanData(ecs)
    ensures var data := [0xFF, 0xD8] + (Written(0xDA, params) + ecs); Stripped(data) == Success(data)
  {
    var u := WrittenScanUnit(params, ecs);
    var st := OpenScan(0, u.header, u.ecs);
    var data := [0xFF, 0xD8] + Print(st);
    assert data[2..] == Print(st);
    hide Parse, PrintUnit;
    ParseIsComplete(data, 2, st);
  }

  /** Everything behind the end-of-image marker is removed. */
  lemma WrittenEnd(trailer: seq<byte>)
    ensures Stripped([0xFF, 0xD8, 0xFF, 0xD9] + trailer) == Success([0xFF, 0xD8, 0xFF, 0xD9])
  {
    var data, st := [0xFF, 0xD8, 0xFF, 0xD9] + trailer, End(0, trailer);
    assert data[2..] == Print(st);
    assert Print(End(0, [])) == [0xFF, 0xD9];
    hide Parse, Print;
    ParseIsComplete(data, 2, st);
    assert [0xFF, 0xD8] + [0xFF, 0xD9] == [0xFF, 0xD8, 0xFF, 0xD9];
  }

  // ---------------------------------------------------------------------------
  // What a second walk finds
  // ---------------------------------------------------------------------------

  /** The scans of a stream, headers and entropy-coded data, in order. */
  function Scans(st: Stream): seq<(seq<byte>, seq<byte>)> {
    match st
    case End(_, _) => []
    case OpenScan(_, header, ecs) => [(header, ecs)]
    case More(_, u, rest) => (if u.Scan? then [(u.header, u.ecs)] else []) + Scans(rest)
  }

  /** The delimited units of a stream, in order. */
  function Units(st: Stream): seq<Unit> {
    if st.More? then [st.head] + Units(st.rest) else []
  }

  function Kept(us: seq<Unit>): seq<Unit> {
    if us == [] then []
    else (if IsMetadata(us[0]) then [] else [us[0]]) + Kept(us[1..])
  }

  /** Scrubbing keeps exactly the units that are not metadata, in order, and every scan byte for byte. */
  lemma {:induction false} ScrubKeeps(st: Stream)
    ensures Units(Scrub(st)) == Kept(Units(st))
    ensures Scans(Scrub(st)) == Scans(st)
    decreases st
  {
    if st.More? {
      ScrubKeeps(st.rest);
      assert Units(st)[1..] == Units(st.rest);
    }
  }

  predicate MetadataFree(st: Stream) {
    st.More? ==> !IsMetadata(st.head) && MetadataFree(st.rest)
  }

  /** A restart marker or a segment with marker 0x00: behind scan data, a second walk reads it as more of that data. */
  predicate IsAbsorbed(u: Unit) {
    !u.Scan? && ContinuesScan(UnitMarker(u))
  }

  function Bytes(u: Unit): seq<byte> {
    [0xFF, UnitMarker(u)] + UnitTail(u)
  }

  /** Such units that now follow a scan become part of its entropy-coded data. */
  function Absorb(st: Stream): Stream
    decreases st, 0
  {
    match st
    case More(fill, Scan(header, ecs), rest) => AbsorbInto(fill, header, ecs, rest)
    case More(fill, u, rest) => More(fill, u, Absorb(rest))
    case _ => st
  }

  function AbsorbInto(fill: nat, header: seq<byte>, ecs: seq<byte>, rest: Stream): Stream
    decreases rest, 1
  {
    if rest.More? && IsAbsorbed(rest.head) then
      AbsorbInto(fill, header, ecs + Bytes(rest.head), rest.rest)
    else
      More(fill, Scan(header, ecs), Absorb(rest))
  }

  /** No marker lies in the payload of a 0x00 segment that a second walk takes for scan data: one right behind a scan,
      dropped segments and absorbed units aside. ITU-T T.81 (table B.1) has no 0x00 segment at all. */
  predicate NoStrayMarker(st: Stream, behindScan: bool) {
    match st
    case End(_, _) => true
    case OpenScan(_, _, _) => true
    case More(_, u, rest) =>
      if IsMetadata(u) then NoStrayMarker(rest, behindScan)
      else
        match u
        case Scan(_, _) => NoStrayMarker(rest, true)
        case Standalone(m) => NoStrayMarker(rest, behindScan && IsRestart(m))
        case Segment(m, body) =>
          if behindScan && m == 0x00 then IsEcs(body) && NoStrayMarker(rest, true) else NoStrayMarker(rest, false)
  }

  predicate NoZeroMarker(st: Stream) {
    st.More? ==> UnitMarker(st.head) != 0x00 && NoZeroMarker(st.rest)
  }

  lemma {:induction false} NoZeroMarkerSuffices(st: Stream, behindScan: bool)
    requires NoZeroMarker(st)
    ensures NoStrayMarker(st, behindScan)
    decreases st
  {
    if st.More? {
      NoZeroMarkerSuffices(st.rest, true);
      NoZeroMarkerSuffices(st.rest, false);
    }
  }

  /** Scrubbed streams: no fill bytes, no trailer, no metadata, every unit well-formed on its own. */
  predicate Canonical(st: Stream) {
    match st
    case End(fill, trailer) => fill == 0 && trailer == []
    case OpenScan(fill, header, ecs) => fill == 0 && WellFormedUnit(Scan(header, ecs))
    case More(fill, u, rest) => fill == 0 && WellFormedUnit(u) && !IsMetadata(u) && Canonical(rest)
  }

  lemma {:induction false} ScrubIsCanonical(st: Stream)
    requires WellFormed(st)
    ensures Canonical(Scrub(st))
    decreases st
  {
    if st.More? {
      ScrubIsCanonical(st.rest);
    }
  }

  lemma {:induction false} ScrubOfCanonical(st: Stream)
    requires Canonical(st)
    ensures Scrub(st) == st && MetadataFree(st)
    decreases st
  {
    if st.More? {
      ScrubOfCanonical(st.rest);
    }
  }

  lemma {:induction false} NoStrayMarkerOfScrub(st: Stream, behindScan: bool)
    ensures NoStrayMarker(Scrub(st), behindScan) <==> NoStrayMarker(st, behindScan)
    decreases st
  {
    if st.More? {
      NoStrayMarkerOfScrub(st.rest, true);
      NoStrayMarkerOfScrub(st.rest, false);
    }
  }

  /** Absorbing units into scans moves no byte. */
  lemma {:induction false} AbsorbPrints(st: Stream)
    requires Canonical(st)
    ensures Print(Absorb(st)) == Print(st)
    decreases st, 0
  {
    match st {
      case More(fill, Scan(header, ecs), rest) =>
        AbsorbIntoPrints(fill, header, ecs, rest);
      case More(fill, u, rest) =>
        AbsorbPrints(rest);
      case _ =>
    }
  }

  lemma {:induction false} AbsorbIntoPrints(fill: nat, header: seq<byte>, ecs: seq<byte>, rest: Stream)
    requires Canonical(rest)
    ensures Print(AbsorbInto(fill, header, ecs, rest)) == PrintUnit(fill, Scan(header, ecs)) + Print(rest)
    decreases rest, 1
  {
    if rest.More? && IsAbsorbed(rest.head) {
      hide Print, PrintUnit, WellFormedUnit, IsMetadata, Bytes;
      var more := Bytes(rest.head);
      AbsorbIntoPrints(fill, header, ecs + more, rest.rest);
      AppendToScan(fill, header, ecs, more);
      PrintHead(rest);
      Associates(PrintUnit(fill, Scan(header, ecs)), more, Print(rest.rest));
    } else {
      AbsorbPrints(rest);
    }
  }

  lemma PrintHead(st: Stream)
    requires Canonical(st) && st.More?
    ensures Print(st) == Bytes(st.head) + Print(st.rest)
  {
    NoFill(st.head);
    hide PrintUnit;
  }

  lemma AppendToScan(fill: nat, header: seq<byte>, ecs: seq<byte>, more: seq<byte>)
    ensures PrintUnit(fill, Scan(header, ecs + more)) == PrintUnit(fill, Scan(header, ecs)) + more
  {
    assert header + (ecs + more) == header + ecs + more;
  }

  lemma EcsWithAbsorbed(ecs: seq<byte>, u: Unit)
    requires IsAbsorbed(u)
    ensures IsEcs(ecs + Bytes(u)) <==> IsEcs(ecs) && IsEcs(UnitTail(u))
  {
    var tail := UnitTail(u);
    var s := ecs + Bytes(u);
    var n := |ecs| + 2;
    if IsEcs(s) {
      assert forall i :: 0 <= i < |ecs| ==> s[i] == ecs[i];
      assert forall i :: 0 <= i < |tail| ==> s[n + i] == tail[i];
      forall i | 0 <= i < |tail| - 1 && tail[i] == 0xFF
        ensures !EndsScan(tail[i + 1])
      {
        assert s[n + i] == 0xFF && s[n + i + 1] == tail[i + 1];
      }
    }
  }

  /** The absorbed stream fits the grammar exactly when no stray marker lies in what was absorbed. */
  lemma {:induction false} AbsorbWellFormedIff(st: Stream)
    requires Canonical(st)
    ensures WellFormed(Absorb(st)) <==> NoStrayMarker(st, false)
    ensures Absorb(st).fill == 0 && FirstMarker(Absorb(st)) == FirstMarker(st)
    decreases st, 0
  {
    match st {
      case More(fill, Scan(header, ecs), rest) =>
        AbsorbIntoWellFormedIff(header, ecs, rest);
      case More(fill, u, rest) =>
        AbsorbWellFormedIff(rest);
      case _ =>
    }
  }

  lemma {:induction false} AbsorbIntoWellFormedIff(header: seq<byte>, ecs: seq<byte>, rest: Stream)
    requires Canonical(rest) && IsLengthPrefixed(header)
    ensures var st := AbsorbInto(0, header, ecs, rest);
      (WellFormed(st) <==> IsEcs(ecs) && NoStrayMarker(rest, true)) && st.fill == 0 && FirstMarker(st) == 0xDA
    decreases rest, 1
  {
    hide IsEcs;
    if rest.More? && IsAbsorbed(rest.head) {
      EcsWithAbsorbed(ecs, rest.head);
      EmptyIsEcs();
      AbsorbIntoWellFormedIff(header, ecs + Bytes(rest.head), rest.rest);
    } else {
      AbsorbWellFormedIff(rest);
      BehindScan(rest);
    }
  }

  lemma EmptyIsEcs()
    ensures IsEcs([])
  {
  }

  lemma BehindScan(rest: Stream)
    requires Canonical(rest) && !(rest.More? && IsAbsorbed(rest.head))
    ensures NoStrayMarker(rest, true) <==> NoStrayMarker(rest, false)
    ensures !ContinuesScan(FirstMarker(rest))
  {
  }

  /** An absorbed stream that fits the grammar is canonical again. */
  lemma {:induction false} AbsorbIsCanonical(st: Stream)
    requires Canonical(st) && WellFormed(Absorb(st))
    ensures Canonical(Absorb(st))
    decreases st, 0
  {
    match st {
      case More(fill, Scan(header, ecs), rest) =>
        AbsorbIntoIsCanonical(header, ecs, rest);
      case More(fill, u, rest) =>
        AbsorbIsCanonical(rest);
      case _ =>
    }
  }

  lemma {:induction false} AbsorbIntoIsCanonical(header: seq<byte>, ecs: seq<byte>, rest: Stream)
    requires Canonical(rest) && WellFormed(AbsorbInto(0, header, ecs, rest))
    ensures Canonical(AbsorbInto(0, header, ecs, rest))
    decreases rest, 1
  {
    hide IsEcs;
    if rest.More? && IsAbsorbed(rest.head) {
      AbsorbIntoIsCanonical(header, ecs + Bytes(rest.head), rest.rest);
    } else {
      AbsorbIsCanonical(rest);
    }
  }

  /** The output of an accepted input, read again, is what was kept, with the units that follow a scan absorbed into it,
      exactly when no stray marker lies in them. */
  lemma RewalkIff(data: seq<byte>, st: Stream)
    requires |data| >= 2 && Parse(data, 2) == Success(st)
    ensures Stripped(data).Success? && |Stripped(data).value| >= 2
    ensures Parse(Stripped(data).value, 2) == Success(Absorb(Scrub(st))) <==> NoStrayMarker(st, false)
  {
    var out := Stripped(data).value;
    ParseIsSound(data, 2, st);
    ScrubIsCanonical(st);
    NoStrayMarkerOfScrub(st, false);
    AbsorbWellFormedIff(Scrub(st));
    AbsorbPrints(Scrub(st));
    assert out[2..] == Print(Absorb(Scrub(st)));
    AcceptedIffWellFormed(out, 2, Absorb(Scrub(st)));
  }

  // ---------------------------------------------------------------------------
  // Idempotence
  // ---------------------------------------------------------------------------

  /** Scrubbing a stream that is not canonical makes it shorter. */
  lemma {:induction false} ScrubShortensIff(st: Stream)
    requires WellFormed(st)
    ensures |Print(Scrub(st))| <= |Print(st)|
    ensures |Print(Scrub(st))| == |Print(st)| <==> Canonical(st)
    decreases st
  {
    if st.More? {
      ScrubShortensIff(st.rest);
      hide PrintUnit;
    }
  }

  /** The files that scrubbing leaves as they are: those that begin with a start-of-image marker and hold no fill
      bytes, no metadata and no trailer. */
  lemma FixedPointIff(data: seq<byte>, st: Stream)
    requires |data| >= 2 && Parse(data, 2) == Success(st)
    ensures Stripped(data) == Success(data) <==> data[..2] == SOI && Canonical(st)
  {
    ParseIsSound(data, 2, st);
    ScrubShortensIff(st);
    assert data == data[..2] + Print(st);
    if Canonical(st) {
      ScrubOfCanonical(st);
    }
    assert Stripped(data) == Success(SOI + Print(Scrub(st)));
    assert (SOI + Print(Scrub(st)))[..2] == SOI;
  }

  /** Exactly when scrubbing a file twice is scrubbing it once: the bytes to be kept, walked on their own, are not
      refused and hold no fill byte, no metadata segment and no trailer. */
  lemma IdempotentIff(data: seq<byte>, st: Stream)
    requires |data| >= 2 && Parse(data, 2) == Success(st)
    ensures var kept := Print(Scrub(st));
      && Stripped(data) == Success(SOI + kept)
      && (Stripped(SOI + kept) == Success(SOI + kept)
          <==> Parse(kept, 0).Success? && Canonical(Parse(kept, 0).value))
  {
    var kept := Print(Scrub(st));
    var out := SOI + kept;
    SameWalk(out, kept);
    assert out[..2] == SOI;
    if Parse(out, 2).Success? {
      FixedPointIff(out, Parse(out, 2).value);
    }
  }

  /** The walk does not depend on what stands in front. */
  lemma SameWalk(out: seq<byte>, kept: seq<byte>)
    requires |out| >= 2 && out[2..] == kept
    ensures Parse(out, 2).Success? <==> Parse(kept, 0).Success?
    ensures Parse(out, 2).Success? ==> Parse(out, 2).value == Parse(kept, 0).value
  {
    assert kept[0..] == kept;
    hide Parse, WellFormed, Print;
    if Parse(out, 2).Success? {
      AcceptedIffWellFormed(out, 2, Parse(out, 2).value);
      AcceptedIffWellFormed(kept, 0, Parse(out, 2).value);
    }
    if Parse(kept, 0).Success? {
      AcceptedIffWellFormed(kept, 0, Parse(kept, 0).value);
      AcceptedIffWellFormed(out, 2, Parse(kept, 0).value);
    }
  }

  /** What can be told from the input: without a stray marker the second walk finds the kept units, no metadata segment
      among them, and scrubbing again changes nothing. */
  lemma StripIsIdempotent(data: seq<byte>, st: Stream)
    requires |data| >= 2 && Parse(data, 2) == Success(st) && NoStrayMarker(st, false)
    ensures var out := Stripped(data).value;
      && Parse(out, 2) == Success(Absorb(Scrub(st)))
      && MetadataFree(Absorb(Scrub(st)))
      && Stripped(out) == Success(out)
  {
    RewalkIff(data, st);
    ParseIsSound(data, 2, st);
    ScrubIsCanonical(st);
    NoStrayMarkerOfScrub(st, false);
    AbsorbWellFormedIff(Scrub(st));
    AbsorbIsCanonical(Scrub(st));
    ScrubOfCanonical(Absorb(Scrub(st)));
    FixedPointIff(Stripped(data).value, Absorb(Scrub(st)));
  }

  /** Why the marker 0x00 matters: with one behind a dropped comment, the scan swallows it on the second walk, an APP1
      segment that was payload comes to light, and scrubbing again removes it. */
  lemma StrayZeroBreaksIdempotence() returns (data: seq<byte>, out: seq<byte>, st: Stream)
    ensures Stripped(data) == Success(out) && |out| >= 2
    ensures Parse(out, 2) == Success(st) && !MetadataFree(st)
    ensures Stripped(out).Success? && |Stripped(out).value| < |out|
  {
    hide Parse, Stripped, Continued, Lex, LexBehind;
    var last := End(0, []);
    var zero := More(0, Segment(0x00, [0x00, 0x06, 0xFF, 0xE1, 0x00, 0x02]), last);
    var comment := More(0, Segment(0xFE, [0x00, 0x02]), zero);
    var first := More(0, Scan([0x00, 0x02], [0x11]), comment);
    data := SOI + Print(first);
    ParseOfFile(first);
    assert Scrub(first) == More(0, Scan([0x00, 0x02], [0x11]), zero) by {
      assert !IsMetadata(first.head) && IsMetadata(comment.head) && !IsMetadata(zero.head);
    }
    out := SOI + Print(Scrub(first));
    var app1 := More(0, Segment(0xE1, [0x00, 0x02]), last);
    st := More(0, Scan([0x00, 0x02], [0x11, 0xFF, 0x00, 0x00, 0x06]), app1);
    SamePrint(last);
    ParseOfFile(st);
    assert Scrub(st) == More(0, st.head, last) by {
      assert IsMetadata(app1.head) && !IsMetadata(st.head);
    }
    PrintLength(Scrub(st));
    PrintLength(st);
    PrintLength(app1);
  }

  lemma ParseOfFile(st: Stream)
    requires WellFormed(st)
    ensures Parse(SOI + Print(st), 2) == Success(st)
    ensures Stripped(SOI + Print(st)) == Success(SOI + Print(Scrub(st)))
  {
    var data := SOI + Print(st);
    assert data[2..] == Print(st);
    ParseIsComplete(data, 2, st);
  }

  lemma SamePrint(last: Stream)
    ensures Print(More(0, Scan([0x00, 0x02], [0x11]),
                       More(0, Segment(0x00, [0x00, 0x06, 0xFF, 0xE1, 0x00, 0x02]), last)))
         == Print(More(0, Scan([0x00, 0x02], [0x11, 0xFF, 0x00, 0x00, 0x06]),
                       More(0, Segment(0xE1, [0x00, 0x02]), last)))
  {
    var a, b := Scan([0x00, 0x02], [0x11]), Segment(0x00, [0x00, 0x06, 0xFF, 0xE1, 0x00, 0x02]);
    var c, d := Scan([0x00, 0x02], [0x11, 0xFF, 0x00, 0x00, 0x06]), Segment(0xE1, [0x00, 0x02]);
    var p, q, r, t := PrintUnit(0, a), PrintUnit(0, b), PrintUnit(0, c), PrintUnit(0, d);
    assert p == [0xFF, 0xDA, 0x00, 0x02, 0x11] by { NoFill(a); }
    assert q == [0xFF, 0x00, 0x00, 0x06, 0xFF, 0xE1, 0x00, 0x02] by { NoFill(b); }
    assert r == [0xFF, 0xDA, 0x00, 0x02, 0x11, 0xFF, 0x00, 0x00, 0x06] by { NoFill(c); }
    assert t == [0xFF, 0xE1, 0x00, 0x02] by { NoFill(d); }
    PrintTwo(a, b, last);
    PrintTwo(c, d, last);
    hide *;
    assert p + q == r + t;
  }

  lemma PrintTwo(u: Unit, v: Unit, rest: Stream)
    ensures Print(More(0, u, More(0, v, rest))) == PrintUnit(0, u) + PrintUnit(0, v) + Print(rest)
  {
    hide PrintUnit;
    var p, q, t := PrintUnit(0, u), PrintUnit(0, v), Print(rest);
    assert p + (q + t) == p + q + t;
  }

  lemma PrintLength(st: Stream)
    ensures st.More? ==> |Print(st)| == st.fill + 2 + |UnitTail(st.head)| + |Print(st.rest)|
  {
  }
}
