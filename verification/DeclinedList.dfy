/**
  The list of failed blocks (src/engine/badusb.rs, lines 390-430): a text file with one line
  `<bus id> <vid:pid>TAB<unix time>` per device whose de-authorization failed or was cancelled.

  The file may hold anything, for instance lines without a time from an older version. Reading it and writing it back
  are two operations, because a scan does both without holding the lock.
 */
module DeclinedList {
  import opened Common
  import opened Decimal

  /** How long a failed or cancelled block is held back, in seconds. */
  const DEAUTH_RETRY_SECS := 60

  datatype Entry = Entry(key: string, time: nat)

  function Line(e: Entry): string {
    e.key + "\t" + Print(e.time)
  }

  function Join(entries: seq<Entry>): string {
    if entries == [] then ""
    else if |entries| == 1 then Line(entries[0])
    else Line(entries[0]) + "\n" + Join(entries[1..])
  }

  /** A line ends in front of a line feed; a carriage return before the line feed does not belong to it. */
  function LineText(text: string, i: nat, end: nat): string
    requires i <= end <= |text|
  {
    if i < end < |text| && text[end - 1] == '\r' then text[i..end - 1] else text[i..end]
  }

  /** The non-empty lines of the text from position `i` on. */
  function Lines(text: string, i: nat): seq<string>
    requires i <= |text|
    decreases |text| - i
  {
    if i == |text| then []
    else
      var end := IndexFrom(text, '\n', i);
      var line := LineText(text, i, end);
      (if line == "" then [] else [line]) + if end < |text| then Lines(text, end + 1) else []
  }

  function BusOf(key: string): string {
    key[..IndexFrom(key, ' ', 0)]
  }

  /** The entry may hold its device back: it is still connected and the window is still open. */
  predicate InWindow(e: Entry, connected: set<string>, now: nat) {
    BusOf(e.key) in connected && (now < e.time || now - e.time < DEAUTH_RETRY_SECS)
  }

  /** A line without a timestamp comes from an older version and is dropped. */
  function ParseLine(l: string): Option<Entry> {
    var t := BehindLast(l, '\t', |l|);
    if t == 0 then None
    else
      match ParseU64(l[t..])
      case None => None
      case Some(time) => Some(Entry(l[..t - 1], time))
  }

  /** The entries of the lines that can be read. */
  function EntriesIn(lines: seq<string>): seq<Entry> {
    if lines == [] then []
    else
      var n := |lines| - 1;
      match ParseLine(lines[n])
      case Some(e) => EntriesIn(lines[..n]) + [e]
      case None => EntriesIn(lines[..n])
  }

  /** What a file holds. */
  function Contents(text: string): seq<Entry> {
    EntriesIn(Lines(text, 0))
  }

  function ParseDeclined(lines: seq<string>, connected: set<string>, now: nat): seq<Entry> {
    if lines == [] then []
    else
      var n := |lines| - 1;
      var rest := ParseDeclined(lines[..n], connected, now);
      match ParseLine(lines[n])
      case Some(e) => if InWindow(e, connected, now) then rest + [e] else rest
      case None => rest
  }

  /** The entries that are still connected and still inside the window, in order. */
  function Pruned(entries: seq<Entry>, connected: set<string>, now: nat): (r: seq<Entry>)
    ensures forall e :: e in r <==> e in entries && InWindow(e, connected, now)
    ensures |r| <= |entries|
  {
    if entries == [] then []
    else
      var n := |entries| - 1;
      Pruned(entries[..n], connected, now) + if InWindow(entries[n], connected, now) then [entries[n]] else []
  }

  /** What the engine writes: no line feed in a key, and times that fit 64 bits. */
  predicate Storable(entries: seq<Entry>) {
    forall e :: e in entries ==> '\n' !in e.key && e.time < U64_LIMIT
  }

  /** Loading prunes what the file holds: the entries that are still connected and in the window, in order. */
  lemma {:induction false} ParseIsPruning(lines: seq<string>, connected: set<string>, now: nat)
    ensures ParseDeclined(lines, connected, now) == Pruned(EntriesIn(lines), connected, now)
    ensures |EntriesIn(lines)| <= |lines|
    decreases |lines|
  {
    hide ParseLine, InWindow, Pruned;
    if lines == [] {
      PrunedNothing(connected, now);
    } else {
      var n := |lines| - 1;
      ParseIsPruning(lines[..n], connected, now);
      if ParseLine(lines[n]).Some? {
        PrunedBehind(EntriesIn(lines[..n]), ParseLine(lines[n]).value, connected, now);
      }
    }
  }

  lemma PrunedNothing(connected: set<string>, now: nat)
    ensures Pruned([], connected, now) == []
  {
  }

  lemma PrunedBehind(entries: seq<Entry>, e: Entry, connected: set<string>, now: nat)
    ensures Pruned(entries + [e], connected, now)
         == Pruned(entries, connected, now) + if InWindow(e, connected, now) then [e] else []
  {
    assert (entries + [e])[..|entries|] == entries;
  }

  lemma {:induction false} PrunedSameLength(entries: seq<Entry>, connected: set<string>, now: nat)
    requires |Pruned(entries, connected, now)| == |entries|
    ensures Pruned(entries, connected, now) == entries
    decreases |entries|
  {
    if entries != [] {
      var n := |entries| - 1;
      PrunedSameLength(entries[..n], connected, now);
      assert entries == entries[..n] + [entries[n]];
    }
  }

  lemma ParseOfLine(e: Entry)
    requires e.time < U64_LIMIT
    ensures ParseLine(Line(e)) == Some(e)
  {
    var l, t := Line(e), |e.key| + 1;
    assert l[t..] == Print(e.time) && l[..t - 1] == e.key && l[t - 1] == '\t';
    assert forall k :: t <= k < |l| ==> l[k] == Print(e.time)[k - t];
    assert forall k :: t <= k < |l| ==> IsDigit(l[k]);
    BehindLastIs(l, '\t', |l|, t);
    ParseOfPrint(e.time, U64_LIMIT);
  }

  lemma LineHasNoLineFeed(e: Entry)
    requires '\n' !in e.key
    ensures '\n' !in Line(e) && Line(e) != "" && Line(e)[|Line(e)| - 1] != '\r'
  {
    var l, p := Line(e), Print(e.time);
    assert l[|l| - 1] == p[|p| - 1];
    assert IsDigit(p[|p| - 1]);
    forall k | 0 <= k < |l|
      ensures l[k] != '\n'
    {
      if k > |e.key| {
        assert l[k] == p[k - |e.key| - 1];
      } else if k < |e.key| {
        assert l[k] == e.key[k];
      }
    }
  }

  /** Reading the written file yields the written lines. */
  lemma {:induction false} LinesOfJoin(text: string, i: nat, entries: seq<Entry>)
    requires i <= |text| && text[i..] == Join(entries) && Storable(entries)
    ensures |Lines(text, i)| == |entries|
    ensures forall k :: 0 <= k < |entries| ==> Lines(text, i)[k] == Line(entries[k])
    decreases |entries|
  {
    hide Line, LineText, Storable, Lines;
    if |entries| > 1 {
      var l, rest := Line(entries[0]), entries[1..];
      StorableParts(entries);
      LinesStep(text, i, entries[0], "\n" + Join(rest));
      hide Join;
      TextBehind(text, i + |l|, Join(rest));
      LinesOfJoin(text, i + |l| + 1, rest);
      forall k | 0 <= k < |entries|
        ensures Lines(text, i)[k] == Line(entries[k])
      {
        if k > 0 {
          assert entries[k] == rest[k - 1];
        }
      }
    } else if |entries| == 1 {
      StorableParts(entries);
      assert Join(entries) == Line(entries[0]) + "";
      LinesStep(text, i, entries[0], "");
    } else {
      NoLines(text, i);
    }
  }

  lemma NoLines(text: string, i: nat)
    requires i <= |text| && text[i..] == ""
    ensures Lines(text, i) == []
  {
  }

  lemma StorableParts(entries: seq<Entry>)
    requires Storable(entries) && entries != []
    ensures '\n' !in entries[0].key && Storable(entries[1..])
  {
    assert entries[0] in entries;
  }

  lemma LinesStep(text: string, i: nat, e: Entry, tail: string)
    requires i <= |text| && text[i..] == Line(e) + tail && '\n' !in e.key
    requires tail == "" || tail[0] == '\n'
    ensures var end := i + |Line(e)|;
      && end <= |text| && text[end..] == tail
      && (tail == "" ==> Lines(text, i) == [Line(e)])
      && (tail != "" ==> Lines(text, i) == [Line(e)] + Lines(text, end + 1))
  {
    hide *;
    LineHasNoLineFeed(e);
    LineAt(text, i, Line(e), tail);
    LinesUnfold(text, i, i + |Line(e)|, Line(e));
  }

  lemma LinesUnfold(text: string, i: nat, end: nat, line: string)
    requires i < |text| && end == IndexFrom(text, '\n', i) && line == LineText(text, i, end) && line != ""
    ensures end < |text| ==> Lines(text, i) == [line] + Lines(text, end + 1)
    ensures end == |text| ==> Lines(text, i) == [line]
  {
    hide LineText, IndexFrom;
    if end == |text| {
      assert [line] + [] == [line];
    }
  }

  lemma TextBehind(text: string, end: nat, rest: string)
    requires end <= |text| && text[end..] == "\n" + rest
    ensures end < |text| && text[end + 1..] == rest
  {
    assert text[end..][1..] == text[end + 1..];
  }

  lemma LineAt(text: string, i: nat, l: string, tail: string)
    requires i <= |text| && text[i..] == l + tail && '\n' !in l && l != "" && l[|l| - 1] != '\r'
    requires tail == "" || tail[0] == '\n'
    ensures var end := i + |l|;
      && end <= |text| && IndexFrom(text, '\n', i) == end && LineText(text, i, end) == l && text[end..] == tail
  {
    var end := i + |l|;
    assert forall k :: 0 <= k < |text| - i ==> text[i + k] == (l + tail)[k];
    assert forall k :: 0 <= k < |l| ==> text[i + k] == l[k];
    assert forall k :: i <= k < end ==> text[k] == l[k - i];
    assert end < |text| ==> text[end] == tail[0];
    assert text[i..end] == l;
    assert text[end..] == tail;
    assert text[end - 1] == l[|l| - 1];
  }

  /** A line may end with a carriage return and a line feed; neither belongs to it. */
  lemma CrLfLine(text: string, i: nat, line: string, rest: string)
    requires i <= |text| && text[i..] == line + "\r\n" + rest && line != "" && '\n' !in line
    ensures i + |line| + 2 <= |text| && text[i + |line| + 2..] == rest
    ensures Lines(text, i) == [line] + Lines(text, i + |line| + 2)
  {
    Associates(line, "\r\n", rest);
    hide Lines, LineText;
    SplitSuffix(text, i, line, "\r\n" + rest);
    var end := i + |line| + 1;
    assert text[i + |line|..] == "\r\n" + rest;
    SplitSuffix(text, i + |line|, "\r\n", rest);
    assert text[end - 1] == "\r\n"[0] == '\r' && text[end] == "\r\n"[1] == '\n';
    assert forall k :: i <= k < end ==> text[k] == if k < end - 1 then line[k - i] else '\r';
    assert IndexFrom(text, '\n', i) == end;
    LineTextIs(text, i, end);
    LinesUnfold(text, i, end, line);
  }

  lemma LineTextIs(text: string, i: nat, end: nat)
    requires i < end < |text| && text[end - 1] == '\r'
    ensures LineText(text, i, end) == text[i..end - 1]
  {
  }

  lemma StorableInit(entries: seq<Entry>)
    requires Storable(entries) && entries != []
    ensures entries[|entries| - 1].time < U64_LIMIT && Storable(entries[..|entries| - 1])
  {
    assert entries[|entries| - 1] in entries;
  }

  lemma {:induction false} EntriesOfLines(lines: seq<string>, entries: seq<Entry>)
    requires Storable(entries) && |lines| == |entries|
    requires forall k :: 0 <= k < |lines| ==> lines[k] == Line(entries[k])
    ensures EntriesIn(lines) == entries
    decreases |lines|
  {
    hide Line, ParseLine, Storable;
    if lines != [] {
      var n := |lines| - 1;
      StorableInit(entries);
      ParseOfLine(entries[n]);
      EntriesOfLines(lines[..n], entries[..n]);
      assert entries == entries[..n] + [entries[n]];
    }
  }

  /** A file holds exactly the entries that were written into it. */
  lemma ContentsOfSaved(entries: seq<Entry>)
    requires Storable(entries)
    ensures Contents(Join(entries)) == entries
  {
    hide Lines, Line, EntriesIn, Storable;
    assert Join(entries)[0..] == Join(entries);
    LinesOfJoin(Join(entries), 0, entries);
    EntriesOfLines(Lines(Join(entries), 0), entries);
  }

  /** Saving and then loading returns exactly the entries that are still connected and in the window, in order. */
  lemma LoadOfSaved(entries: seq<Entry>, connected: set<string>, now: nat)
    requires Storable(entries)
    ensures ParseDeclined(Lines(Join(entries), 0), connected, now) == Pruned(entries, connected, now)
  {
    hide Lines, Join, EntriesIn, ParseDeclined, Pruned, Storable;
    ContentsOfSaved(entries);
    ParseIsPruning(Lines(Join(entries), 0), connected, now);
  }

  lemma {:induction false} LinesHaveNoLineFeed(text: string, i: nat)
    requires i <= |text|
    ensures forall l :: l in Lines(text, i) ==> '\n' !in l
    decreases |text| - i
  {
    hide LineText;
    if i < |text| {
      var end := IndexFrom(text, '\n', i);
      LineTextHasNoLineFeed(text, i);
      if end < |text| {
        LinesHaveNoLineFeed(text, end + 1);
      }
    }
  }

  lemma LineTextHasNoLineFeed(text: string, i: nat)
    requires i <= |text|
    ensures '\n' !in LineText(text, i, IndexFrom(text, '\n', i))
  {
  }

  lemma {:induction false} EntriesAreStorable(lines: seq<string>)
    requires forall l :: l in lines ==> '\n' !in l
    ensures Storable(EntriesIn(lines))
    decreases |lines|
  {
    hide ParseLine;
    if lines != [] {
      var n := |lines| - 1;
      assert forall l :: l in lines[..n] ==> l in lines;
      EntriesAreStorable(lines[..n]);
      assert lines[n] in lines;
      if ParseLine(lines[n]).Some? {
        LineIsStorable(lines[n]);
      }
    }
  }

  lemma LineIsStorable(l: string)
    requires '\n' !in l && ParseLine(l).Some?
    ensures '\n' !in ParseLine(l).value.key && ParseLine(l).value.time < U64_LIMIT
  {
  }

  /** Whatever a file holds can be written back. */
  lemma ContentsAreStorable(text: string)
    ensures Storable(Contents(text))
  {
    hide Lines, EntriesIn, Storable;
    LinesHaveNoLineFeed(text, 0);
    EntriesAreStorable(Lines(text, 0));
  }

  lemma {:induction false} PrunedIsStorable(entries: seq<Entry>, connected: set<string>, now: nat)
    requires Storable(entries)
    ensures Storable(Pruned(entries, connected, now))
  {
  }

  class ListFile {
    var text: string

    function Entries(): seq<Entry>
      reads this
    {
      Contents(text)
    }

    constructor (text: string)
      ensures this.text == text
    {
      this.text := text;
    }

    /** A write that fails leaves the file as it was; nobody is told. */
    method Save(list: seq<Entry>, ok: bool)
      requires Storable(list)
      modifies this
      ensures Entries() == if ok then list else old(Entries())
    {
      if ok {
        text := Join(list);
        ContentsOfSaved(list);
      }
    }

    /** What a load keeps of the file, and whether it has to write that back. */
    method Read(connected: set<string>, now: nat) returns (kept: seq<Entry>, dirty: bool)
      ensures kept == Pruned(Entries(), connected, now) && Storable(kept)
      ensures kept != Entries() ==> dirty
    {
      var all := Lines(text, 0);
      ParseIsPruning(all, connected, now);
      ContentsAreStorable(text);
      PrunedIsStorable(Entries(), connected, now);
      kept := ParseDeclined(all, connected, now);
      dirty := |kept| != |all|;
      if !dirty {
        PrunedSameLength(Entries(), connected, now);
      }
    }

    method Load(connected: set<string>, now: nat, ok: bool) returns (kept: seq<Entry>)
      modifies this
      ensures kept == Pruned(old(Entries()), connected, now) && Storable(kept)
      ensures Entries() == if ok then kept else old(Entries())
    {
      var dirty;
      kept, dirty := Read(connected, now);
      if dirty {
        Save(kept, ok);
      }
    }
  }
}
