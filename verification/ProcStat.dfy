/** Process identities: the start time in `/proc/<pid>/stat` and the `<pid>:<starttime>` argument
    (src/kernel/intervention.rs, lines 371-398 and 445-451). */
module ProcStat {
  import opened Common
  import opened Decimal
  import opened Text

  function ParseStartTime(stat: string): Option<nat> {
    var p := BehindLast(stat, ')', |stat|);
    if p == 0 then None
    else
      var words := Words(stat, p);
      if |words| <= 19 then None else ParseU64(words[19])
  }

  /** The line as the kernel prints it: fields 3 and up behind the parenthesised command name. */
  function StatLine(pid: nat, comm: string, fields: seq<string>): string {
    Print(pid) + " (" + comm + ")" + Spaced(fields) + "\n"
  }

  predicate IsField(s: string) {
    IsWord(s) && ')' !in s
  }

  /** Whatever the command name holds, parentheses and spaces included, field 22 is found. */
  lemma StartTimeIsField22(pid: nat, comm: string, fields: seq<string>, start: nat)
    requires forall f :: f in fields ==> IsField(f)
    requires |fields| >= 20 && fields[19] == Print(start) && start < U64_LIMIT
    ensures ParseStartTime(StatLine(pid, comm, fields)) == Some(start)
  {
    hide Print, Words, Spaced, ParseU64, ParseUnsigned;
    FieldsBehindName(pid, comm, fields);
    ParseOfPrint(start, U64_LIMIT);
    assert ParseU64(Print(start)) == Some(start) by { ParsesAsU64(start); }
  }

  lemma ParsesAsU64(n: nat)
    requires n < U64_LIMIT
    ensures ParseU64(Print(n)) == Some(n)
  {
    ParseOfPrint(n, U64_LIMIT);
  }

  /** A line with fewer than twenty fields behind the name has no start time. */
  lemma ShortLineIsRefused(pid: nat, comm: string, fields: seq<string>)
    requires (forall f :: f in fields ==> IsField(f)) && |fields| < 20
    ensures ParseStartTime(StatLine(pid, comm, fields)) == None
  {
    hide Print, Words, Spaced;
    FieldsBehindName(pid, comm, fields);
  }

  /** A line without a command name in parentheses has no start time. */
  lemma NoNameIsRefused(stat: string)
    requires ')' !in stat
    ensures ParseStartTime(stat) == None
  {
    assert BehindLast(stat, ')', |stat|) == 0;
  }

  lemma FieldsBehindName(pid: nat, comm: string, fields: seq<string>)
    requires forall f :: f in fields ==> IsField(f)
    ensures var line, p := StatLine(pid, comm, fields), |Print(pid)| + 3 + |comm|;
      && p <= |line| && BehindLast(line, ')', |line|) == p && Words(line, p) == fields
  {
    hide Print, Words, Spaced, IsWord;
    var line, p, tail := StatLine(pid, comm, fields), |Print(pid)| + 3 + |comm|, Spaced(fields) + "\n";
    assert line == Print(pid) + " (" + comm + ")" + tail;
    assert line[p - 1] == ')' && line[p..] == tail;
    NoParenthesis(fields);
    assert forall k :: p <= k < |line| ==> line[k] == tail[k - p];
    BehindLastIs(line, ')', |line|, p);
    assert AllSpace("\n");
    FieldsAreWords(fields);
    WordsOfSpaced(line, p, fields, "\n");
  }

  lemma FieldsAreWords(fields: seq<string>)
    requires forall f :: f in fields ==> IsField(f)
    ensures AllWords(fields)
  {
    forall i | 0 <= i < |fields|
      ensures IsWord(fields[i])
    {
      assert fields[i] in fields;
    }
  }

  lemma {:induction false} NoParenthesis(fields: seq<string>)
    requires forall f :: f in fields ==> IsField(f)
    ensures ')' !in Spaced(fields)
    decreases |fields|
  {
    if fields != [] {
      NoParenthesis(fields[1..]);
      assert fields[0] in fields;
    }
  }

  // ---------------------------------------------------------------------------
  // The identity handed to the helper
  // ---------------------------------------------------------------------------

  function IdentityArg(pid: int, start: nat): string {
    PrintSigned(pid) + ":" + Print(start)
  }

  function ParseIdentityArg(arg: string): Option<(int, nat)> {
    var s := Trim(arg);
    var n := IndexFrom(s, ':', 0);
    if n == |s| then None
    else
      match (ParseI32(s[..n]), ParseU64(s[n + 1..]))
      case (Some(pid), Some(start)) => Some((pid, start))
      case _ => None
  }

  function ParseProcessTarget(arg: string): Option<(int, Option<nat>)> {
    match ParseIdentityArg(arg)
    case Some((pid, start)) => Some((pid, Some(start)))
    case None =>
      match ParseI32(Trim(arg))
      case Some(pid) => Some((pid, None))
      case None => None
  }

  /** The helper reads back exactly the process identity it was started with, white space around it aside. */
  lemma IdentityRoundTrip(before: string, pid: int, start: nat, after: string)
    requires -I32_LIMIT <= pid < I32_LIMIT && start < U64_LIMIT && AllSpace(before) && AllSpace(after)
    ensures ParseIdentityArg(before + IdentityArg(pid, start) + after) == Some((pid, start))
    ensures ParseProcessTarget(before + IdentityArg(pid, start) + after) == Some((pid, Some(start)))
  {
    hide Print, PrintSigned, ParseI32, ParseU64, IsSpace;
    var p, q := PrintSigned(pid), Print(start);
    var s := IdentityArg(pid, start);
    SignedCharacters(pid);
    DigitsAreNoSpace(q);
    SplitsAtColon(p, q);
    TrimOfPadded(before, s, after);
    hide Trim, IdentityArg;
    ParseI32OfPrint(pid);
    ParsesAsU64(start);
  }

  lemma SplitsAtColon(p: string, q: string)
    requires p != "" && forall k :: 0 <= k < |p| ==> !IsSpace(p[k]) && p[k] != ':'
    requires forall k :: 0 <= k < |q| ==> !IsSpace(q[k])
    ensures var s := p + ":" + q;
      && IsWord(s) && IndexFrom(s, ':', 0) == |p| && s[..|p|] == p && s[|p| + 1..] == q
  {
    var s := p + ":" + q;
    ColonIsNoSpace();
    hide IsSpace;
    assert forall k :: 0 <= k < |s| ==> s[k] == if k < |p| then p[k] else if k == |p| then ':' else q[k - |p| - 1];
    assert s[|p|] == ':';
    assert IndexFrom(s, ':', 0) == |p|;
    assert s[..|p|] == p;
    assert s[|p| + 1..] == q;
    assert IsWord(s);
  }

  lemma ColonIsNoSpace()
    ensures !IsSpace(':')
  {
  }

  lemma DigitsAreNoSpace(s: string)
    requires AllDigits(s)
    ensures forall k :: 0 <= k < |s| ==> !IsSpace(s[k]) && s[k] != ':'
  {
  }

  lemma SignedCharacters(n: int)
    ensures var s := PrintSigned(n); s != "" && forall k :: 0 <= k < |s| ==> !IsSpace(s[k]) && s[k] != ':'
  {
    hide Print;
    DigitsAreNoSpace(Print(if n < 0 then -n else n));
  }

  /** A bare pid is a target without a start time. */
  lemma BarePidRoundTrip(before: string, pid: int, after: string)
    requires -I32_LIMIT <= pid < I32_LIMIT && AllSpace(before) && AllSpace(after)
    ensures ParseProcessTarget(before + PrintSigned(pid) + after) == Some((pid, None))
  {
    hide Print, PrintSigned, ParseI32, ParseU64, IsSpace;
    SignedCharacters(pid);
    TrimOfPadded(before, PrintSigned(pid), after);
    ParseI32OfPrint(pid);
  }

  /** A broken identity is refused; it is never taken for a bare pid. */
  lemma BrokenIdentityIsRefused(arg: string)
    requires ':' in Trim(arg) && ParseIdentityArg(arg) == None
    ensures ParseProcessTarget(arg) == None
  {
    var s := Trim(arg);
    var k :| 0 <= k < |s| && s[k] == ':';
    if s[0] == '-' {
      assert s[1..][k - 1] == ':';
    } else if s[0] == '+' {
      assert s[1..][k - 1] == ':';
    }
  }
}
