/** White space as Rust's `str::trim` and `str::split_whitespace` see it. */
module Text {
  import opened Common

  /** The characters with the Unicode property White_Space. */
  predicate IsSpace(c: char) {
    var n := c as int;
    || 0x09 <= n <= 0x0D || n == 0x20 || n == 0x85 || n == 0xA0 || n == 0x1680 || 0x2000 <= n <= 0x200A
    || n == 0x2028 || n == 0x2029 || n == 0x202F || n == 0x205F || n == 0x3000
  }

  /** The 25 characters of that property in the Unicode character database. */
  lemma SpaceIff(c: char)
    ensures IsSpace(c) <==>
              c as int in {9, 10, 11, 12, 13, 32, 133, 160, 5760, 8192, 8193, 8194, 8195, 8196, 8197, 8198, 8199, 8200,
                           8201, 8202, 8232, 8233, 8239, 8287, 12288}
  {
  }

  predicate AllSpace(s: string) {
    forall i :: 0 <= i < |s| ==> IsSpace(s[i])
  }

  predicate IsWord(s: string) {
    s != "" && forall i :: 0 <= i < |s| ==> !IsSpace(s[i])
  }

  predicate AllWords(words: seq<string>) {
    forall i :: 0 <= i < |words| ==> IsWord(words[i])
  }

  /** The first position from `i` on whose character is (`space`) or is not (`!space`) white space. */
  function Skip(s: string, i: nat, space: bool): (n: nat)
    requires i <= |s|
    ensures i <= n <= |s| && (forall k :: i <= k < n ==> IsSpace(s[k]) == space) && (n < |s| ==> IsSpace(s[n]) != space)
    decreases |s| - i
  {
    if i < |s| && IsSpace(s[i]) == space then Skip(s, i + 1, space) else i
  }

  /** The position behind the last character before `i` that is not white space, or `from`. */
  function SkipBack(s: string, from: nat, i: nat): (n: nat)
    requires from <= i <= |s|
    ensures from <= n <= i && (forall k :: n <= k < i ==> IsSpace(s[k])) && (n > from ==> !IsSpace(s[n - 1]))
  {
    if i > from && IsSpace(s[i - 1]) then SkipBack(s, from, i - 1) else i
  }

  function Trim(s: string): (r: string)
    ensures r != "" ==> !IsSpace(r[0]) && !IsSpace(r[|r| - 1])
  {
    var from := Skip(s, 0, true);
    s[from..SkipBack(s, from, |s|)]
  }

  /** The words of `s` from position `i` on. */
  function Words(s: string, i: nat): seq<string>
    requires i <= |s|
    decreases |s| - i
  {
    var from := Skip(s, i, true);
    var end := Skip(s, from, false);
    if from == |s| then [] else [s[from..end]] + Words(s, end)
  }

  /** The words, each behind one space. */
  function Spaced(words: seq<string>): string {
    if words == [] then "" else " " + words[0] + Spaced(words[1..])
  }

  lemma TrimOfPadded(before: string, s: string, after: string)
    requires AllSpace(before) && AllSpace(after) && IsWord(s)
    ensures Trim(before + s + after) == s
  {
    var t := before + s + after;
    var b := |before|;
    assert forall k :: 0 <= k < b ==> t[k] == before[k];
    assert forall k :: 0 <= k < |s| ==> t[b + k] == s[k];
    assert forall k :: 0 <= k < |after| ==> t[b + |s| + k] == after[k];
    assert !IsSpace(t[b + 0]) && !IsSpace(t[b + (|s| - 1)]);
    var from := Skip(t, 0, true);
    assert from == b;
    var end := SkipBack(t, from, |t|);
    assert forall k :: b + |s| <= k < |t| ==> t[k] == after[k - b - |s|];
    assert end == b + |s|;
    assert t[b..b + |s|] == s;
  }

  lemma TrimOfWord(s: string)
    requires IsWord(s)
    ensures Trim(s) == s
  {
    TrimOfPadded("", s, "");
    assert "" + s + "" == s;
  }

  /** Splitting at white space recovers words that were printed with one space in front of each. */
  lemma {:induction false} WordsOfSpaced(s: string, i: nat, words: seq<string>, after: string)
    requires i <= |s| && s[i..] == Spaced(words) + after && AllSpace(after)
    requires AllWords(words)
    ensures Words(s, i) == words
    decreases |words|
  {
    hide *;
    if words == [] {
      NothingButSpace(s, i, words, after);
    } else {
      WordsBehindFirst(words);
      FirstWord(s, i, words, after);
      WordsOfSpaced(s, i + 1 + |words[0]|, words[1..], after);
      HeadAndTail(words);
    }
  }

  lemma NothingButSpace(s: string, i: nat, words: seq<string>, after: string)
    requires i <= |s| && words == [] && s[i..] == Spaced(words) + after && AllSpace(after)
    ensures Words(s, i) == words
  {
    hide IsSpace;
    assert forall k :: i <= k < |s| ==> s[k] == s[i..][k - i] == after[k - i];
    assert Skip(s, i, true) == |s|;
  }

  lemma WordsBehindFirst(words: seq<string>)
    requires AllWords(words) && words != []
    ensures IsWord(words[0]) && AllWords(words[1..])
  {
  }

  lemma FirstWord(s: string, i: nat, words: seq<string>, after: string)
    requires i <= |s| && s[i..] == Spaced(words) + after && AllSpace(after) && words != [] && IsWord(words[0])
    ensures var end := i + 1 + |words[0]|;
      end <= |s| && s[end..] == Spaced(words[1..]) + after && Words(s, i) == [words[0]] + Words(s, end)
  {
    hide *;
    SpacedStartsWithSpace(words[1..], after);
    SpacedSplit(words, after);
    WordAt(s, i, words[0], Spaced(words[1..]) + after);
  }

  lemma SpacedSplit(words: seq<string>, after: string)
    requires words != []
    ensures Spaced(words) + after == " " + (words[0] + (Spaced(words[1..]) + after))
  {
  }

  lemma SpacedStartsWithSpace(words: seq<string>, after: string)
    requires AllSpace(after)
    ensures var t := Spaced(words) + after; t == "" || IsSpace(t[0])
  {
  }

  lemma SpaceIsSpace()
    ensures IsSpace(' ')
  {
  }

  lemma WordAt(s: string, i: nat, w: string, rest: string)
    requires i <= |s| && s[i..] == " " + (w + rest) && IsWord(w) && (rest == "" || IsSpace(rest[0]))
    ensures i + 1 + |w| <= |s| && s[i + 1 + |w|..] == rest && Words(s, i) == [w] + Words(s, i + 1 + |w|)
  {
    SpaceIsSpace();
    hide Words, IsSpace, Skip;
    SplitSuffix(s, i, " ", w + rest);
    SplitSuffix(s, i + 1, w, rest);
    var end := i + 1 + |w|;
    assert (w + rest)[0] == w[0];
    assert s[i] == ' ';
    assert s[i + 1] == w[0];
    SkipsTo(s, i, i + 1, true);
    SkipsTo(s, i + 1, end, false);
    assert s[i + 1..end] == w;
    WordsUnfold(s, i, i + 1, end);
  }

  lemma SkipsTo(s: string, i: nat, n: nat, space: bool)
    requires i <= n <= |s| && (n < |s| ==> IsSpace(s[n]) != space)
    requires forall k :: i <= k < n ==> IsSpace(s[k]) == space
    ensures Skip(s, i, space) == n
  {
    hide IsSpace;
    var m := Skip(s, i, space);
    assert !(m < n) && !(n < m);
  }

  lemma WordsUnfold(s: string, i: nat, from: nat, end: nat)
    requires i <= |s| && from == Skip(s, i, true) && from < |s| && end == Skip(s, from, false)
    ensures Words(s, i) == [s[from..end]] + Words(s, end)
  {
    hide IsSpace, Skip;
  }
}
