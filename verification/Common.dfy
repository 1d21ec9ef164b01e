/** Types shared by the models of the engine's components. */
module Common {

  datatype Option<+T> = None | Some(value: T)

  datatype Result<+T, +E> = Success(value: T) | Failure(error: E)

  /** One octet of a file or of a message. */
  type byte = b: int | 0 <= b < 256

  /** The elements of a sequence, without order or multiplicity. */
  function Elements<T>(s: seq<T>): set<T> {
    set x | x in s
  }

  /** What stands at position `i` when the rest of `data` is `a + b`. */
  lemma SplitSuffix<T>(data: seq<T>, i: nat, a: seq<T>, b: seq<T>)
    requires i <= |data| && data[i..] == a + b
    ensures i + |a| <= |data| && data[i..i + |a|] == a && data[i + |a|..] == b
    ensures forall k :: 0 <= k < |a| ==> a[k] == data[i + k]
  {
    assert forall k :: 0 <= k < |a| ==> data[i..][k] == (a + b)[k];
    assert data[i + |a|..] == data[i..][|a|..];
  }

  /** Two equal sequences with ends of equal length have equal ends and equal beginnings. */
  lemma SplitEnd<T>(x: seq<T>, p: seq<T>, y: seq<T>, q: seq<T>)
    requires x + p == y + q && |p| == |q|
    ensures x == y && p == q
  {
    assert x == (x + p)[..|x|] && p == (x + p)[|x|..];
    assert y == (y + q)[..|y|] && q == (y + q)[|y|..];
  }

  lemma HeadAndTail<T>(s: seq<T>)
    requires s != []
    ensures [s[0]] + s[1..] == s
  {
  }

  lemma Associates<T>(a: seq<T>, b: seq<T>, c: seq<T>)
    ensures a + b + c == a + (b + c)
  {
  }

  /** The position of the first `c` in `s` from `i` on, or the length of `s`. */
  function IndexFrom(s: string, c: char, i: nat): (n: nat)
    requires i <= |s|
    ensures i <= n <= |s| && (forall k :: i <= k < n ==> s[k] != c) && (n < |s| ==> s[n] == c)
    decreases |s| - i
  {
    if i < |s| && s[i] != c then IndexFrom(s, c, i + 1) else i
  }

  /** The position behind the last `c` before `i`, or 0. */
  function BehindLast(s: string, c: char, i: nat): (n: nat)
    requires i <= |s|
    ensures n <= i && (forall k :: n <= k < i ==> s[k] != c) && (n > 0 ==> s[n - 1] == c)
  {
    if i > 0 && s[i - 1] != c then BehindLast(s, c, i - 1) else i
  }

  lemma BehindLastIs(s: string, c: char, i: nat, n: nat)
    requires 0 < n <= i <= |s| && s[n - 1] == c && forall k :: n <= k < i ==> s[k] != c
    ensures BehindLast(s, c, i) == n
  {
    var m := BehindLast(s, c, i);
    assert m >= n;
    assert forall k :: n <= k < i ==> s[k] != c;
  }
}
