/**
 The tripwire's canary (src/engine/tripwire.rs, lines 24-57 and 155-168): a token file, a file with the token's SHA-256
 digest, and a marker that says that the pair was set up once.
 */
module Tripwire {
  import opened Common
  import Decimal
  import Sha256
  import Text

  datatype Seal = Intact | Mismatch | Missing

  /** `readable`: a regular file of the user's own, not a link. */
  datatype TokenFile = TokenFile(content: seq<byte>, readable: bool)

  /** `text` is the content as text, `size` its length in bytes. */
  datatype HashFile = HashFile(text: string, size: nat, readable: bool)

  datatype State = State(token: Option<TokenFile>, hash: Option<HashFile>, armed: bool)

  /** Which of the three writes succeed; a write that fails leaves the file as it was. */
  datatype Writes = Writes(token: bool, hash: bool, armed: bool)

  const TOKEN_LIMIT := 4096
  const HASH_LIMIT := 128

  /** The bytes of a text; the engine's texts are ASCII, where a character's code is its byte. */
  function Bytes(s: string): (r: seq<byte>)
    ensures |r| == |s|
  {
    seq(|s|, i requires 0 <= i < |s| => s[i] as int % 256)
  }

  const INIT_TOKEN := "OMARCHY_SECURITY_SENTINEL_TRIPWIRE_TOKEN_V2_INIT\n"
  const TOKEN_PREFIX := "OMARCHY_SECURITY_SENTINEL_TRIPWIRE_TOKEN_GEN_"

  function GeneratedToken(time: nat): seq<byte> {
    var digits := Decimal.Print(time);
    Bytes(TOKEN_PREFIX) + Bytes(digits) + Bytes("\n")
  }

  function TokenWith(content: seq<byte>): TokenFile {
    TokenFile(content, true)
  }

  function HashOf(content: seq<byte>): HashFile {
    var text := Sha256.Sha256Text(content);
    HashFile(text, |text|, true)
  }

  // ---------------------------------------------------------------------------
  // What the operations do
  // ---------------------------------------------------------------------------

  function Write<T>(ok: bool, file: T, old_: T): T {
    if ok then file else old_
  }

  /** The state behind a scan: a marked pair is never touched. */
  function AfterScan(s: State, w: Writes): State {
    if s.armed then s
    else
      var t := Bytes(INIT_TOKEN);
      var create := s.token.None? || s.hash.None?;
      State(
        Write(create && w.token, Some(TokenWith(t)), s.token),
        Write(create && w.hash, Some(HashOf(t)), s.hash),
        w.armed)
  }

  function ExpectedHash(s: State): string {
    if s.hash.Some? && s.hash.value.readable && s.hash.value.size <= HASH_LIMIT
    then Text.Trim(s.hash.value.text) else ""
  }

  /** The token can be read, and its digest is what the hash file says. */
  predicate Matches(s: State) {
    && s.token.Some? && s.token.value.readable && |s.token.value.content| <= TOKEN_LIMIT
    && s.hash.Some? && s.hash.value.readable && s.hash.value.size <= HASH_LIMIT
    && Text.Trim(s.hash.value.text) == Sha256.Sha256Text(s.token.value.content)
  }

  predicate IsMissing(s: State) {
    s.armed && (s.token.None? || s.hash.None?)
  }

  /** What a scan says. */
  function Verdict(s: State, w: Writes): Seal {
    if IsMissing(s) then Missing else if Matches(AfterScan(s, w)) then Intact else Mismatch
  }

  function AfterReset(s: State, time: nat, w: Writes): State {
    var t := GeneratedToken(time);
    State(Write(w.token, Some(TokenWith(t)), s.token), Write(w.hash, Some(HashOf(t)), s.hash), s.armed || w.armed)
  }

  class Canary {
    var token: Option<TokenFile>
    var hash: Option<HashFile>
    var armed: bool

    function Now(): State
      reads this
    {
      State(token, hash, armed)
    }

    constructor (s: State)
      ensures Now() == s
    {
      token, hash, armed := s.token, s.hash, s.armed;
    }

    method PrimarySeal(w: Writes) returns (seal: Seal, expected: string)
      modifies this
      ensures Now() == AfterScan(old(Now()), w)
      ensures seal == Verdict(old(Now()), w)
      ensures expected == if IsMissing(old(Now())) then "" else ExpectedHash(Now())
    {
      hide Sha256.Sha256Text, Text.Trim, Bytes;
      var tokenExists := token.Some?;
      var hashExists := hash.Some?;
      if !armed {
        if !tokenExists || !hashExists {
          var data := Bytes(INIT_TOKEN);
          if w.token {
            token := Some(TokenWith(data));
          }
          if w.hash {
            hash := Some(HashOf(data));
          }
        }
        armed := w.armed;
      } else if !tokenExists || !hashExists {
        return Missing, "";
      }
      expected := ExpectedHash(Now());
      var current := "";
      if token.Some? && token.value.readable && |token.value.content| <= TOKEN_LIMIT {
        current := Sha256.Sha256Hex(token.value.content);
        DigestIsWord(token.value.content);
      }
      seal := if expected != "" && expected == current then Intact else Mismatch;
    }

    method Reset(time: nat, w: Writes)
      modifies this
      ensures Now() == AfterReset(old(Now()), time, w)
    {
      hide Sha256.Sha256Text, Bytes, GeneratedToken;
      var data := GeneratedToken(time);
      if w.token {
        token := Some(TokenWith(data));
      }
      if w.hash {
        hash := Some(HashOf(data));
      }
      if w.armed {
        armed := true;
      }
    }
  }

  lemma DigestIsWord(content: seq<byte>)
    ensures Text.IsWord(Sha256.Sha256Text(content))
    ensures Text.Trim(Sha256.Sha256Text(content)) == Sha256.Sha256Text(content)
    ensures |Sha256.Sha256Text(content)| == 64
  {
    hide Sha256.Sha256Text, Text.Trim;
    Sha256.DigestText(content);
    Text.TrimOfWord(Sha256.Sha256Text(content));
  }

  /** A pair that the engine wrote matches. */
  lemma WrittenPairMatches(content: seq<byte>, armed: bool)
    requires |content| <= TOKEN_LIMIT
    ensures Matches(State(Some(TokenWith(content)), Some(HashOf(content)), armed))
  {
    hide Sha256.Sha256Text, Text.Trim;
    DigestIsWord(content);
  }

  // ---------------------------------------------------------------------------
  // Runs
  // ---------------------------------------------------------------------------

  /** `Outside`: another program leaves these two files behind; the marker stays as it is. */
  datatype Event =
    | Scan(writes: Writes)
    | Reset(time: nat, writes: Writes)
    | Outside(token: Option<TokenFile>, hash: Option<HashFile>)

  function After(s: State, e: Event): State {
    match e
    case Scan(w) => AfterScan(s, w)
    case Reset(time, w) => AfterReset(s, time, w)
    case Outside(token, hash) => s.(token := token, hash := hash)
  }

  ghost predicate IsRun(states: seq<State>, events: seq<Event>) {
    && |states| == |events| + 1
    && forall k {:trigger events[k]} :: 0 <= k < |events| ==> states[k + 1] == After(states[k], events[k])
  }

  /** Once set up, the pair stays marked, and scans write neither file: whatever changed, somebody else or a reset did
      it. */
  lemma {:induction false} OnlyOthersWrite(states: seq<State>, events: seq<Event>, j: nat, k: nat)
    requires IsRun(states, events) && j <= k <= |events| && states[j].armed
    ensures states[k].armed
    ensures (forall i :: j <= i < k ==> events[i].Scan?) ==> states[k] == states[j]
    decreases k
  {
    hide Bytes, HashOf, GeneratedToken;
    if j < k {
      OnlyOthersWrite(states, events, j, k - 1);
      assert states[k] == After(states[k - 1], events[k - 1]);
    }
  }

  /** A deleted token is reported missing by every scan until a reset or another program puts one back. */
  lemma {:induction false} DeletedTokenStaysMissing(states: seq<State>, events: seq<Event>, j: nat, k: nat)
    requires IsRun(states, events) && j <= k < |events| && states[j].armed && states[j].token.None?
    requires forall i :: j <= i < k ==> !events[i].Reset? && (events[i].Outside? ==> events[i].token.None?)
    requires events[k].Scan?
    ensures Verdict(states[k], events[k].writes) == Missing
  {
    TokenStaysAway(states, events, j, k);
  }

  lemma {:induction false} TokenStaysAway(states: seq<State>, events: seq<Event>, j: nat, k: nat)
    requires IsRun(states, events) && j <= k <= |events| && states[j].armed && states[j].token.None?
    requires forall i :: j <= i < k ==> !events[i].Reset? && (events[i].Outside? ==> events[i].token.None?)
    ensures states[k].armed && states[k].token.None?
    decreases k
  {
    if j < k {
      TokenStaysAway(states, events, j, k - 1);
      assert states[k] == After(states[k - 1], events[k - 1]);
    }
  }

  lemma {:induction false} HashStaysAway(states: seq<State>, events: seq<Event>, j: nat, k: nat)
    requires IsRun(states, events) && j <= k <= |events| && states[j].armed && states[j].hash.None?
    requires forall i :: j <= i < k ==> !events[i].Reset? && (events[i].Outside? ==> events[i].hash.None?)
    ensures states[k].armed && states[k].hash.None?
    decreases k
  {
    if j < k {
      HashStaysAway(states, events, j, k - 1);
      assert states[k] == After(states[k - 1], events[k - 1]);
    }
  }

  /** So is a deleted hash file. */
  lemma DeletedHashStaysMissing(states: seq<State>, events: seq<Event>, j: nat, k: nat)
    requires IsRun(states, events) && j <= k < |events| && states[j].armed && states[j].hash.None?
    requires forall i :: j <= i < k ==> !events[i].Reset? && (events[i].Outside? ==> events[i].hash.None?)
    requires events[k].Scan?
    ensures Verdict(states[k], events[k].writes) == Missing
  {
    HashStaysAway(states, events, j, k);
  }

  /** The state in which a scan or a reset has just written the pair for `content`, and marked it. */
  predicate SetUpWith(s: State, content: seq<byte>) {
    s == State(Some(TokenWith(content)), Some(HashOf(content)), true)
  }

  /** What the canary detects. After the pair was written for `content`, and while the hash file is left alone, a scan
      says that the token is intact exactly when there is a readable token whose digest is the one of `content`; it
      says that the token is missing exactly when there is none. */
  lemma ScanTellsTampering(states: seq<State>, events: seq<Event>, j: nat, k: nat, content: seq<byte>)
    requires IsRun(states, events) && j <= k < |events| && SetUpWith(states[j], content)
    requires forall i :: j <= i < k ==>
               !events[i].Reset? && (events[i].Outside? ==> events[i].hash == Some(HashOf(content)))
    requires events[k].Scan?
    ensures var (verdict, token) := (Verdict(states[k], events[k].writes), LeftBehind(events, j, k, content));
      && (verdict == Intact <==>
            && token.Some? && token.value.readable && |token.value.content| <= 4096
            && Sha256.Sha256Text(token.value.content) == Sha256.Sha256Text(content))
      && (verdict == Missing <==> token.None?)
  {
    hide Sha256.Sha256Text, Text.Trim;
    HashStays(states, events, j, k, content);
    TokenIsLeftBehind(states, events, j, k, content);
    DigestIsWord(content);
  }

  /** The token file as the last other program to touch it before `k` left it, or as it was set up before `j`. */
  function LeftBehind(events: seq<Event>, j: nat, k: nat, content: seq<byte>): Option<TokenFile>
    requires j <= k <= |events|
    decreases k
  {
    if j == k then Some(TokenFile(content, true))
    else if events[k - 1].Outside? then events[k - 1].token
    else LeftBehind(events, j, k - 1, content)
  }

  lemma {:induction false} TokenIsLeftBehind(
    states: seq<State>, events: seq<Event>, j: nat, k: nat, content: seq<byte>)
    requires IsRun(states, events) && j <= k <= |events| && SetUpWith(states[j], content)
    requires forall i :: j <= i < k ==>
               !events[i].Reset? && (events[i].Outside? ==> events[i].hash == Some(HashOf(content)))
    ensures states[k].token == LeftBehind(events, j, k, content)
    decreases k
  {
    hide HashOf;
    if j < k {
      HashStays(states, events, j, k - 1, content);
      TokenIsLeftBehind(states, events, j, k - 1, content);
      assert states[k] == After(states[k - 1], events[k - 1]);
    }
  }

  lemma {:induction false} HashStays(states: seq<State>, events: seq<Event>, j: nat, k: nat, content: seq<byte>)
    requires IsRun(states, events) && j <= k <= |events| && SetUpWith(states[j], content)
    requires forall i :: j <= i < k ==>
               !events[i].Reset? && (events[i].Outside? ==> events[i].hash == Some(HashOf(content)))
    ensures states[k].armed && states[k].hash == Some(HashOf(content))
    decreases k
  {
    hide HashOf;
    if j < k {
      HashStays(states, events, j, k - 1, content);
      assert states[k] == After(states[k - 1], events[k - 1]);
    }
  }

  /** The first scan sets the pair up if one of the files does not exist, and finds it intact. */
  lemma FirstScanSetsUp(s: State)
    requires !s.armed && (s.token.None? || s.hash.None?)
    ensures SetUpWith(AfterScan(s, Writes(true, true, true)),
                      Bytes("OMARCHY_SECURITY_SENTINEL_TRIPWIRE_TOKEN_V2_INIT\n"))
    ensures Verdict(s, Writes(true, true, true)) == Intact
  {
    hide Sha256.Sha256Text, Text.Trim, Bytes;
    assert |INIT_TOKEN| <= TOKEN_LIMIT;
    WrittenPairMatches(Bytes(INIT_TOKEN), true);
  }

  /** An upgrade from a version without the marker keeps an existing pair. */
  lemma UpgradeKeepsThePair(s: State, w: Writes)
    requires !s.armed && s.token.Some? && s.hash.Some?
    ensures AfterScan(s, w) == s.(armed := w.armed)
    ensures Verdict(s, w) == Intact <==>
              && s.token.value.readable && |s.token.value.content| <= 4096
              && s.hash.value.readable && s.hash.value.size <= 128
              && Text.Trim(s.hash.value.text) == Sha256.Sha256Text(s.token.value.content)
  {
    hide Sha256.Sha256Text, Text.Trim;
  }

  /** A reset sets up a new pair whatever there was, and the next scan finds it intact. */
  lemma ResetSetsUp(s: State, time: nat, w: Writes)
    requires time < Decimal.U64_LIMIT
    ensures SetUpWith(AfterReset(s, time, Writes(true, true, true)),
                      Bytes("OMARCHY_SECURITY_SENTINEL_TRIPWIRE_TOKEN_GEN_") + Bytes(Decimal.Print(time)) + Bytes("\n"))
    ensures Verdict(AfterReset(s, time, Writes(true, true, true)), w) == Intact
  {
    hide Sha256.Sha256Text, Text.Trim, Bytes, Decimal.Print;
    assert PowerOf10(4) == 10_000;
    assert PowerOf10(8) == 100_000_000;
    assert PowerOf10(12) == 1_000_000_000_000;
    assert PowerOf10(16) == 10_000_000_000_000_000;
    assert PowerOf10(20) == 100_000_000_000_000_000_000;
    PrintLength(time, 20);
    assert |TOKEN_PREFIX| <= 100;
    WrittenPairMatches(GeneratedToken(time), true);
  }

  function PowerOf10(k: nat): nat {
    if k == 0 then 1 else 10 * PowerOf10(k - 1)
  }

  lemma {:induction false} PrintLength(n: nat, k: nat)
    requires k > 0 && n < PowerOf10(k)
    ensures |Decimal.Print(n)| <= k
  {
    if n >= 10 {
      assert PowerOf10(1) == 10;
      PrintLength(n / 10, k - 1);
    }
  }
}
