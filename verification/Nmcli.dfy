/** Splitting a line of `nmcli -t` output (src/engine/ghost_mac.rs, lines 138-154): fields are separated by colons,
    and a backslash stands in front of a colon or a backslash that belongs to a field. */
module Nmcli {
  import opened Common

  // ---------------------------------------------------------------------------
  // What nmcli prints
  // ---------------------------------------------------------------------------

  function EscapedChar(c: char): string {
    if c == ':' || c == '\\' then ['\\', c] else [c]
  }

  function Escaped(field: string): string {
    if field == "" then "" else EscapedChar(field[0]) + Escaped(field[1..])
  }

  function Line(fields: seq<string>): string
    requires fields != []
  {
    if |fields| == 1 then Escaped(fields[0]) else Escaped(fields[0]) + ":" + Line(fields[1..])
  }

  /** From `i` on, each backslash has a colon or a backslash behind it. */
  predicate WellEscaped(line: string, i: nat)
    requires i <= |line|
    decreases |line| - i
  {
    if i == |line| then true
    else if line[i] == '\\' then
      i + 1 < |line| && (line[i + 1] == ':' || line[i + 1] == '\\') && WellEscaped(line, i + 2)
    else WellEscaped(line, i + 1)
  }

  /** The colons from `i` on that separate fields. */
  function Separators(line: string, i: nat): nat
    requires i <= |line|
    decreases |line| - i
  {
    if i == |line| then 0
    else if line[i] == '\\' then if i + 1 < |line| then Separators(line, i + 2) else 0
    else if line[i] == ':' then 1 + Separators(line, i + 1)
    else Separators(line, i + 1)
  }

  // ---------------------------------------------------------------------------
  // Splitting
  // ---------------------------------------------------------------------------

  /** Puts `text` in front of the first field. */
  function Glue(text: string, fields: seq<string>): seq<string>
    requires fields != []
  {
    [text + fields[0]] + fields[1..]
  }

  /** The fields of the line from `i` on; a backslash at the end of the line is dropped. */
  function Fields(line: string, i: nat): (r: seq<string>)
    requires i <= |line|
    ensures |r| == Separators(line, i) + 1
    decreases |line| - i
  {
    if i == |line| then [""]
    else if line[i] == '\\' then if i + 1 < |line| then Glue([line[i + 1]], Fields(line, i + 2)) else [""]
    else if line[i] == ':' then [""] + Fields(line, i + 1)
    else Glue([line[i]], Fields(line, i + 1))
  }

  method SplitNameTypeDevice(line: string) returns (r: Option<(string, string, string)>)
    ensures r.None? <==> Separators(line, 0) != 2
    ensures r.Some? ==> [r.value.0, r.value.1, r.value.2] == Fields(line, 0)
  {
    hide Separators, Glue, Fields;
    var fields, cur := [], "";
    var i := 0;
    GlueNothing(Fields(line, 0));
    while i < |line|
      invariant i <= |line|
      invariant fields + Glue(cur, Fields(line, i)) == Fields(line, 0)
    {
      var c := line[i];
      ghost var at := i;
      i := i + 1;
      if c == '\\' {
        if i < |line| {
          EscapeStep(line, at, cur);
          cur := cur + [line[i]];
          i := i + 1;
        } else {
          LastBackslash(line, at);
        }
      } else if c == ':' {
        SeparatorStep(line, at, fields, cur);
        fields := fields + [cur];
        cur := "";
      } else {
        CharacterStep(line, at, cur);
        cur := cur + [c];
      }
    }
    LastField(line, cur);
    fields := fields + [cur];
    if |fields| == 3 {
      return Some((fields[0], fields[1], fields[2]));
    }
    return None;
  }

  lemma GlueNothing(fields: seq<string>)
    requires fields != []
    ensures Glue("", fields) == fields
  {
    assert "" + fields[0] == fields[0];
  }

  lemma GlueTwice(a: string, b: string, fields: seq<string>)
    requires fields != []
    ensures Glue(a, Glue(b, fields)) == Glue(a + b, fields)
  {
    assert a + (b + fields[0]) == a + b + fields[0];
  }

  lemma EscapeStep(line: string, i: nat, cur: string)
    requires i + 1 < |line| && line[i] == '\\'
    ensures Glue(cur, Fields(line, i)) == Glue(cur + [line[i + 1]], Fields(line, i + 2))
  {
    hide Glue, Separators;
    GlueTwice(cur, [line[i + 1]], Fields(line, i + 2));
  }

  lemma LastBackslash(line: string, i: nat)
    requires i + 1 == |line| && line[i] == '\\'
    ensures Fields(line, i) == Fields(line, i + 1)
  {
  }

  lemma SeparatorStep(line: string, i: nat, fields: seq<string>, cur: string)
    requires i < |line| && line[i] == ':'
    ensures fields + Glue(cur, Fields(line, i)) == (fields + [cur]) + Glue("", Fields(line, i + 1))
  {
    GlueNothing(Fields(line, i + 1));
    assert cur + "" == cur;
    assert Glue(cur, [""] + Fields(line, i + 1)) == [cur] + Fields(line, i + 1);
  }

  lemma CharacterStep(line: string, i: nat, cur: string)
    requires i < |line| && line[i] != '\\' && line[i] != ':'
    ensures Glue(cur, Fields(line, i)) == Glue(cur + [line[i]], Fields(line, i + 1))
  {
    hide Glue, Separators;
    GlueTwice(cur, [line[i]], Fields(line, i + 1));
  }

  lemma AtSeparator(line: string, i: nat, rest: string)
    requires i <= |line| && line[i..] == ":" + rest
    ensures i < |line| && line[i] == ':' && line[i + 1..] == rest
  {
    SplitSuffix(line, i, ":", rest);
    assert line[i + 0] == ':';
  }

  lemma FieldAtSeparator(line: string, i: nat, cur: string)
    requires i < |line| && line[i] == ':'
    ensures Glue(cur, Fields(line, i)) == [cur] + Fields(line, i + 1)
  {
    assert cur + "" == cur;
  }

  lemma LastField(line: string, cur: string)
    ensures Glue(cur, Fields(line, |line|)) == [cur]
  {
    assert cur + "" == cur;
  }

  // ---------------------------------------------------------------------------
  // Splitting undoes printing
  // ---------------------------------------------------------------------------

  lemma EscapedStep(field: string, rest: string)
    requires field != ""
    ensures Escaped(field) == EscapedChar(field[0]) + Escaped(field[1..])
    ensures Escaped(field) + rest == EscapedChar(field[0]) + (Escaped(field[1..]) + rest)
  {
    hide EscapedChar;
    Associates(EscapedChar(field[0]), Escaped(field[1..]), rest);
  }

  lemma OneCharacter(line: string, i: nat, c: char, rest: string)
    requires i <= |line| && line[i..] == EscapedChar(c) + rest
    ensures i + |EscapedChar(c)| <= |line| && line[i + |EscapedChar(c)|..] == rest
    ensures Fields(line, i) == Glue([c], Fields(line, i + |EscapedChar(c)|))
  {
    hide Glue, Separators;
    SplitSuffix(line, i, EscapedChar(c), rest);
    assert line[i + 0] == EscapedChar(c)[0];
    if c == ':' || c == '\\' {
      assert line[i + 1] == EscapedChar(c)[1];
    }
  }

  /** One escaped field, read from the front. */
  lemma {:induction false} FieldsOfEscaped(line: string, i: nat, field: string, rest: string)
    requires i <= |line| && line[i..] == Escaped(field) + rest
    ensures i + |Escaped(field)| <= |line| && line[i + |Escaped(field)|..] == rest
    ensures Fields(line, i) == Glue(field, Fields(line, i + |Escaped(field)|))
    decreases |field|
  {
    hide *;
    if field == "" {
      NoField(line, i, field, rest);
    } else {
      EscapedStep(field, rest);
      var n := i + |EscapedChar(field[0])|;
      OneCharacter(line, i, field[0], Escaped(field[1..]) + rest);
      FieldsOfEscaped(line, n, field[1..], rest);
      GlueTwice([field[0]], field[1..], Fields(line, i + |Escaped(field)|));
      HeadAndTail(field);
    }
  }

  lemma NoField(line: string, i: nat, field: string, rest: string)
    requires i <= |line| && field == "" && line[i..] == Escaped(field) + rest
    ensures |Escaped(field)| == 0 && line[i..] == rest && Fields(line, i) == Glue(field, Fields(line, i))
  {
    hide Fields;
    GlueNothing(Fields(line, i));
  }

  lemma LineStep(fields: seq<string>)
    requires fields != []
    ensures Line(fields) == Escaped(fields[0]) + if |fields| == 1 then "" else ":" + Line(fields[1..])
  {
    hide Escaped;
    if |fields| > 1 {
      Associates(Escaped(fields[0]), ":", Line(fields[1..]));
    } else {
      assert Escaped(fields[0]) + "" == Escaped(fields[0]);
    }
  }

  lemma {:induction false} FieldsOfLine(line: string, i: nat, fields: seq<string>)
    requires i <= |line| && fields != [] && line[i..] == Line(fields)
    ensures Fields(line, i) == fields
    decreases |fields|
  {
    hide *;
    LineStep(fields);
    if |fields| == 1 {
      FieldsOfEscaped(line, i, fields[0], "");
      LastField(line, fields[0]);
    } else {
      FieldsOfEscaped(line, i, fields[0], ":" + Line(fields[1..]));
      var n := i + |Escaped(fields[0])|;
      AtSeparator(line, n, Line(fields[1..]));
      FieldsOfLine(line, n + 1, fields[1..]);
      FieldAtSeparator(line, n, fields[0]);
    }
    HeadAndTail(fields);
  }

  /** Splitting a printed line gives back the fields, whatever colons and backslashes they hold. */
  lemma SplitOfPrinted(fields: seq<string>)
    requires fields != []
    ensures Fields(Line(fields), 0) == fields && Separators(Line(fields), 0) == |fields| - 1
  {
    hide Line, Fields;
    assert Line(fields)[0..] == Line(fields);
    FieldsOfLine(Line(fields), 0, fields);
  }

  // ---------------------------------------------------------------------------
  // Printing undoes splitting
  // ---------------------------------------------------------------------------

  lemma LineOfGlued(c: char, fields: seq<string>)
    requires fields != []
    ensures Line(Glue([c], fields)) == EscapedChar(c) + Line(fields)
  {
    var g := Glue([c], fields);
    assert g[0] == [c] + fields[0] && g[0][0] == c && g[0][1..] == fields[0];
    EscapedStep(g[0], "");
    hide Escaped, EscapedChar;
    assert g[1..] == fields[1..];
  }

  lemma LineOfSeparator(fields: seq<string>)
    requires fields != []
    ensures Line([""] + fields) == ":" + Line(fields)
  {
    assert ([""] + fields)[1..] == fields;
  }

  /** A line in which every backslash escapes something that needs it is the printed form of its fields. */
  lemma {:induction false} PrintedOfSplit(line: string, i: nat)
    requires i <= |line| && WellEscaped(line, i)
    ensures Line(Fields(line, i)) == line[i..]
    decreases |line| - i
  {
    hide Line, Glue, Separators;
    if i == |line| {
      EmptyLine();
    } else if line[i] == '\\' {
      PrintedOfSplit(line, i + 2);
      LineOfGlued(line[i + 1], Fields(line, i + 2));
    } else {
      PrintedOfSplit(line, i + 1);
      if line[i] == ':' {
        LineOfSeparator(Fields(line, i + 1));
      } else {
        LineOfGlued(line[i], Fields(line, i + 1));
      }
    }
  }

  lemma EmptyLine()
    ensures Line([""]) == ""
  {
  }

  lemma {:induction false} FieldIsWellEscaped(line: string, i: nat, field: string, rest: string)
    requires i <= |line| && line[i..] == Escaped(field) + rest
    ensures i + |Escaped(field)| <= |line| && line[i + |Escaped(field)|..] == rest
    ensures WellEscaped(line, i + |Escaped(field)|) ==> WellEscaped(line, i)
    decreases |field|
  {
    hide *;
    if field == "" {
      NoField(line, i, field, rest);
    } else {
      EscapedStep(field, rest);
      OneCharacterIsWellEscaped(line, i, field[0], Escaped(field[1..]) + rest);
      FieldIsWellEscaped(line, i + |EscapedChar(field[0])|, field[1..], rest);
    }
  }

  lemma OneCharacterIsWellEscaped(line: string, i: nat, c: char, rest: string)
    requires i <= |line| && line[i..] == EscapedChar(c) + rest
    ensures i + |EscapedChar(c)| <= |line| && line[i + |EscapedChar(c)|..] == rest
    ensures WellEscaped(line, i + |EscapedChar(c)|) ==> WellEscaped(line, i)
  {
    SplitSuffix(line, i, EscapedChar(c), rest);
    assert line[i + 0] == EscapedChar(c)[0];
    if c == ':' || c == '\\' {
      assert line[i + 1] == EscapedChar(c)[1];
    }
  }

  lemma {:induction false} LineIsWellEscaped(line: string, i: nat, fields: seq<string>)
    requires i <= |line| && fields != [] && line[i..] == Line(fields)
    ensures WellEscaped(line, i)
    decreases |fields|
  {
    hide Escaped, Line;
    LineStep(fields);
    if |fields| == 1 {
      FieldIsWellEscaped(line, i, fields[0], "");
    } else {
      FieldIsWellEscaped(line, i, fields[0], ":" + Line(fields[1..]));
      var n := i + |Escaped(fields[0])|;
      AtSeparator(line, n, Line(fields[1..]));
      LineIsWellEscaped(line, n + 1, fields[1..]);
    }
  }

  /** Printing the fields of a line gives the line back exactly when every backslash in it escapes a colon or a
      backslash. */
  lemma PrintingUndoesSplittingIff(line: string)
    ensures Line(Fields(line, 0)) == line <==> WellEscaped(line, 0)
  {
    hide Line, Fields, WellEscaped;
    assert line[0..] == line;
    if WellEscaped(line, 0) {
      PrintedOfSplit(line, 0);
    } else if Line(Fields(line, 0)) == line {
      LineIsWellEscaped(line, 0, Fields(line, 0));
    }
  }
}
