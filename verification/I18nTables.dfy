/** The translator from traditional to simplified text: phrases first, then single characters. */
module I18nTables {
  import opened Text

  datatype Phrase = Phrase(traditional: string, simplified: string)

  /** The phrases in the order in which they are applied, and the character table. */
  datatype Tables = Tables(phrases: seq<Phrase>, chars: map<char, char>)

  predicate Occurs(part: string, text: string) {
    part <= text || (text != "" && Occurs(part, text[1..]))
  }

  /** Every occurrence replaced, from the left and without overlap: `split` and `join`. */
  function ReplaceAll(text: string, part: string, repl: string): string
    requires part != ""
  {
    if text == "" then ""
    else if part <= text then repl + ReplaceAll(text[|part|..], part, repl)
    else [text[0]] + ReplaceAll(text[1..], part, repl)
  }

  function Char(tables: Tables, c: char): char {
    if c in tables.chars then tables.chars[c] else c
  }

  predicate WellFormed(tables: Tables) {
    forall k :: 0 <= k < |tables.phrases| ==> tables.phrases[k].traditional != ""
  }

  function PhrasesApplied(tables: Tables, n: nat, text: string): string
    requires WellFormed(tables) && n <= |tables.phrases|
  {
    if n == 0 then text
    else ReplaceAll(PhrasesApplied(tables, n - 1, text), tables.phrases[n - 1].traditional,
        tables.phrases[n - 1].simplified)
  }

  function Simplified(tables: Tables, text: string): (r: string)
    requires WellFormed(tables)
  {
    var out := PhrasesApplied(tables, |tables.phrases|, text);
    seq(|out|, k requires 0 <= k < |out| => Char(tables, out[k]))
  }

  /** Skipping a phrase that does not occur is only a shortcut. */
  lemma {:induction false} AbsentIsNoReplacement(text: string, part: string, repl: string)
    requires part != "" && !Occurs(part, text)
    ensures ReplaceAll(text, part, repl) == text
  {
    if text != "" {
      AbsentIsNoReplacement(text[1..], part, repl);
    }
  }

  /** The part occurs at some place of the text. */
  lemma {:induction false} OccursIff(part: string, text: string)
    ensures Occurs(part, text) <==> exists i | 0 <= i <= |text| :: part <= text[i..]
  {
    assert text[0..] == text;
    if text != "" {
      OccursIff(part, text[1..]);
      assert forall i :: 0 < i <= |text| ==> text[i..] == text[1..][i - 1..];
    }
  }

  /** The pieces with a text between them. */
  function JoinedBy(pieces: seq<string>, glue: string): string
    requires pieces != []
  {
    if |pieces| == 1 then pieces[0] else pieces[0] + glue + JoinedBy(pieces[1..], glue)
  }

  /** The pieces that a text is split into at a part: each ends where the part occurs first, and it does not occur in
      the last one. */
  predicate IsSplit(text: string, part: string, pieces: seq<string>)
    requires part != ""
  {
    pieces != [] && JoinedBy(pieces, part) == text
    && (forall k :: 0 <= k < |pieces| - 1 ==> !Occurs(part, (pieces[k] + part)[..|pieces[k] + part| - 1]))
    && !Occurs(part, pieces[|pieces| - 1])
  }

  lemma OccursBehind(part: string, c: char, text: string)
    requires part != "" && !Occurs(part, text) && !(part <= [c] + text)
    ensures !Occurs(part, [c] + text)
  {
    assert ([c] + text)[1..] == text;
  }

  /** Replacing is splitting at the part and joining with the replacement. */
  lemma {:induction false} ReplaceAllIsSplitJoin(text: string, part: string, repl: string) returns (pieces: seq<string>)
    requires part != ""
    ensures IsSplit(text, part, pieces) && ReplaceAll(text, part, repl) == JoinedBy(pieces, repl)
    decreases |text|
  {
    if text == "" {
      pieces := [""];
    } else if part <= text {
      var rest := ReplaceAllIsSplitJoin(text[|part|..], part, repl);
      pieces := [""] + rest;
      SplitCons(text, part, repl, rest);
    } else {
      var rest := ReplaceAllIsSplitJoin(text[1..], part, repl);
      pieces := [[text[0]] + rest[0]] + rest[1..];
      SplitPrepend(text, part, repl, rest);
    }
  }

  lemma SplitCons(text: string, part: string, repl: string, rest: seq<string>)
    requires part != "" && part <= text && IsSplit(text[|part|..], part, rest)
    ensures IsSplit(text, part, [""] + rest)
    ensures JoinedBy([""] + rest, repl) == repl + JoinedBy(rest, repl)
  {
    hide Occurs;
    var pieces := [""] + rest;
    assert pieces[1..] == rest;
    assert "" + part == part && "" + repl == repl && part + JoinedBy(rest, part) == text;
    ShorterDoesNotHold(part, part[..|part| - 1]);
    hide JoinedBy;
    forall k | 0 <= k < |pieces| - 1 ensures !Occurs(part, (pieces[k] + part)[..|pieces[k] + part| - 1]) {
      if k > 0 { assert pieces[k] == rest[k - 1]; }
    }
  }

  lemma {:induction false} ShorterDoesNotHold(part: string, text: string)
    requires |text| < |part|
    ensures !Occurs(part, text)
  {
    if text != "" { ShorterDoesNotHold(part, text[1..]); }
  }

  lemma SplitPrepend(text: string, part: string, repl: string, rest: seq<string>)
    requires part != "" && text != "" && !(part <= text) && IsSplit(text[1..], part, rest)
    ensures var pieces := [[text[0]] + rest[0]] + rest[1..];
            IsSplit(text, part, pieces) && JoinedBy(pieces, repl) == [text[0]] + JoinedBy(rest, repl)
  {
    hide Occurs;
    var c, front := text[0], [text[0]] + rest[0];
    var pieces := [front] + rest[1..];
    assert text == [c] + text[1..];
    JoinedPrepend(c, rest, part);
    JoinedPrepend(c, rest, repl);
    FirstPieceHoldsNone(text, part, rest);
    forall k | 0 < k < |pieces| ensures pieces[k] == rest[k] {
    }
    hide JoinedBy;
    forall k | 0 <= k < |pieces| - 1 ensures !Occurs(part, (pieces[k] + part)[..|pieces[k] + part| - 1]) {
      if k > 0 { assert pieces[k] == rest[k]; }
    }
  }

  /** The first piece, one character longer, still ends where the part occurs first. */
  lemma FirstPieceHoldsNone(text: string, part: string, rest: seq<string>)
    requires part != "" && text != "" && !(part <= text) && IsSplit(text[1..], part, rest)
    ensures var first := [text[0]] + rest[0];
            !Occurs(part, if |rest| == 1 then first else (first + part)[..|first + part| - 1])
  {
    hide Occurs;
    var c, first, others := text[0], rest[0], rest[1..];
    assert text == [c] + text[1..];
    if |rest| == 1 {
      OccursBehind(part, c, first);
    } else {
      var front := (first + part)[..|first + part| - 1];
      assert [c] + first + part == [c] + (first + part);
      assert ([c] + first + part)[..|[c] + first + part| - 1] == [c] + front;
      assert JoinedBy(rest, part) == first + part + JoinedBy(others, part);
      assert [c] + front <= text;
      OccursBehind(part, c, front);
    }
  }

  lemma JoinedPrepend(c: char, pieces: seq<string>, glue: string)
    requires pieces != []
    ensures JoinedBy([[c] + pieces[0]] + pieces[1..], glue) == [c] + JoinedBy(pieces, glue)
  {
    if |pieces| > 1 {
      assert ([[c] + pieces[0]] + pieces[1..])[1..] == pieces[1..];
      var others := JoinedBy(pieces[1..], glue);
      assert [c] + pieces[0] + glue + others == [c] + (pieces[0] + glue + others);
    }
  }

  /** Each character of the replaced text becomes what the table has for it, or stays. */
  lemma SimplifiedIs(tables: Tables, text: string, k: nat)
    requires WellFormed(tables)
    ensures |Simplified(tables, text)| == |PhrasesApplied(tables, |tables.phrases|, text)|
    ensures k < |Simplified(tables, text)| ==>
              var c := PhrasesApplied(tables, |tables.phrases|, text)[k];
              && (c in tables.chars ==> Simplified(tables, text)[k] == tables.chars[c])
              && (c !in tables.chars ==> Simplified(tables, text)[k] == c)
  {
    hide PhrasesApplied;
  }

  method ToSimplified(tables: Tables, text: string) returns (res: string)
    requires WellFormed(tables)
    ensures res == Simplified(tables, text)
  {
    var out := text;
    for k := 0 to |tables.phrases|
      invariant out == PhrasesApplied(tables, k, text)
    {
      var phrase := tables.phrases[k];
      if !Occurs(phrase.traditional, out) {
        AbsentIsNoReplacement(out, phrase.traditional, phrase.simplified);
        continue;
      }
      out := ReplaceAll(out, phrase.traditional, phrase.simplified);
    }
    res := "";
    for i := 0 to |out|
      invariant |res| == i && forall j :: 0 <= j < i ==> res[j] == Char(tables, out[j])
    {
      res := res + [Char(tables, out[i])];
    }
  }

  // ---------------------------------------------------------------------------------------
  // What visible text becomes
  // ---------------------------------------------------------------------------------------

  /** No table entry makes something visible blank. */
  predicate KeepsInk(tables: Tables) {
    && WellFormed(tables)
    && (forall k :: 0 <= k < |tables.phrases| ==> !Blank(tables.phrases[k].simplified))
    && (forall c :: c in tables.chars && !IsSpace(c) ==> !IsSpace(tables.chars[c]))
  }

  lemma {:induction false} ReplacedIsVisible(text: string, part: string, repl: string)
    requires part != "" && !Blank(repl) && !Blank(text)
    ensures !Blank(ReplaceAll(text, part, repl))
  {
    if part <= text {
      var rest := ReplaceAll(text[|part|..], part, repl);
      var k :| 0 <= k < |repl| && !IsSpace(repl[k]);
      assert (repl + rest)[k] == repl[k];
    } else {
      var rest := ReplaceAll(text[1..], part, repl);
      if IsSpace(text[0]) {
        var k :| 0 <= k < |text| && !IsSpace(text[k]);
        assert text[1..][k - 1] == text[k];
        ReplacedIsVisible(text[1..], part, repl);
        var j :| 0 <= j < |rest| && !IsSpace(rest[j]);
        assert ([text[0]] + rest)[j + 1] == rest[j];
      } else {
        assert ([text[0]] + rest)[0] == text[0];
      }
    }
  }

  lemma {:induction false} PhrasesStayVisible(tables: Tables, n: nat, text: string)
    requires KeepsInk(tables) && n <= |tables.phrases| && !Blank(text)
    ensures !Blank(PhrasesApplied(tables, n, text))
  {
    if n > 0 {
      PhrasesStayVisible(tables, n - 1, text);
      ReplacedIsVisible(PhrasesApplied(tables, n - 1, text), tables.phrases[n - 1].traditional,
          tables.phrases[n - 1].simplified);
    }
  }

  /** Visible text stays visible. */
  lemma VisibleStaysVisible(tables: Tables, text: string)
    requires KeepsInk(tables) && !Blank(text)
    ensures !Blank(Simplified(tables, text))
  {
    PhrasesStayVisible(tables, |tables.phrases|, text);
    var out := PhrasesApplied(tables, |tables.phrases|, text);
    var k :| 0 <= k < |out| && !IsSpace(out[k]);
    assert Simplified(tables, text)[k] == Char(tables, out[k]);
  }
}
