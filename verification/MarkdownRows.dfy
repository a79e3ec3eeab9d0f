/** The cells of a table row, said of the text of its line. */
module MarkdownRows {
  import opened MarkdownLines
  import opened Text

  // ---------------------------------------------------------------------------------------
  // Pieces and trimming
  // ---------------------------------------------------------------------------------------

  lemma TrimFront(c: char, s: string)
    requires IsSpace(c)
    ensures Trim([c] + s) == Trim(s)
  {
    assert ([c] + s)[1..] == s;
  }

  lemma TrimAllAt(cells: seq<string>, k: nat)
    requires k < |cells|
    ensures TrimAll(cells)[k] == Trim(cells[k])
  {
    hide Trim;
  }

  lemma TrimAllCons(cell: string, cells: seq<string>)
    ensures TrimAll([cell] + cells) == [Trim(cell)] + TrimAll(cells)
  {
    hide Trim;
  }

  lemma TrimAllSnoc(cells: seq<string>, cell: string)
    ensures TrimAll(cells + [cell]) == TrimAll(cells) + [Trim(cell)]
  {
    hide Trim;
  }

  /** A space in front of a text, or behind it, changes no trimmed piece. */
  lemma SpaceInFront(c: char, s: string)
    requires IsSpace(c)
    ensures TrimAll(Split('|', [c] + s)) == TrimAll(Split('|', s))
  {
    hide *;
    var pieces := Split('|', s);
    SpaceIsNoPipe(c);
    SplitCons(c, s);
    TrimFront(c, pieces[0]);
    TrimAllCons(pieces[0], pieces[1..]);
    TrimAllCons([c] + pieces[0], pieces[1..]);
    assert pieces == [pieces[0]] + pieces[1..];
  }

  lemma SplitCons(c: char, s: string)
    requires c != '|'
    ensures var pieces := Split('|', s); Split('|', [c] + s) == [[c] + pieces[0]] + pieces[1..]
  {
    assert ([c] + s)[1..] == s;
  }

  lemma SplitSnoc(s: string, c: char)
    requires c != '|'
    ensures var pieces := Split('|', s); var n := |pieces| - 1;
            Split('|', s + [c]) == pieces[..n] + [pieces[n] + [c]]
  {
    hide Split;
    SplitOfConcat('|', s, [c]);
    UnseparatedIsOnePiece('|', [c]);
  }

  lemma SpaceIsNoPipe(c: char)
    requires IsSpace(c)
    ensures c != '|'
  {
  }

  lemma SpaceBehind(c: char, s: string)
    requires IsSpace(c)
    ensures TrimAll(Split('|', s + [c])) == TrimAll(Split('|', s))
  {
    hide *;
    SpaceIsNoPipe(c);
    var pieces := Split('|', s);
    var n := |pieces| - 1;
    SplitSnoc(s, c);
    TrimAppended(pieces[n], c);
    TrimAllSnoc(pieces[..n], pieces[n]);
    TrimAllSnoc(pieces[..n], pieces[n] + [c]);
    assert pieces == pieces[..n] + [pieces[n]];
  }

  lemma {:induction false} TrimStartKeepsPieces(s: string)
    ensures TrimAll(Split('|', TrimStart(s))) == TrimAll(Split('|', s))
  {
    hide Trim, Split;
    if s != "" && IsSpace(s[0]) {
      TrimStartKeepsPieces(s[1..]);
      SpaceInFront(s[0], s[1..]);
      assert s == [s[0]] + s[1..];
    }
  }

  lemma {:induction false} TrimEndKeepsPieces(s: string)
    ensures TrimAll(Split('|', TrimEnd(s))) == TrimAll(Split('|', s))
  {
    hide Trim, Split;
    var n := |s| - 1;
    if s != "" && IsSpace(s[n]) {
      TrimEndKeepsPieces(s[..n]);
      SpaceBehind(s[n], s[..n]);
      assert s == s[..n] + [s[n]];
    }
  }

  lemma TrimKeepsPieces(s: string)
    ensures TrimAll(Split('|', Trim(s))) == TrimAll(Split('|', s))
  {
    TrimStartKeepsPieces(s);
    TrimEndKeepsPieces(TrimStart(s));
    hide TrimStart, TrimEnd, Split, TrimAll;
  }

  // ---------------------------------------------------------------------------------------
  // The outer pipes
  // ---------------------------------------------------------------------------------------

  /** An empty first cell goes, and then an empty last one, but never the only one. */
  function WithoutFirst(cells: seq<string>): seq<string> {
    if |cells| > 1 && cells[0] == "" then cells[1..] else cells
  }

  function WithoutLast(cells: seq<string>): seq<string> {
    if |cells| > 1 && cells[|cells| - 1] == "" then cells[..|cells| - 1] else cells
  }

  /** Neither end of the text is a space. */
  predicate Tight(s: string) {
    s != "" ==> !IsSpace(s[0]) && !IsSpace(s[|s| - 1])
  }

  lemma TrimIsTight(s: string)
    ensures Tight(Trim(s))
  {
  }

  lemma TrimmedAwayIff(s: string)
    ensures Trim(s) == "" <==> Blank(s)
  {
    BlankIffTrimmedAway(s);
  }

  /** The text starts with a pipe exactly if the first of several trimmed pieces is empty. */
  lemma FrontPipe(t: string)
    requires t == "" || !IsSpace(t[0])
    ensures var pieces := Split('|', t);
      (t != "" && t[0] == '|') <==> |pieces| > 1 && Trim(pieces[0]) == ""
    ensures t != "" && t[0] == '|' ==> Split('|', t) == [""] + Split('|', t[1..])
  {
    var pieces := Split('|', t);
    TrimmedAwayIff(pieces[0]);
    if t != "" && t[0] != '|' {
      assert pieces[0][0] == t[0];
      assert !Blank(pieces[0]);
    }
    hide Trim, Blank;
  }

  lemma BackPipe(t: string)
    requires t == "" || !IsSpace(t[|t| - 1])
    ensures var pieces := Split('|', t);
      (t != "" && t[|t| - 1] == '|') <==> |pieces| > 1 && Trim(pieces[|pieces| - 1]) == ""
    ensures t != "" && t[|t| - 1] == '|' ==> Split('|', t) == Split('|', t[..|t| - 1]) + [""]
  {
    hide Split, Trim, IsSpace, Blank;
    if t != "" {
      var n := |t| - 1;
      assert t == t[..n] + [t[n]];
      if t[n] == '|' { EndsWithPipe(t[..n]); } else { EndsWithoutPipe(t[..n], t[n]); }
    } else {
      UnseparatedIsOnePiece('|', t);
    }
  }

  lemma EndsWithPipe(s: string)
    ensures Split('|', s + "|") == Split('|', s) + [""] && Trim("") == ""
  {
    SplitOfConcat('|', s, "|");
    assert "|"[1..] == "" && Split('|', "|") == ["", ""];
    hide Split;
    EndsWithEmpty(Split('|', s));
    BlankIsTrimmed();
  }

  lemma EndsWithoutPipe(s: string, c: char)
    requires c != '|' && !IsSpace(c)
    ensures var pieces := Split('|', s + [c]); Trim(pieces[|pieces| - 1]) != ""
  {
    SplitSnoc(s, c);
    var pieces := Split('|', s + [c]);
    var last := pieces[|pieces| - 1];
    TrimmedAwayIff(last);
    hide Split, Trim;
    assert last[|last| - 1] == c;
  }

  lemma BlankIsTrimmed()
    ensures Trim("") == ""
  {
  }

  lemma EndsWithEmpty(before: seq<string>)
    requires |before| > 0
    ensures Glue(before, ["", ""]) == before + [""]
  {
    var n := |before| - 1;
    assert before[n] + "" == before[n] && before == before[..n] + [before[n]];
  }

  /** A row is every trimmed piece between pipes, without an empty first and an empty last one. */
  lemma RowIs(line: string)
    ensures Row(line) == WithoutLast(WithoutFirst(TrimAll(Split('|', line))))
  {
    hide *;
    var t := Trim(line);
    TrimKeepsPieces(line);
    TrimIsTight(line);
    FrontStripped(t);
    TightTail(t);
    BackStripped(FrontOff(t));
    RowUnfolds(line);
  }

  function FrontOff(t: string): string {
    if t != "" && t[0] == '|' then t[1..] else t
  }

  function BackOff(t: string): string {
    if t != "" && t[|t| - 1] == '|' then t[..|t| - 1] else t
  }

  lemma RowUnfolds(line: string)
    ensures Row(line) == TrimAll(Split('|', BackOff(FrontOff(Trim(line)))))
  {
    hide Trim, Split, TrimAll;
  }

  lemma TightTail(t: string)
    requires Tight(t)
    ensures t == "" || !IsSpace(t[0])
    ensures FrontOff(t) == "" || !IsSpace(FrontOff(t)[|FrontOff(t)| - 1])
  {
  }

  lemma FrontStripped(t: string)
    requires Tight(t)
    ensures TrimAll(Split('|', FrontOff(t))) == WithoutFirst(TrimAll(Split('|', t)))
  {
    hide Split, Trim, TrimAll, IsSpace;
    TightTail(t);
    FrontPipe(t);
    BlankIsTrimmed();
    TrimAllAt(Split('|', t), 0);
    if t != "" && t[0] == '|' { TrimAllCons("", Split('|', t[1..])); }
  }

  lemma BackStripped(t: string)
    requires t == "" || !IsSpace(t[|t| - 1])
    ensures TrimAll(Split('|', BackOff(t))) == WithoutLast(TrimAll(Split('|', t)))
  {
    hide Split, Trim, TrimAll, IsSpace;
    BackPipe(t);
    BlankIsTrimmed();
    TrimAllAt(Split('|', t), |Split('|', t)| - 1);
    if t != "" && t[|t| - 1] == '|' { TrimAllSnoc(Split('|', t[..|t| - 1]), ""); }
  }

  // ---------------------------------------------------------------------------------------
  // Rows and separator lines from their parts
  // ---------------------------------------------------------------------------------------


  /** Cells between pipes, with or without a pipe at either end. Several cells without a pipe at an end must show
      something there, or their own pipe would be taken for it. */
  predicate RowParts(line: string, front: string, cells: seq<string>, back: string) {
    && line == front + Join(cells, '|') + back
    && cells != [] && (forall k :: 0 <= k < |cells| ==> '|' !in cells[k])
    && IsFront(front) && IsBack(back)
    && (|cells| > 1 && front == "" ==> !Blank(cells[0]))
    && (|cells| > 1 && back == "" ==> !Blank(cells[|cells| - 1]))
  }

  predicate IsFront(front: string) {
    front == "" || (front[|front| - 1] == '|' && Blank(front[..|front| - 1]))
  }

  predicate IsBack(back: string) {
    back == "" || (back[0] == '|' && Blank(back[1..]))
  }

  /** The pieces of such a line are its cells, with a blank one for each edge. */
  lemma PiecesOfParts(line: string, front: string, cells: seq<string>, back: string)
    requires RowParts(line, front, cells, back)
    ensures Split('|', line) == (if front == "" then [] else [front[..|front| - 1]]) + cells
                                + (if back == "" then [] else [back[1..]])
  {
    hide Blank, Join, Split;
    var most := if back == "" then cells else cells + [back[1..]];
    var all := if front == "" then most else [front[..|front| - 1]] + most;
    if back == "" { assert Join(cells, '|') + back == Join(cells, '|'); } else { JoinSnoc(cells, back); }
    assert Join(most, '|') == Join(cells, '|') + back;
    if front == "" { assert front + Join(most, '|') == Join(most, '|'); } else { JoinCons(front, most); }
    assert front + (Join(cells, '|') + back) == line;
    if front != "" { BlankHasNoPipe(front[..|front| - 1]); }
    if back != "" { BlankHasNoPipe(back[1..]); }
    JoinSplits('|', all);
  }

  lemma BlankHasNoPipe(s: string)
    ensures Blank(s) ==> '|' !in s
  {
  }

  lemma {:induction false} JoinSnoc(cells: seq<string>, back: string)
    requires cells != [] && back != "" && back[0] == '|'
    ensures Join(cells + [back[1..]], '|') == Join(cells, '|') + back
  {
    assert ['|'] + back[1..] == back;
    if |cells| == 1 {
      assert (cells + [back[1..]])[1..] == [back[1..]];
    } else {
      assert (cells + [back[1..]])[1..] == cells[1..] + [back[1..]];
      JoinSnoc(cells[1..], back);
    }
  }

  lemma JoinCons(front: string, cells: seq<string>)
    requires cells != [] && front != "" && front[|front| - 1] == '|'
    ensures Join([front[..|front| - 1]] + cells, '|') == front + Join(cells, '|')
  {
    assert front[..|front| - 1] + ['|'] == front;
    assert ([front[..|front| - 1]] + cells)[1..] == cells;
  }

  /** The row of joined cells is the trimmed cells, with a pipe in front, behind, both or neither. */
  lemma RowOfCells(line: string, front: string, cells: seq<string>, back: string)
    requires RowParts(line, front, cells, back)
    ensures Row(line) == TrimAll(cells)
  {
    hide Join, Split, Trim, Blank, Row, TrimAll;
    RowIs(line);
    PiecesOfParts(line, front, cells, back);
    var most := if back == "" then cells else cells + [back[1..]];
    EdgesGo(front, cells, back, most);
    assert Split('|', line) == if front == "" then most else [front[..|front| - 1]] + most;
  }

  lemma EdgesGo(front: string, cells: seq<string>, back: string, most: seq<string>)
    requires cells != [] && IsFront(front) && IsBack(back)
    requires |cells| > 1 && front == "" ==> !Blank(cells[0])
    requires |cells| > 1 && back == "" ==> !Blank(cells[|cells| - 1])
    requires most == if back == "" then cells else cells + [back[1..]]
    ensures var all := if front == "" then most else [front[..|front| - 1]] + most;
            WithoutLast(WithoutFirst(TrimAll(all))) == TrimAll(cells)
  {
    hide Trim, Blank, TrimAll;
    TrimmedAwayIff(cells[0]);
    TrimmedAwayIff(cells[|cells| - 1]);
    TrimAllAt(cells, 0);
    TrimAllAt(cells, |cells| - 1);
    if back != "" {
      TrimmedAwayIff(back[1..]);
      TrimAllSnoc(cells, back[1..]);
    }
    if front != "" {
      TrimmedAwayIff(front[..|front| - 1]);
      TrimAllCons(front[..|front| - 1], most);
    }
  }

  /** Every line has such parts. */
  lemma RowHasParts(line: string) returns (front: string, cells: seq<string>, back: string)
    ensures RowParts(line, front, cells, back)
  {
    hide *;
    var all := Split('|', line);
    SplitJoins('|', line);
    PiecesHoldNoSeparator('|', line);
    var most;
    front, most := TakeFront(all);
    cells, back := TakeBack(front, most);
    PartsMakeRow(line, front, cells, back);
  }

  lemma TakeFront(all: seq<string>) returns (front: string, cells: seq<string>)
    requires all != []
    ensures cells != [] && IsFront(front) && Join(all, '|') == front + Join(cells, '|')
    ensures forall cell :: cell in cells ==> cell in all
    ensures |cells| > 1 && front == "" ==> !Blank(cells[0])
  {
    hide Join, Blank;
    front, cells := "", all;
    if |all| > 1 && Blank(all[0]) {
      front, cells := all[0] + "|", all[1..];
      assert front[..|front| - 1] == all[0] && [all[0]] + cells == all;
      JoinCons(front, cells);
    } else {
      assert "" + Join(all, '|') == Join(all, '|');
    }
  }

  lemma TakeBack(front: string, all: seq<string>) returns (cells: seq<string>, back: string)
    requires all != [] && (|all| > 1 && front == "" ==> !Blank(all[0]))
    ensures cells != [] && IsBack(back) && front + Join(all, '|') == front + Join(cells, '|') + back
    ensures forall cell :: cell in cells ==> cell in all
    ensures |cells| > 1 && front == "" ==> !Blank(cells[0])
    ensures |cells| > 1 && back == "" ==> !Blank(cells[|cells| - 1])
  {
    hide Join, Blank;
    cells, back := all, "";
    var n := |all| - 1;
    if n > 0 && Blank(all[n]) {
      cells, back := all[..n], "|" + all[n];
      assert back[1..] == all[n] && cells + [all[n]] == all;
      JoinSnoc(cells, back);
      assert front + (Join(cells, '|') + back) == front + Join(cells, '|') + back;
    } else {
      assert front + Join(all, '|') + "" == front + Join(all, '|');
    }
  }

  lemma PartsMakeRow(line: string, front: string, cells: seq<string>, back: string)
    requires line == front + Join(cells, '|') + back && cells != [] && IsFront(front) && IsBack(back)
    requires forall cell :: cell in cells ==> '|' !in cell
    requires |cells| > 1 && front == "" ==> !Blank(cells[0])
    requires |cells| > 1 && back == "" ==> !Blank(cells[|cells| - 1])
    ensures RowParts(line, front, cells, back)
  {
  }

  /** A cell of a separator line: dashes, with or without a colon at either end, and space around. */
  ghost predicate RuleCell(cell: string) {
    exists left, dashes, right :: RuleParts(Trim(cell), left, dashes, right)
  }

  /** A separator line has a pipe, and nothing but rules between its pipes. */
  lemma SeparatorIff(line: string)
    ensures IsSeparator(line)
            <==> '|' in line && exists front, cells, back ::
                   RowParts(line, front, cells, back) && forall k :: 0 <= k < |cells| ==> RuleCell(cells[k])
  {
    var front, cells, back := RowHasParts(line);
    SeparatorOfParts(line, front, cells, back);
    hide *;
    if exists front, cells, back ::
      RowParts(line, front, cells, back) && forall k :: 0 <= k < |cells| ==> RuleCell(cells[k])
    {
      var front', cells', back' :|
        RowParts(line, front', cells', back') && forall k :: 0 <= k < |cells'| ==> RuleCell(cells'[k]);
      SeparatorOfParts(line, front', cells', back');
    }
  }

  lemma SeparatorOfParts(line: string, front: string, cells: seq<string>, back: string)
    requires RowParts(line, front, cells, back)
    ensures IsSeparator(line) <==> '|' in line && forall k :: 0 <= k < |cells| ==> RuleCell(cells[k])
  {
    RowOfCells(line, front, cells, back);
    hide RowParts, Row, Trim, IsRule, RuleParts;
    forall k | 0 <= k < |cells| ensures IsRule(Row(line)[k]) <==> RuleCell(cells[k]) {
      RuleIff(Trim(cells[k]));
    }
  }
}
