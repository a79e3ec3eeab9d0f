/** The line patterns of the answer renderer. Each pattern is decided by scanning and shown to be its regular
    expression. */
module MarkdownLines {
  import opened Text

  /** The length of the longest prefix of characters that satisfy `p`. */
  function RunOf(p: char -> bool, s: string): (n: nat)
    ensures n <= |s|
    ensures forall k :: 0 <= k < n ==> p(s[k])
    ensures n < |s| ==> !p(s[n])
  {
    if s == "" || !p(s[0]) then 0 else 1 + RunOf(p, s[1..])
  }

  predicate All(p: char -> bool, s: string) {
    forall k :: 0 <= k < |s| ==> p(s[k])
  }

  /** A block of characters of one class, followed by something else, is the whole run. */
  lemma {:induction false} RunIsPrefix(p: char -> bool, block: string, rest: string)
    requires All(p, block) && (rest == "" || !p(rest[0]))
    ensures RunOf(p, block + rest) == |block|
  {
    if block == "" {
      assert block + rest == rest;
    } else {
      assert (block + rest)[1..] == block[1..] + rest;
      RunIsPrefix(p, block[1..], rest);
    }
  }

  predicate Space(c: char) { IsSpace(c) }
  predicate Hash(c: char) { c == '#' }
  predicate Digit(c: char) { '0' <= c <= '9' }
  predicate Dash(c: char) { c == '-' }
  /** What a dot matches. */
  predicate Dot(c: char) { c != '\n' && c != '\r' && c != '\U{2028}' && c != '\U{2029}' }

  function AfterSpace(s: string): string {
    s[RunOf(Space, s)..]
  }

  // ---------------------------------------------------------------------------------------
  // Headings
  // ---------------------------------------------------------------------------------------

  /** `#{1,6}\s` at the start. */
  predicate HashStart(line: string) {
    var h := RunOf(Hash, line);
    1 <= h <= 6 && h < |line| && IsSpace(line[h])
  }

  /** `^(#{1,6})\s+(.*)$` */
  predicate IsHeading(line: string) {
    HashStart(line) && All(Dot, AfterSpace(line[RunOf(Hash, line)..]))
  }

  ghost predicate HeadingParts(line: string, hashes: string, spaces: string, rest: string) {
    && line == hashes + spaces + rest
    && 1 <= |hashes| <= 6 && (forall k :: 0 <= k < |hashes| ==> hashes[k] == '#')
    && 1 <= |spaces| && Blank(spaces)
    && '\n' !in rest && '\r' !in rest && '\U{2028}' !in rest && '\U{2029}' !in rest
  }

  /** The shown text of a heading is what follows the hashes and all the space after them. */
  lemma HeadingText(line: string)
    requires IsHeading(line)
    ensures var level := RunOf(Hash, line);
            var text := AfterSpace(line[level..]);
            HeadingParts(line, line[..level], line[level..|line| - |text|], text) && (text == "" || !IsSpace(text[0]))
  {
    hide RunOf;
    var level := RunOf(Hash, line);
    var tail := line[level..];
    var w := RunOf(Space, tail);
    assert tail[0] == line[level];
    assert line[level..level + w] == tail[..w];
    assert line == line[..level] + tail[..w] + tail[w..];
  }

  lemma PartsAreHeading(line: string, hashes: string, spaces: string, rest: string)
    requires HeadingParts(line, hashes, spaces, rest)
    ensures IsHeading(line)
  {
    hide RunOf;
    assert line == hashes + (spaces + rest);
    assert (spaces + rest)[0] == spaces[0];
    RunIsPrefix(Hash, hashes, spaces + rest);
    assert line[|hashes|..] == spaces + rest;
    RunReaches(spaces, rest);
    var w := RunOf(Space, spaces + rest);
    assert (spaces + rest)[w..] == rest[w - |spaces|..];
    assert line[|hashes|] == spaces[0];
  }

  lemma HeadingIff(line: string)
    ensures IsHeading(line) <==> exists hashes, spaces, rest :: HeadingParts(line, hashes, spaces, rest)
  {
    hide IsHeading, HeadingParts;
    if IsHeading(line) { HeadingText(line); }
    if exists hashes, spaces, rest :: HeadingParts(line, hashes, spaces, rest) {
      var hashes, spaces, rest :| HeadingParts(line, hashes, spaces, rest);
      PartsAreHeading(line, hashes, spaces, rest);
    }
  }

  /** The run of spaces covers a block of spaces. */
  lemma {:induction false} RunReaches(spaces: string, rest: string)
    requires All(Space, spaces)
    ensures RunOf(Space, spaces + rest) >= |spaces|
  {
  }

  // ---------------------------------------------------------------------------------------
  // Quotes and list items
  // ---------------------------------------------------------------------------------------

  /** `^>` */
  predicate IsQuote(line: string) {
    line != "" && line[0] == '>'
  }

  function QuoteText(line: string): string
    requires IsQuote(line)
  {
    if |line| > 1 && IsSpace(line[1]) then line[2..] else line[1..]
  }

  /** The length of `[-*+]` or `\d+\.` at the start, or 0. */
  function MarkerLength(s: string): (n: nat)
    ensures n <= |s|
  {
    var d := RunOf(Digit, s);
    if s != "" && s[0] in "-*+" then 1
    else if 0 < d < |s| && s[d] == '.' then d + 1
    else 0
  }

  /** `^\s*([-*+]|\d+\.)\s` */
  predicate IsItem(line: string) {
    var s := AfterSpace(line);
    var m := MarkerLength(s);
    0 < m < |s| && IsSpace(s[m])
  }

  predicate IsOrdered(line: string) {
    IsItem(line) && AfterSpace(line)[0] !in "-*+"
  }

  function ItemText(line: string): string {
    AfterSpace(AfterSpace(line)[MarkerLength(AfterSpace(line))..])
  }

  predicate IsMarker(m: string) {
    m == "-" || m == "*" || m == "+" || IsNumber(m)
  }

  /** `\d+\.` */
  predicate IsNumber(m: string) {
    |m| > 1 && m[|m| - 1] == '.' && forall k :: 0 <= k < |m| - 1 ==> '0' <= m[k] <= '9'
  }

  ghost predicate ItemParts(line: string, indent: string, marker: string, spaces: string, rest: string) {
    && line == indent + marker + spaces + rest
    && Blank(indent) && IsMarker(marker) && 1 <= |spaces| && Blank(spaces)
  }

  lemma MarkerFound(marker: string, rest: string)
    requires IsMarker(marker)
    ensures MarkerLength(marker + rest) == |marker|
  {
    var s := marker + rest;
    if |marker| > 1 {
      var digits := marker[..|marker| - 1];
      assert s == digits + ("." + rest);
      RunIsPrefix(Digit, digits, "." + rest);
      assert s[0] == digits[0];
    }
  }

  lemma MarkerIsMarker(s: string)
    requires MarkerLength(s) > 0
    ensures IsMarker(s[..MarkerLength(s)])
  {
  }

  lemma AfterSpaceSplits(s: string)
    ensures var w := |s| - |AfterSpace(s)|; w >= 0 && s == s[..w] + AfterSpace(s) && Blank(s[..w])
    ensures AfterSpace(s) == "" || !IsSpace(AfterSpace(s)[0])
  {
  }

  /** The shown text of an item is what follows its marker and all the space after it. */
  lemma ItemTextIsRest(line: string) returns (indent: string, marker: string, spaces: string)
    requires IsItem(line)
    ensures ItemParts(line, indent, marker, spaces, ItemText(line))
    ensures ItemText(line) == "" || !IsSpace(ItemText(line)[0])
  {
    var s := AfterSpace(line);
    var m := MarkerLength(s);
    var tail := s[m..];
    var text := AfterSpace(tail);
    MarkerIsMarker(s);
    AfterSpaceSplits(line);
    AfterSpaceSplits(tail);
    SpaceIsCut(tail);
    hide *;
    indent, marker, spaces := line[..|line| - |s|], s[..m], tail[..|tail| - |text|];
    PartsJoin(line, indent, marker, spaces, text);
    PartsMake(line, indent, marker, spaces, text);
  }

  lemma SpaceIsCut(s: string)
    requires s != "" && IsSpace(s[0])
    ensures |AfterSpace(s)| < |s|
  {
  }

  lemma PartsJoin(line: string, indent: string, marker: string, spaces: string, text: string)
    requires indent <= line && marker <= line[|indent|..] && line[|indent|..][|marker|..] == spaces + text
    ensures line == indent + marker + spaces + text
  {
  }

  lemma PartsMake(line: string, indent: string, marker: string, spaces: string, text: string)
    requires line == indent + marker + spaces + text
    requires Blank(indent) && IsMarker(marker) && 1 <= |spaces| && Blank(spaces)
    ensures ItemParts(line, indent, marker, spaces, text)
  {
  }

  lemma PartsAreItem(line: string, indent: string, marker: string, spaces: string, rest: string)
    requires ItemParts(line, indent, marker, spaces, rest)
    ensures IsItem(line)
  {
    hide RunOf, MarkerLength;
    var tail := marker + (spaces + rest);
    assert line == indent + tail;
    assert !IsSpace(marker[0]) && tail[0] == marker[0] by {
      assert |marker| > 1 ==> marker[..|marker| - 1][0] == marker[0];
    }
    RunIsPrefix(Space, indent, tail);
    assert line[|indent|..] == tail;
    MarkerFound(marker, spaces + rest);
    assert tail[|marker|] == spaces[0];
  }

  lemma ItemIff(line: string)
    ensures IsItem(line) <==> exists indent, marker, spaces, rest :: ItemParts(line, indent, marker, spaces, rest)
  {
    hide IsItem, ItemParts;
    if IsItem(line) { var indent, marker, spaces := ItemTextIsRest(line); }
    if exists indent, marker, spaces, rest :: ItemParts(line, indent, marker, spaces, rest) {
      var indent, marker, spaces, rest :| ItemParts(line, indent, marker, spaces, rest);
      PartsAreItem(line, indent, marker, spaces, rest);
    }
  }

  lemma QuoteIff(line: string)
    ensures IsQuote(line) <==> exists rest :: line == ">" + rest
  {
    if IsQuote(line) { assert line == ">" + line[1..]; }
  }

  /** A list is ordered exactly if the marker of its first item is a number and a dot. */
  lemma OrderedIff(line: string)
    ensures IsOrdered(line)
            <==> exists indent, marker, spaces, rest ::
                   ItemParts(line, indent, marker, spaces, rest) && IsNumber(marker)
  {
    hide IsItem, ItemParts, AfterSpace, ItemText;
    if IsOrdered(line) {
      var indent, marker, spaces := ItemTextIsRest(line);
      MarkerDecides(line, indent, marker, spaces, ItemText(line));
    }
    if exists indent, marker, spaces, rest :: ItemParts(line, indent, marker, spaces, rest) && IsNumber(marker) {
      var indent, marker, spaces, rest :| ItemParts(line, indent, marker, spaces, rest) && IsNumber(marker);
      PartsAreItem(line, indent, marker, spaces, rest);
      MarkerDecides(line, indent, marker, spaces, rest);
    }
  }

  lemma MarkerDecides(line: string, indent: string, marker: string, spaces: string, rest: string)
    requires ItemParts(line, indent, marker, spaces, rest)
    ensures AfterSpace(line) != "" && (AfterSpace(line)[0] !in "-*+" <==> IsNumber(marker))
  {
    var tail := marker + (spaces + rest);
    assert line == indent + tail && tail[0] == marker[0];
    RunIsPrefix(Space, indent, tail);
    assert line[|indent|..] == tail;
  }

  /** The shown text of a quote is what follows the mark and at most one space. */
  lemma QuoteTextIsRest(line: string)
    requires IsQuote(line)
    ensures line == ">" + QuoteText(line) || (IsSpace(line[1]) && line == [line[0], line[1]] + QuoteText(line))
    ensures line == ">" + QuoteText(line) ==> QuoteText(line) == "" || !IsSpace(QuoteText(line)[0])
  {
    assert |line| == 1 ==> line == ">" + "";
  }

  // ---------------------------------------------------------------------------------------
  // Tables
  // ---------------------------------------------------------------------------------------

  /** `replace(/^\||\|$/g, "")` */
  function StripPipes(s: string): string {
    var t := if s != "" && s[0] == '|' then s[1..] else s;
    if t != "" && t[|t| - 1] == '|' then t[..|t| - 1] else t
  }

  function TrimAll(cells: seq<string>): (r: seq<string>)
    ensures |r| == |cells|
  {
    seq(|cells|, k requires 0 <= k < |cells| => Trim(cells[k]))
  }

  function Row(line: string): seq<string> {
    TrimAll(Split('|', StripPipes(Trim(line))))
  }

  /** The cells hold no separator; before they are trimmed they join to the trimmed line without its outer pipes. */
  lemma RowCells(line: string)
    ensures Join(Split('|', StripPipes(Trim(line))), '|') == StripPipes(Trim(line))
    ensures forall k :: 0 <= k < |Row(line)| ==> '|' !in Row(line)[k]
  {
    hide Trim, Split, Join, StripPipes;
    SplitJoins('|', StripPipes(Trim(line)));
    PiecesHoldNoSeparator('|', StripPipes(Trim(line)));
    var cells := Split('|', StripPipes(Trim(line)));
    forall k | 0 <= k < |cells| ensures '|' !in Trim(cells[k]) {
      TrimmedIsPart(cells[k], '|');
    }
  }

  lemma TrimmedIsPart(s: string, c: char)
    requires c !in s
    ensures c !in Trim(s)
  {
    var t := TrimStart(s);
    assert forall k :: 0 <= k < |t| ==> t[k] == s[|s| - |t| + k];
  }

  /** `^:?-{1,}:?$` */
  predicate IsRule(cell: string) {
    var t := if cell != "" && cell[0] == ':' then cell[1..] else cell;
    var u := if t != "" && t[|t| - 1] == ':' then t[..|t| - 1] else t;
    u != "" && All(Dash, u)
  }

  predicate IsSeparator(line: string) {
    '|' in line && forall k :: 0 <= k < |Row(line)| ==> IsRule(Row(line)[k])
  }

  ghost predicate RuleParts(cell: string, left: string, dashes: string, right: string) {
    && cell == left + dashes + right
    && (left == "" || left == ":") && (right == "" || right == ":") && dashes != ""
    && forall k :: 0 <= k < |dashes| ==> dashes[k] == '-'
  }

  lemma RuleHasParts(cell: string)
    requires IsRule(cell)
    ensures exists left, dashes, right :: RuleParts(cell, left, dashes, right)
  {
    var t := if cell != "" && cell[0] == ':' then cell[1..] else cell;
    var u := if t != "" && t[|t| - 1] == ':' then t[..|t| - 1] else t;
    var left := if cell[0] == ':' then ":" else "";
    var right := if t[|t| - 1] == ':' then ":" else "";
    assert cell == left + u + right;
    assert RuleParts(cell, left, u, right);
  }

  lemma PartsAreRule(cell: string, left: string, dashes: string, right: string)
    requires RuleParts(cell, left, dashes, right)
    ensures IsRule(cell)
  {
  }

  lemma RuleIff(cell: string)
    ensures IsRule(cell) <==> exists left, dashes, right :: RuleParts(cell, left, dashes, right)
  {
    hide IsRule, RuleParts;
    if IsRule(cell) { RuleHasParts(cell); }
    if exists left, dashes, right :: RuleParts(cell, left, dashes, right) {
      var left, dashes, right :| RuleParts(cell, left, dashes, right);
      PartsAreRule(cell, left, dashes, right);
    }
  }
}
