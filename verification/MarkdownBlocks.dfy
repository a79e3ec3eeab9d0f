/** The block parser of the answer renderer. */
module MarkdownBlocks {
  import opened MarkdownLines
  import opened Text

  datatype Kind = TableKind | HeadingKind | QuoteKind | ListKind | Gap | ParagraphKind

  datatype Content =
    | Table(header: seq<string>, rows: seq<seq<string>>)
    | Heading(level: nat, text: string)
    | Quote(text: string)
    | List(ordered: bool, items: seq<string>)
    | Paragraph(text: string)

  /** A block made of the lines from `lo` up to `hi`. */
  datatype Block = Block(lo: nat, hi: nat, content: Content)

  predicate TableStart(lines: seq<string>, i: nat)
    requires i < |lines|
  {
    '|' in lines[i] && i + 1 < |lines| && IsSeparator(lines[i + 1])
  }

  /** What a line starts when it is not inside a block. */
  function KindAt(lines: seq<string>, i: nat): Kind
    requires i < |lines|
  {
    if TableStart(lines, i) then TableKind
    else if IsHeading(lines[i]) then HeadingKind
    else if IsQuote(lines[i]) then QuoteKind
    else if IsItem(lines[i]) then ListKind
    else if Blank(lines[i]) then Gap
    else ParagraphKind
  }

  /** Whether a later line continues a block. */
  predicate Continues(lines: seq<string>, kind: Kind, i: nat)
    requires i < |lines|
  {
    match kind
    case TableKind => '|' in lines[i] && !Blank(lines[i])
    case ListKind => IsItem(lines[i])
    case ParagraphKind => !Blank(lines[i]) && !HashStart(lines[i]) && !IsQuote(lines[i]) && !IsItem(lines[i])
        && !TableStart(lines, i)
    case _ => false
  }

  function KindOf(content: Content): Kind {
    match content
    case Table(_, _) => TableKind
    case Heading(_, _) => HeadingKind
    case Quote(_) => QuoteKind
    case List(_, _) => ListKind
    case Paragraph(_) => ParagraphKind
  }

  /** A table starts with two lines, anything else with one. */
  function HeadLines(kind: Kind): nat {
    if kind == TableKind then 2 else 1
  }

  /** The content is what the lines say. */
  predicate Says(lines: seq<string>, b: Block)
    requires b.lo + HeadLines(KindOf(b.content)) <= b.hi <= |lines|
  {
    match b.content
    case Table(header, rows) =>
      && header == Row(lines[b.lo]) && |rows| == b.hi - b.lo - 2
      && forall k :: 0 <= k < |rows| ==> rows[k] == Row(lines[b.lo + 2 + k])
    case Heading(level, text) =>
      && level == RunOf(Hash, lines[b.lo]) && text == AfterSpace(lines[b.lo][level..])
    case Quote(text) => IsQuote(lines[b.lo]) && text == QuoteText(lines[b.lo])
    case List(ordered, items) =>
      && ordered == IsOrdered(lines[b.lo]) && |items| == b.hi - b.lo
      && forall k :: 0 <= k < |items| ==> items[k] == ItemText(lines[b.lo + k])
    case Paragraph(text) => text == Join(lines[b.lo..b.hi], '\n')
  }

  /** Whether the lines from `from` up to `to` all continue a block. */
  predicate AllContinue(lines: seq<string>, kind: Kind, from: nat, to: nat)
    requires to <= |lines|
  {
    forall k :: from <= k < to ==> Continues(lines, kind, k)
  }

  /** A block starts where its kind starts, holds all lines that continue it and no more, and says what they say. */
  predicate RightBlock(lines: seq<string>, b: Block) {
    var kind := KindOf(b.content);
    && b.lo + HeadLines(kind) <= b.hi <= |lines|
    && KindAt(lines, b.lo) == kind
    && AllContinue(lines, kind, b.lo + HeadLines(kind), b.hi)
    && (b.hi < |lines| ==> !Continues(lines, kind, b.hi))
    && Says(lines, b)
  }

  predicate InOrder(blocks: seq<Block>) {
    forall j, k :: 0 <= j < k < |blocks| ==> blocks[j].hi <= blocks[k].lo
  }

  predicate Covered(blocks: seq<Block>, i: nat) {
    exists k :: 0 <= k < |blocks| && blocks[k].lo <= i < blocks[k].hi
  }

  /** The blocks are right, disjoint and in order, and leave out only blank lines among the first `n`. */
  predicate Parsed(lines: seq<string>, blocks: seq<Block>, n: nat)
    requires n <= |lines|
  {
    && (forall k :: 0 <= k < |blocks| ==> RightBlock(lines, blocks[k]) && blocks[k].hi <= n)
    && InOrder(blocks)
    && forall i :: 0 <= i < n ==> Covered(blocks, i) || Blank(lines[i])
  }

  // ---------------------------------------------------------------------------------------
  // The parser
  // ---------------------------------------------------------------------------------------

  method ReadTable(lines: seq<string>, start: nat) returns (b: Block)
    requires start < |lines| && KindAt(lines, start) == TableKind
    ensures RightBlock(lines, b) && b.lo == start
  {
    hide Row, IsSeparator, IsHeading, IsItem, Blank;
    var header, rows, i := Row(lines[start]), [], start + 2;
    while i < |lines| && '|' in lines[i] && !Blank(lines[i])
      invariant start + 2 <= i <= |lines| && |rows| == i - start - 2
      invariant AllContinue(lines, TableKind, start + 2, i)
      invariant forall k :: 0 <= k < |rows| ==> rows[k] == Row(lines[start + 2 + k])
    {
      rows := rows + [Row(lines[i])];
      i := i + 1;
    }
    b := Block(start, i, Table(header, rows));
  }

  method ReadList(lines: seq<string>, start: nat) returns (b: Block)
    requires start < |lines| && KindAt(lines, start) == ListKind
    ensures RightBlock(lines, b) && b.lo == start
  {
    hide IsOrdered, IsSeparator, IsHeading, IsItem, Blank, ItemText;
    var items, i := [], start;
    while i < |lines| && IsItem(lines[i])
      invariant start <= i <= |lines| && |items| == i - start
      invariant AllContinue(lines, ListKind, start, i)
      invariant forall k :: 0 <= k < |items| ==> items[k] == ItemText(lines[start + k])
    {
      items := items + [ItemText(lines[i])];
      i := i + 1;
    }
    b := Block(start, i, List(IsOrdered(lines[start]), items));
  }

  method ReadParagraph(lines: seq<string>, start: nat) returns (b: Block)
    requires start < |lines| && KindAt(lines, start) == ParagraphKind
    ensures RightBlock(lines, b) && b.lo == start
  {
    hide HashStart, IsSeparator, IsHeading, IsItem, IsQuote, Blank, Join, TableStart;
    var para, i := [lines[start]], start + 1;
    while i < |lines| && !Blank(lines[i]) && !HashStart(lines[i]) && !IsQuote(lines[i]) && !IsItem(lines[i])
        && !TableStart(lines, i)
      invariant start + 1 <= i <= |lines| && para == lines[start..i]
      invariant AllContinue(lines, ParagraphKind, start + 1, i)
    {
      para := para + [lines[i]];
      i := i + 1;
    }
    b := Block(start, i, Paragraph(Join(para, '\n')));
  }

  lemma ParsedGrows(lines: seq<string>, blocks: seq<Block>, i: nat, b: Block)
    requires i < |lines| && Parsed(lines, blocks, i) && RightBlock(lines, b) && b.lo == i
    ensures Parsed(lines, blocks + [b], b.hi)
  {
    hide RightBlock, Blank;
    var all := blocks + [b];
    assert b.lo < b.hi <= |lines| by { BlockRange(lines, b); }
    forall k | 0 <= k < b.hi ensures Covered(all, k) || Blank(lines[k]) {
      if k < i {
        if Covered(blocks, k) {
          var c :| 0 <= c < |blocks| && blocks[c].lo <= k < blocks[c].hi;
          assert all[c] == blocks[c];
        }
      } else {
        assert all[|blocks|] == b;
      }
    }
    forall k | 0 <= k < |blocks| ensures blocks[k].lo <= blocks[k].hi {
      BlockRange(lines, blocks[k]);
    }
  }

  lemma BlockRange(lines: seq<string>, b: Block)
    requires RightBlock(lines, b)
    ensures b.lo < b.hi <= |lines|
  {
  }

  lemma SkipBlank(lines: seq<string>, blocks: seq<Block>, i: nat)
    requires i < |lines| && Parsed(lines, blocks, i) && Blank(lines[i])
    ensures Parsed(lines, blocks, i + 1)
  {
  }

  method ParseBlocks(lines: seq<string>) returns (blocks: seq<Block>)
    ensures Parsed(lines, blocks, |lines|)
  {
    blocks := [];
    var i := 0;
    while i < |lines|
      invariant 0 <= i <= |lines| && Parsed(lines, blocks, i)
      decreases |lines| - i
    {
      hide Parsed, Blank, IsHeading, IsItem, IsSeparator, AfterSpace, Row, HashStart;
      var line := lines[i];
      var b;
      if '|' in line && i + 1 < |lines| && IsSeparator(lines[i + 1]) {
        b := ReadTable(lines, i);
      } else if IsHeading(line) {
        var level := RunOf(Hash, line);
        b := Block(i, i + 1, Heading(level, AfterSpace(line[level..])));
      } else if IsQuote(line) {
        b := Block(i, i + 1, Quote(QuoteText(line)));
      } else if IsItem(line) {
        b := ReadList(lines, i);
      } else if Blank(line) {
        SkipBlank(lines, blocks, i);
        i := i + 1;
        continue;
      } else {
        b := ReadParagraph(lines, i);
      }
      ParsedGrows(lines, blocks, i, b);
      BlockRange(lines, b);
      blocks := blocks + [b];
      i := b.hi;
    }
  }

  // ---------------------------------------------------------------------------------------
  // The parse is determined by the lines
  // ---------------------------------------------------------------------------------------

  /** Only a blank line starts nothing. */
  lemma BlankIffGap(lines: seq<string>, i: nat)
    requires i < |lines|
    ensures Blank(lines[i]) <==> KindAt(lines, i) == Gap
  {
  }

  /** Where a block starts decides the whole block. */
  lemma SameStartSameBlock(lines: seq<string>, a: Block, b: Block)
    requires RightBlock(lines, a) && RightBlock(lines, b) && a.lo == b.lo
    ensures a == b
  {
    hide IsHeading, IsItem, IsSeparator, HashStart, Row, Join, ItemText, Blank, AfterSpace;
    SameEnd(lines, a, b);
    match a.content {
      case Table(header, rows) => assert rows == b.content.rows;
      case List(ordered, items) => assert items == b.content.items;
      case _ =>
    }
  }

  lemma SameEnd(lines: seq<string>, a: Block, b: Block)
    requires RightBlock(lines, a) && RightBlock(lines, b) && a.lo == b.lo
    ensures a.hi == b.hi
  {
  }

  /** Between two blocks, and before the first and after the last one, there are only gaps. */
  lemma BetweenAreGaps(lines: seq<string>, blocks: seq<Block>, k: nat, i: nat)
    requires Parsed(lines, blocks, |lines|) && k <= |blocks|
    requires (if k == 0 then 0 else blocks[k - 1].hi) <= i < if k == |blocks| then |lines| else blocks[k].lo
    ensures KindAt(lines, i) == Gap
  {
    hide Says, KindAt, Continues, Blank;
    BlankIffGap(lines, i);
    forall c | 0 <= c < |blocks| ensures !(blocks[c].lo <= i < blocks[c].hi) {
      if c < k - 1 {
        BlockRange(lines, blocks[k - 1]);
        assert blocks[c].hi <= blocks[k - 1].lo;
      } else if k < c {
        BlockRange(lines, blocks[k]);
        assert blocks[k].hi <= blocks[c].lo;
      }
    }
  }

  lemma StartIsNoGap(lines: seq<string>, b: Block)
    requires RightBlock(lines, b)
    ensures b.lo < |lines| && KindAt(lines, b.lo) != Gap
  {
  }

  lemma OrderOf(lines: seq<string>, blocks: seq<Block>, k: nat)
    requires Parsed(lines, blocks, |lines|) && k < |blocks|
    ensures (if k == 0 then 0 else blocks[k - 1].hi) <= blocks[k].lo < |lines|
  {
  }

  lemma NextBlockAgrees(lines: seq<string>, p: seq<Block>, q: seq<Block>, k: nat)
    requires Parsed(lines, p, |lines|) && Parsed(lines, q, |lines|) && k < |p| && k < |q|
    requires k == 0 || p[k - 1] == q[k - 1]
    ensures p[k] == q[k]
  {
    OrderOf(lines, p, k);
    OrderOf(lines, q, k);
    hide RightBlock, KindAt, Blank, InOrder, Covered;
    StartIsNoGap(lines, p[k]);
    StartIsNoGap(lines, q[k]);
    if p[k].lo < q[k].lo { BetweenAreGaps(lines, q, k, p[k].lo); }
    if q[k].lo < p[k].lo { BetweenAreGaps(lines, p, k, q[k].lo); }
    SameStartSameBlock(lines, p[k], q[k]);
  }

  lemma {:induction false} FirstBlocksAgree(lines: seq<string>, p: seq<Block>, q: seq<Block>, k: nat)
    requires Parsed(lines, p, |lines|) && Parsed(lines, q, |lines|) && k <= |p| && k <= |q|
    ensures forall i :: 0 <= i < k ==> p[i] == q[i]
  {
    hide Parsed;
    if k > 0 {
      FirstBlocksAgree(lines, p, q, k - 1);
      NextBlockAgrees(lines, p, q, k - 1);
    }
  }

  /** A list of lines has one parse: the blocks' kinds, ranges and contents are all determined. */
  lemma ParseIsUnique(lines: seq<string>, p: seq<Block>, q: seq<Block>)
    requires Parsed(lines, p, |lines|) && Parsed(lines, q, |lines|)
    ensures p == q
  {
    hide Parsed;
    FirstBlocksAgree(lines, p, q, if |p| < |q| then |p| else |q|);
    if |p| < |q| { NoMoreBlocks(lines, p, q); }
    if |q| < |p| { NoMoreBlocks(lines, q, p); }
  }

  lemma NoMoreBlocks(lines: seq<string>, p: seq<Block>, q: seq<Block>)
    requires Parsed(lines, p, |lines|) && Parsed(lines, q, |lines|)
    requires |p| <= |q| && forall i :: 0 <= i < |p| ==> p[i] == q[i]
    ensures |p| == |q|
  {
    if |p| < |q| {
      OrderOf(lines, q, |p|);
      hide RightBlock, KindAt, Blank, InOrder, Covered;
      StartIsNoGap(lines, q[|p|]);
      BetweenAreGaps(lines, p, |p|, q[|p|].lo);
    }
  }

  // ---------------------------------------------------------------------------------------
  // Paragraphs
  // ---------------------------------------------------------------------------------------

  /** No line of a paragraph starts another kind of block. */
  lemma ParagraphStartsNothingElse(lines: seq<string>, b: Block, k: nat)
    requires RightBlock(lines, b) && b.content.Paragraph? && b.lo <= k < b.hi
    ensures KindAt(lines, k) == ParagraphKind
  {
    if k > b.lo { assert Continues(lines, ParagraphKind, k); }
  }

  /** A paragraph ends at the end, at a gap or at another kind of block, except before a line that opens like a heading
      and is none because a line or paragraph separator follows in it. */
  lemma ParagraphEnd(lines: seq<string>, b: Block)
    requires RightBlock(lines, b) && b.content.Paragraph? && b.hi < |lines|
    ensures KindAt(lines, b.hi) == ParagraphKind
            <==> HashStart(lines[b.hi]) && !IsHeading(lines[b.hi]) && !TableStart(lines, b.hi)
  {
    hide IsSeparator, RunOf;
    if HashStart(lines[b.hi]) {
      HashStartIsNothingElse(lines[b.hi]);
    }
  }

  lemma HashStartIsNothingElse(line: string)
    requires HashStart(line)
    ensures !IsQuote(line) && !IsItem(line) && !Blank(line)
  {
  }

  // ---------------------------------------------------------------------------------------
  // The view
  // ---------------------------------------------------------------------------------------

  function WithoutReturns(s: string): (r: string)
    ensures '\r' !in r
  {
    if s == "" then "" else (if s[0] == '\r' then "" else [s[0]]) + WithoutReturns(s[1..])
  }

  /** Nothing but carriage returns is taken out. */
  lemma {:induction false} ReturnsAreCut(s: string)
    ensures WithoutReturns(s) == Concat(Split('\r', s))
  {
    if s == "" {
      assert [""][..0] == [] && "" + "" == "";
    } else {
      var pieces := Split('\r', s[1..]);
      var first, rest := pieces[0], pieces[1..];
      ReturnsAreCut(s[1..]);
      assert pieces == [first] + rest;
      ConcatPrepends(first, rest);
      if s[0] == '\r' {
        ConcatPrepends("", pieces);
      } else {
        ConcatPrepends([s[0]] + first, rest);
        assert [s[0]] + first + Concat(rest) == [s[0]] + (first + Concat(rest));
      }
    }
  }

  /** Every paragraph of the view shows exactly its lines. */
  predicate ParagraphsAreLines(lines: seq<string>, blocks: seq<Block>)
    requires Parsed(lines, blocks, |lines|)
  {
    forall k :: 0 <= k < |blocks| && blocks[k].content.Paragraph? ==>
      BlockInRange(lines, blocks[k]) && Split('\n', blocks[k].content.text) == lines[blocks[k].lo..blocks[k].hi]
  }

  predicate BlockInRange(lines: seq<string>, b: Block) {
    b.lo < b.hi <= |lines|
  }

  method MarkdownView(text: string) returns (blocks: seq<Block>)
    ensures Parsed(Split('\n', WithoutReturns(text)), blocks, |Split('\n', WithoutReturns(text))|)
    ensures ParagraphsAreLines(Split('\n', WithoutReturns(text)), blocks)
  {
    var lines := Split('\n', WithoutReturns(text));
    blocks := ParseBlocks(lines);
    PiecesHoldNoSeparator('\n', WithoutReturns(text));
    forall k | 0 <= k < |blocks| && blocks[k].content.Paragraph?
      ensures BlockInRange(lines, blocks[k]) && Split('\n', blocks[k].content.text) == lines[blocks[k].lo..blocks[k].hi]
    {
      ParagraphIsLines(lines, blocks[k]);
    }
  }

  lemma ParagraphIsLines(lines: seq<string>, b: Block)
    requires RightBlock(lines, b) && b.content.Paragraph?
    requires forall k :: 0 <= k < |lines| ==> '\n' !in lines[k]
    ensures BlockInRange(lines, b) && Split('\n', b.content.text) == lines[b.lo..b.hi]
  {
    hide KindAt, AllContinue, Continues, Split, Join;
    JoinSplits('\n', lines[b.lo..b.hi]);
  }
}
