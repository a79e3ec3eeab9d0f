/** The inline parser of the answer renderer: bold, code and italics inside a line. */
module MarkdownInline {

  /** `**`, `__`, a backtick, or `*`. */
  datatype Mark = Stars | Unders | Tick | Star

  datatype Piece = Plain(text: string) | Marked(mark: Mark, text: string)

  function Delimiter(mark: Mark): (d: string)
    ensures 1 <= |d| <= 2 && forall k :: 0 <= k < |d| ==> d[k] == MarkChar(mark)
  {
    match mark
    case Stars => "**"
    case Unders => "__"
    case Tick => "`"
    case Star => "*"
  }

  function MarkChar(mark: Mark): char {
    match mark
    case Stars => '*'
    case Unders => '_'
    case Tick => '`'
    case Star => '*'
  }

  function RunWithout(c: char, s: string): (n: nat)
    ensures n <= |s| && c !in s[..n]
    ensures n < |s| ==> s[n] == c
  {
    if s == "" || s[0] == c then 0
    else
      var n := RunWithout(c, s[1..]);
      assert s[..n + 1] == [s[0]] + s[1..][..n];
      1 + n
  }

  /** The length of the text between the delimiters of a mark at the start of `s`, or 0 if there is no such match. */
  function Inner(mark: Mark, s: string): (n: nat)
    ensures n > 0 ==> n + 2 * |Delimiter(mark)| <= |s|
  {
    var d := Delimiter(mark);
    if d <= s then
      var n := RunWithout(MarkChar(mark), s[|d|..]);
      if n > 0 && d <= s[|d| + n..] then n else 0
    else 0
  }

  /** A match of an alternative of `\*\*([^*]+)\*\*|__([^_]+)__|`([^`]+)`|\*([^*]+)\*` at the start. */
  ghost predicate Matches(mark: Mark, s: string, inner: string) {
    inner != "" &&
    match mark
    case Stars => '*' !in inner && "**" + inner + "**" <= s
    case Unders => '_' !in inner && "__" + inner + "__" <= s
    case Tick => '`' !in inner && "`" + inner + "`" <= s
    case Star => '*' !in inner && "*" + inner + "*" <= s
  }

  lemma MatchesDelimited(mark: Mark, s: string, inner: string)
    ensures Matches(mark, s, inner)
            <==> inner != "" && MarkChar(mark) !in inner && Delimiter(mark) + inner + Delimiter(mark) <= s
  {
  }

  lemma InnerMatches(mark: Mark, s: string)
    requires Inner(mark, s) > 0
    ensures Matches(mark, s, s[|Delimiter(mark)|..][..Inner(mark, s)])
  {
    MatchesDelimited(mark, s, s[|Delimiter(mark)|..][..Inner(mark, s)]);
    hide Matches;
  }

  lemma {:induction false} RunIsInner(c: char, inner: string, rest: string)
    requires c !in inner && rest != "" && rest[0] == c
    ensures RunWithout(c, inner + rest) == |inner|
  {
    if inner == "" {
      assert inner + rest == rest;
    } else {
      assert (inner + rest)[1..] == inner[1..] + rest;
      RunIsInner(c, inner[1..], rest);
    }
  }

  /** The scan finds exactly what the pattern matches, and the text inside is determined. */
  lemma MatchIsInner(mark: Mark, s: string, inner: string)
    requires Matches(mark, s, inner)
    ensures Inner(mark, s) == |inner| && s[|Delimiter(mark)|..][..|inner|] == inner
  {
    MatchesDelimited(mark, s, inner);
    hide Matches;
    var d := Delimiter(mark);
    var all := d + inner + d;
    var rest := s[|all|..];
    assert s == all + rest;
    assert s[|d|..] == inner + (d + rest);
    RunIsInner(MarkChar(mark), inner, d + rest);
    assert s[|d| + |inner|..] == d + rest;
  }

  lemma InnerIff(mark: Mark, s: string)
    ensures Inner(mark, s) > 0 <==> exists inner :: Matches(mark, s, inner)
  {
    if Inner(mark, s) > 0 { InnerMatches(mark, s); }
    if exists inner :: Matches(mark, s, inner) {
      var inner :| Matches(mark, s, inner);
      MatchIsInner(mark, s, inner);
    }
  }

  datatype Found = Nothing | Found(mark: Mark, length: nat)

  /** The first alternative that matches at the start. */
  function MatchAt(s: string): (found: Found)
    ensures found.Found? ==> found.length == Inner(found.mark, s) > 0
  {
    if Inner(Stars, s) > 0 then Found(Stars, Inner(Stars, s))
    else if Inner(Unders, s) > 0 then Found(Unders, Inner(Unders, s))
    else if Inner(Tick, s) > 0 then Found(Tick, Inner(Tick, s))
    else if Inner(Star, s) > 0 then Found(Star, Inner(Star, s))
    else Nothing
  }

  /** Something is found exactly where the regular expression matches, and what is found is its match. */
  lemma MatchAtIff(s: string)
    ensures MatchAt(s).Found? <==> exists mark, inner :: Matches(mark, s, inner)
    ensures MatchAt(s).Found? ==>
              exists inner :: |inner| == MatchAt(s).length && Matches(MatchAt(s).mark, s, inner)
  {
    hide Inner, Matches;
    var found := MatchAt(s);
    if found.Found? {
      InnerMatches(found.mark, s);
      assert |s[|Delimiter(found.mark)|..][..Inner(found.mark, s)]| == found.length;
    }
    if exists mark, inner :: Matches(mark, s, inner) {
      var mark, inner :| Matches(mark, s, inner);
      MatchIsInner(mark, s, inner);
      NotEmpty(mark, s, inner);
    }
  }

  lemma NotEmpty(mark: Mark, s: string, inner: string)
    requires Matches(mark, s, inner)
    ensures inner != ""
  {
  }

  /** The leftmost position with a match, or the length of the text. */
  function FirstMatch(s: string): (i: nat)
    ensures i <= |s|
  {
    if s == "" || MatchAt(s).Found? then 0 else 1 + FirstMatch(s[1..])
  }

  lemma {:induction false} FirstMatchIsLeftmost(s: string)
    ensures forall k :: 0 <= k < FirstMatch(s) ==> MatchAt(s[k..]).Nothing?
    ensures FirstMatch(s) < |s| ==> MatchAt(s[FirstMatch(s)..]).Found?
  {
    hide MatchAt;
    assert s[0..] == s;
    if s != "" && MatchAt(s).Nothing? {
      FirstMatchIsLeftmost(s[1..]);
      assert s[1..][FirstMatch(s) - 1..] == s[FirstMatch(s)..];
      forall k | 0 <= k < FirstMatch(s) ensures MatchAt(s[k..]).Nothing? {
        if k > 0 { assert s[1..][k - 1..] == s[k..]; }
      }
    }
  }

  // ---------------------------------------------------------------------------------------
  // Pieces
  // ---------------------------------------------------------------------------------------

  /** A piece with its delimiters restored. */
  function Source(piece: Piece): string {
    match piece
    case Plain(text) => text
    case Marked(Stars, text) => "**" + text + "**"
    case Marked(Unders, text) => "__" + text + "__"
    case Marked(Tick, text) => "`" + text + "`"
    case Marked(Star, text) => "*" + text + "*"
  }

  lemma SourceDelimited(mark: Mark, text: string)
    ensures Source(Marked(mark, text)) == Delimiter(mark) + text + Delimiter(mark)
  {
  }

  function Sources(pieces: seq<Piece>): string {
    if pieces == [] then "" else Source(pieces[0]) + Sources(pieces[1..])
  }

  /** What the text after `s` must begin with: nothing, or the match that ended a plain piece. */
  predicate PlainUntilMatch(text: string, s: string) {
    && text != "" && text <= s
    && (forall k :: 0 <= k < |text| ==> MatchAt(s[k..]).Nothing?)
    && (|text| < |s| ==> MatchAt(s[|text|..]).Found?)
  }

  predicate RightPiece(s: string, piece: Piece) {
    match piece
    case Plain(text) => PlainUntilMatch(text, s)
    case Marked(mark, text) => MatchAt(s) == Found(mark, |text|)
  }

  /** Reading from the left: plain text up to the leftmost match, then the first alternative that matches there. */
  predicate Cut(s: string, pieces: seq<Piece>)
    decreases |pieces|
  {
    if pieces == [] then s == ""
    else
      && Source(pieces[0]) != "" && Source(pieces[0]) <= s
      && RightPiece(s, pieces[0])
      && Cut(s[|Source(pieces[0])|..], pieces[1..])
  }

  lemma {:induction false} CutIsWhole(s: string, pieces: seq<Piece>)
    requires Cut(s, pieces)
    ensures Sources(pieces) == s
  {
    hide Source, RightPiece;
    if pieces != [] {
      assert s == s[..|Source(pieces[0])|] + s[|Source(pieces[0])|..];
      CutIsWhole(s[|Source(pieces[0])|..], pieces[1..]);
    }
  }

  lemma {:induction false} CutIsUnique(s: string, p: seq<Piece>, q: seq<Piece>)
    requires Cut(s, p) && Cut(s, q)
    ensures p == q
    decreases |p|
  {
    hide MatchAt;
    if p != [] && q != [] {
      SameFirstPiece(s, p[0], q[0], p[1..], q[1..]);
      CutIsUnique(s[|Source(p[0])|..], p[1..], q[1..]);
      assert p == [p[0]] + p[1..] && q == [q[0]] + q[1..];
    }
  }

  lemma SameFirstPiece(s: string, a: Piece, b: Piece, p: seq<Piece>, q: seq<Piece>)
    requires Cut(s, [a] + p) && Cut(s, [b] + q)
    ensures a == b
  {
    hide MatchAt;
    assert ([a] + p)[0] == a && ([b] + q)[0] == b;
    if a.Plain? { PlainIsUnmatched(a.text, s); } else { MarkedText(s, a.mark, a.text); }
    if b.Plain? { PlainIsUnmatched(b.text, s); } else { MarkedText(s, b.mark, b.text); }
    if a.Plain? && b.Plain? { SamePlain(s, a.text, b.text); }
  }

  lemma PlainIsUnmatched(text: string, s: string)
    requires PlainUntilMatch(text, s)
    ensures MatchAt(s).Nothing?
  {
    hide MatchAt;
    assert s[0..] == s;
  }

  lemma SamePlain(s: string, x: string, y: string)
    requires PlainUntilMatch(x, s) && PlainUntilMatch(y, s)
    ensures x == y
  {
  }

  lemma MarkedText(s: string, mark: Mark, text: string)
    requires Source(Marked(mark, text)) <= s
    ensures text == s[|Delimiter(mark)|..][..|text|]
  {
  }

  lemma CutRest(s: string)
    requires s != "" && FirstMatch(s) == |s|
    ensures Cut(s, [Plain(s)])
  {
    FirstMatchIsLeftmost(s);
    hide MatchAt;
    assert [Plain(s)][1..] == [] && s[|s|..] == "";
  }

  /** A piece that is right in front of a cut rest. */
  lemma ConsCut(s: string, piece: Piece, tail: seq<Piece>)
    requires Source(piece) != "" && Source(piece) <= s && Cut(s[|Source(piece)|..], tail)
    requires RightPiece(s, piece)
    ensures Cut(s, [piece] + tail)
  {
    hide Source, RightPiece;
    assert ([piece] + tail)[0] == piece && ([piece] + tail)[1..] == tail;
  }

  lemma CutNothing()
    ensures Cut("", [])
  {
  }

  lemma CutPlain(s: string, tail: seq<Piece>)
    requires 0 < FirstMatch(s) < |s| && Cut(s[FirstMatch(s)..], tail)
    ensures Cut(s, [Plain(s[..FirstMatch(s)])] + tail)
  {
    var i := FirstMatch(s);
    FirstMatchIsLeftmost(s);
    hide MatchAt, FirstMatch;
    ConsCut(s, Plain(s[..i]), tail);
  }

  /** What the marked piece at the start covers. */
  lemma MarkedIsPrefix(s: string, found: Found)
    requires found == MatchAt(s) && found.Found?
    ensures var d := |Delimiter(found.mark)|;
            && found.length > 0 && 2 * d + found.length <= |s|
            && Source(Marked(found.mark, s[d..][..found.length])) == s[..2 * d + found.length]
  {
    hide Source, Delimiter, Matches, Inner;
    var d, inner := Delimiter(found.mark), s[|Delimiter(found.mark)|..][..found.length];
    InnerMatches(found.mark, s);
    MatchesDelimited(found.mark, s, inner);
    SourceDelimited(found.mark, inner);
    assert d + inner + d == s[..|d + inner + d|];
  }

  lemma CutMarked(s: string, found: Found, tail: seq<Piece>)
    requires found == MatchAt(s) && found.Found?
    requires 2 * |Delimiter(found.mark)| + found.length <= |s|
             && Cut(s[2 * |Delimiter(found.mark)| + found.length..], tail)
    ensures Cut(s, [Marked(found.mark, s[|Delimiter(found.mark)|..][..found.length])] + tail)
  {
    hide MatchAt, Inner, Delimiter, Source, Cut;
    MarkedIsPrefix(s, found);
    ConsCut(s, Marked(found.mark, s[|Delimiter(found.mark)|..][..found.length]), tail);
  }

  /** One turn of the loop: the plain text before the leftmost match, if any, and the match. */
  lemma CutBoth(s: string, found: Found, tail: seq<Piece>)
    requires FirstMatch(s) < |s| && found == MatchAt(s[FirstMatch(s)..]) && found.Found?
    requires FirstMatch(s) + 2 * |Delimiter(found.mark)| + found.length <= |s|
    requires Cut(s[FirstMatch(s) + 2 * |Delimiter(found.mark)| + found.length..], tail)
    ensures var i, d := FirstMatch(s), |Delimiter(found.mark)|;
            Cut(s, (if i > 0 then [Plain(s[..i])] else []) + [Marked(found.mark, s[i..][d..][..found.length])] + tail)
  {
    hide MatchAt, Inner, Delimiter, Cut;
    FirstMatchIsLeftmost(s);
    var i, d := FirstMatch(s), |Delimiter(found.mark)|;
    assert s[i..][2 * d + found.length..] == s[i + 2 * d + found.length..];
    CutMarked(s[i..], found, tail);
    var marked := [Marked(found.mark, s[i..][d..][..found.length])];
    if i > 0 {
      CutPlain(s, marked + tail);
      assert [Plain(s[..i])] + (marked + tail) == [Plain(s[..i])] + marked + tail;
    } else {
      assert s[0..] == s && [] + marked + tail == marked + tail;
    }
  }

  /** The inline loop. */
  method Inline(text: string) returns (nodes: seq<Piece>)
    ensures Cut(text, nodes)
  {
    hide *;
    nodes := [];
    var rest := text;
    CutNothing();
    NothingBefore(text);
    while rest != ""
      invariant Leads(text, nodes, rest)
      decreases |rest|
    {
      var i := FirstMatch(rest);
      if i == |rest| {
        CutRest(rest);
        LeadsTo(text, nodes, rest, [Plain(rest)]);
        nodes := nodes + [Plain(rest)];
        return;
      }
      FirstMatchIsLeftmost(rest);
      var found := MatchAt(rest[i..]);
      MarkedIsPrefix(rest[i..], found);
      OneTurn(text, nodes, rest, found);
      var d := |Delimiter(found.mark)|;
      if i > 0 { nodes := nodes + [Plain(rest[..i])]; }
      nodes := nodes + [Marked(found.mark, rest[i..][d..][..found.length])];
      rest := rest[i + 2 * d + found.length..];
    }
    LeadsTo(text, nodes, rest, []);
    assert nodes + [] == nodes;
  }

  /** What is left can be cut in any right way to complete the pieces found. */
  ghost predicate Leads(text: string, nodes: seq<Piece>, rest: string) {
    forall tail :: Cut(rest, tail) ==> Cut(text, nodes + tail)
  }

  lemma LeadsTo(text: string, nodes: seq<Piece>, rest: string, tail: seq<Piece>)
    requires Leads(text, nodes, rest) && Cut(rest, tail)
    ensures Cut(text, nodes + tail)
  {
  }

  lemma NothingBefore(text: string)
    ensures Leads(text, [], text)
  {
    hide Cut;
    assert forall tail: seq<Piece> :: [] + tail == tail;
  }

  lemma OneTurn(text: string, nodes: seq<Piece>, rest: string, found: Found)
    requires Leads(text, nodes, rest)
    requires FirstMatch(rest) < |rest| && found == MatchAt(rest[FirstMatch(rest)..]) && found.Found?
    requires FirstMatch(rest) + 2 * |Delimiter(found.mark)| + found.length <= |rest|
    ensures var i, d := FirstMatch(rest), |Delimiter(found.mark)|;
            var grown := if i > 0 then nodes + [Plain(rest[..i])] else nodes;
            Leads(text, grown + [Marked(found.mark, rest[i..][d..][..found.length])], rest[i + 2 * d + found.length..])
  {
    hide *;
    var i, d := FirstMatch(rest), |Delimiter(found.mark)|;
    var plain := if i > 0 then [Plain(rest[..i])] else [];
    var marked := [Marked(found.mark, rest[i..][d..][..found.length])];
    var after := rest[i + 2 * d + found.length..];
    forall tail | Cut(after, tail) ensures Cut(rest, plain + marked + tail) {
      CutBoth(rest, found, tail);
    }
    LeadsOn(text, nodes, rest, plain + marked, after);
    assert nodes + (plain + marked) == (if i > 0 then nodes + plain else nodes) + marked;
  }

  lemma LeadsOn(text: string, nodes: seq<Piece>, rest: string, pieces: seq<Piece>, after: string)
    requires Leads(text, nodes, rest) && forall tail :: Cut(after, tail) ==> Cut(rest, pieces + tail)
    ensures Leads(text, nodes + pieces, after)
  {
    hide Cut;
    forall tail | Cut(after, tail) ensures Cut(text, nodes + pieces + tail) {
      assert nodes + (pieces + tail) == nodes + pieces + tail;
    }
  }
}
