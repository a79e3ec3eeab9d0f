/** Strings as the front end sees them: white space, trimming and splitting into lines. */
module Text {

  /** The characters that `trim` removes and `\s` matches. */
  predicate IsSpace(c: char) {
    || c in "\t\n\r " || c == '\U{000B}' || c == '\U{000C}' || c == '\U{00A0}' || c == '\U{1680}'
    || '\U{2000}' <= c <= '\U{200A}' || c == '\U{2028}' || c == '\U{2029}' || c == '\U{202F}' || c == '\U{205F}'
    || c == '\U{3000}' || c == '\U{FEFF}'
  }

  function TrimStart(s: string): (t: string)
    ensures |t| <= |s| && t == s[|s| - |t|..]
    ensures t != "" ==> !IsSpace(t[0])
    ensures forall k :: 0 <= k < |s| - |t| ==> IsSpace(s[k])
  {
    if s != "" && IsSpace(s[0]) then TrimStart(s[1..]) else s
  }

  function TrimEnd(s: string): (t: string)
    ensures t <= s
    ensures t != "" ==> !IsSpace(t[|t| - 1])
    ensures forall k :: |t| <= k < |s| ==> IsSpace(s[k])
  {
    if s != "" && IsSpace(s[|s| - 1]) then TrimEnd(s[..|s| - 1]) else s
  }

  function Trim(s: string): string {
    TrimEnd(TrimStart(s))
  }

  /** A text is some space, its trimmed part, and some space; the trimmed part begins and ends with something else. */
  lemma TrimIsMiddle(s: string) returns (front: string, back: string)
    ensures s == front + Trim(s) + back && Blank(front) && Blank(back)
    ensures Trim(s) != "" ==> !IsSpace(Trim(s)[0]) && !IsSpace(Trim(s)[|Trim(s)| - 1])
  {
    hide TrimStart, TrimEnd, IsSpace;
    var t := TrimStart(s);
    front, back := s[..|s| - |t|], t[|Trim(s)|..];
    assert s == front + t && t == Trim(s) + back;
    assert front + (Trim(s) + back) == front + Trim(s) + back;
  }

  predicate Blank(s: string) {
    forall k :: 0 <= k < |s| ==> IsSpace(s[k])
  }

  lemma BlankIffTrimmedAway(s: string)
    ensures Blank(s) <==> Trim(s) == ""
  {
  }

  /** Trimming does not see a space character appended at the end. */
  lemma TrimAppended(s: string, c: char)
    requires IsSpace(c)
    ensures Trim(s + [c]) == Trim(s)
  {
    TrimStartAppended(s, c);
    var t := TrimStart(s);
    if t != "" {
      assert (t + [c])[..|t + [c]| - 1] == t;
    }
  }

  lemma {:induction false} TrimStartAppended(s: string, c: char)
    requires IsSpace(c)
    ensures TrimStart(s + [c]) == if TrimStart(s) == "" then "" else TrimStart(s) + [c]
  {
    if s == "" {
      assert (s + [c])[1..] == "";
    } else if IsSpace(s[0]) {
      assert (s + [c])[1..] == s[1..] + [c];
      TrimStartAppended(s[1..], c);
    }
  }

  // ---------------------------------------------------------------------------------------
  // Splitting
  // ---------------------------------------------------------------------------------------

  /** A character in front of a text: a separator ends an empty piece, anything else joins the first piece. */
  function Prepend(sep: char, c: char, pieces: seq<string>): (r: seq<string>)
    requires |pieces| > 0
    ensures |r| > 0
  {
    if c == sep then [""] + pieces else [[c] + pieces[0]] + pieces[1..]
  }

  /** The pieces between separators. */
  function Split(sep: char, s: string): (pieces: seq<string>)
    ensures |pieces| > 0
  {
    if s == "" then [""] else Prepend(sep, s[0], Split(sep, s[1..]))
  }

  /** The last piece of one list and the first of the next become one. */
  function Glue(p: seq<string>, q: seq<string>): (r: seq<string>)
    requires |p| > 0 && |q| > 0
    ensures |r| > 0
  {
    p[..|p| - 1] + [p[|p| - 1] + q[0]] + q[1..]
  }

  lemma GluePrepended(sep: char, c: char, p: seq<string>, q: seq<string>)
    requires |p| > 0 && |q| > 0
    ensures Glue(Prepend(sep, c, p), q) == Prepend(sep, c, Glue(p, q))
  {
    var n := |p| - 1;
    var last, tail := p[n] + q[0], q[1..];
    if c == sep {
      assert ([""] + p)[..|p|] == [""] + p[..n];
      assert [""] + p[..n] + [last] + tail == [""] + (p[..n] + [last] + tail);
    } else if n == 0 {
      GlueOne(c, p[0], q);
      assert p == [p[0]];
    } else {
      GlueMany(c, p, q);
    }
  }

  lemma GlueOne(c: char, piece: string, q: seq<string>)
    requires |q| > 0
    ensures Glue([[c] + piece], q) == [[c] + Glue([piece], q)[0]] + Glue([piece], q)[1..]
  {
    assert [c] + piece + q[0] == [c] + (piece + q[0]);
    assert [[c] + piece][..0] == [] && [piece][..0] == [];
    assert [] + [piece + q[0]] + q[1..] == [piece + q[0]] + q[1..];
  }

  lemma GlueMany(c: char, p: seq<string>, q: seq<string>)
    requires |p| > 1 && |q| > 0
    ensures Glue([[c] + p[0]] + p[1..], q) == [[c] + Glue(p, q)[0]] + Glue(p, q)[1..]
  {
  }

  /** Cutting a text anywhere glues the last piece before the cut to the first one after it. */
  lemma {:induction false} SplitOfConcat(sep: char, a: string, b: string)
    ensures Split(sep, a + b) == Glue(Split(sep, a), Split(sep, b))
  {
    if a == "" {
      assert a + b == b && "" + Split(sep, b)[0] == Split(sep, b)[0];
    } else {
      assert (a + b)[0] == a[0] && (a + b)[1..] == a[1..] + b;
      SplitOfConcat(sep, a[1..], b);
      GluePrepended(sep, a[0], Split(sep, a[1..]), Split(sep, b));
    }
  }

  lemma {:induction false} PiecesHoldNoSeparator(sep: char, s: string)
    ensures forall k :: 0 <= k < |Split(sep, s)| ==> sep !in Split(sep, s)[k]
  {
    if s != "" {
      PiecesHoldNoSeparator(sep, s[1..]);
    }
  }

  lemma {:induction false} UnseparatedIsOnePiece(sep: char, s: string)
    requires sep !in s
    ensures Split(sep, s) == [s]
  {
    if s != "" {
      UnseparatedIsOnePiece(sep, s[1..]);
      assert [s[0]] + s[1..] == s;
    }
  }

  function Join(pieces: seq<string>, sep: char): string {
    if pieces == [] then ""
    else if |pieces| == 1 then pieces[0]
    else pieces[0] + [sep] + Join(pieces[1..], sep)
  }

  /** Taking the first piece off. */
  lemma FirstPiece(sep: char, piece: string, rest: string)
    requires sep !in piece
    ensures Split(sep, piece + [sep] + rest) == [piece] + Split(sep, rest)
  {
    assert piece + [sep] + rest == piece + ([sep] + rest);
    SplitOfConcat(sep, piece, [sep] + rest);
    UnseparatedIsOnePiece(sep, piece);
    assert ([sep] + rest)[1..] == rest;
    assert piece + "" == piece;
  }

  /** Splitting undoes joining. */
  lemma {:induction false} JoinSplits(sep: char, pieces: seq<string>)
    requires pieces != [] && forall k :: 0 <= k < |pieces| ==> sep !in pieces[k]
    ensures Split(sep, Join(pieces, sep)) == pieces
  {
    if |pieces| == 1 {
      UnseparatedIsOnePiece(sep, pieces[0]);
    } else {
      JoinSplits(sep, pieces[1..]);
      FirstPiece(sep, pieces[0], Join(pieces[1..], sep));
      assert pieces == [pieces[0]] + pieces[1..];
    }
  }

  /** Joining undoes splitting. */
  lemma {:induction false} SplitJoins(sep: char, s: string)
    ensures Join(Split(sep, s), sep) == s
  {
    if s != "" {
      var rest := Split(sep, s[1..]);
      SplitJoins(sep, s[1..]);
      assert s == [s[0]] + s[1..];
      if s[0] == sep {
        assert ([""] + rest)[1..] == rest;
      } else if |rest| > 1 {
        assert ([[s[0]] + rest[0]] + rest[1..])[1..] == rest[1..];
        assert [s[0]] + rest[0] + [sep] + Join(rest[1..], sep) == [s[0]] + (rest[0] + [sep] + Join(rest[1..], sep));
      }
    }
  }

  function Concat(chunks: seq<string>): string {
    if chunks == [] then "" else Concat(chunks[..|chunks| - 1]) + chunks[|chunks| - 1]
  }

  lemma {:induction false} ConcatPrepends(first: string, pieces: seq<string>)
    ensures Concat([first] + pieces) == first + Concat(pieces)
  {
    if pieces == [] {
      assert [first][..0] == [] && "" + first == first + "";
    } else {
      var n := |pieces| - 1;
      ConcatPrepends(first, pieces[..n]);
      assert ([first] + pieces)[..n + 1] == [first] + pieces[..n];
      assert first + Concat(pieces[..n]) + pieces[n] == first + (Concat(pieces[..n]) + pieces[n]);
    }
  }

  // ---------------------------------------------------------------------------------------
  // Lines
  // ---------------------------------------------------------------------------------------

  /** The lines that a line feed has ended. */
  function Terminated(s: string): seq<string> {
    Split('\n', s)[..|Split('\n', s)| - 1]
  }

  /** What no line feed has ended. */
  function Rest(s: string): string {
    Split('\n', s)[|Split('\n', s)| - 1]
  }
}
