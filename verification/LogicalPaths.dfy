/** What the logical paths of a catalogue mean, said of their characters. */
module LogicalPaths {
  import opened Text
  import opened Editions

  /** A maximal stretch without separators. */
  predicate IsPiece(sep: char, s: string, i: nat, j: nat) {
    && i <= j <= |s| && sep !in s[i..j]
    && (i == 0 || s[i - 1] == sep)
    && (j == |s| || s[j] == sep)
  }

  ghost predicate HasPiece(sep: char, s: string, piece: string) {
    exists i: nat, j: nat :: IsPiece(sep, s, i, j) && s[i..j] == piece
  }

  /** How the first piece ends. */
  lemma FirstEnds(sep: char, s: string) returns (n: nat)
    ensures n <= |s| && sep !in s[..n] && (n == |s| || s[n] == sep)
  {
    n := 0;
    while n < |s| && s[n] != sep
      invariant n <= |s| && sep !in s[..n]
    {
      assert s[..n + 1] == s[..n] + [s[n]];
      n := n + 1;
    }
  }

  lemma PieceBehind(sep: char, s: string, n: nat, piece: string)
    requires n < |s| && sep !in s[..n] && s[n] == sep
    ensures HasPiece(sep, s, piece) <==> piece == s[..n] || HasPiece(sep, s[n + 1..], piece)
  {
    var rest := s[n + 1..];
    if HasPiece(sep, s, piece) {
      var i: nat, j: nat :| IsPiece(sep, s, i, j) && s[i..j] == piece;
      if i > n {
        assert rest[i - n - 1..j - n - 1] == s[i..j];
        assert IsPiece(sep, rest, i - n - 1, j - n - 1);
      } else {
        assert forall k :: 0 <= k < n ==> s[k] == s[..n][k];
        assert i == 0 && s[i..j] == s[..j] && forall k :: 0 <= k < j ==> s[..j][k] == s[k];
      }
    }
    if piece == s[..n] { assert IsPiece(sep, s, 0, n) && s[0..n] == piece; }
    if HasPiece(sep, rest, piece) {
      var i: nat, j: nat :| IsPiece(sep, rest, i, j) && rest[i..j] == piece;
      assert s[n + 1 + i..n + 1 + j] == rest[i..j];
      assert IsPiece(sep, s, n + 1 + i, n + 1 + j);
    }
  }

  lemma OnePiece(sep: char, s: string, piece: string)
    requires sep !in s
    ensures HasPiece(sep, s, piece) <==> piece == s
  {
    if HasPiece(sep, s, piece) {
      var i: nat, j: nat :| IsPiece(sep, s, i, j) && s[i..j] == piece;
      assert i == 0 && j == |s|;
    }
    assert s[0..|s|] == s && IsPiece(sep, s, 0, |s|);
  }

  /** Splitting a text finds exactly its pieces. */
  lemma {:induction false} SplitIff(sep: char, s: string, piece: string)
    ensures piece in Split(sep, s) <==> HasPiece(sep, s, piece)
    decreases |s|
  {
    hide HasPiece;
    var n := FirstEnds(sep, s);
    if n == |s| {
      assert s[..n] == s;
      UnseparatedIsOnePiece(sep, s);
      OnePiece(sep, s, piece);
    } else {
      assert s == s[..n] + [sep] + s[n + 1..];
      FirstPiece(sep, s[..n], s[n + 1..]);
      SplitIff(sep, s[n + 1..], piece);
      PieceBehind(sep, s, n, piece);
    }
  }

  lemma {:induction false} NamedIff(parts: seq<string>, part: string)
    ensures part in Named(parts) <==> part in parts && part != "" && part != "."
  {
    if parts != [] { NamedIff(parts[1..], part); }
  }

  lemma {:induction false} NamedAppends(a: seq<string>, b: seq<string>)
    ensures Named(a + b) == Named(a) + Named(b)
  {
    if a == [] {
      assert a + b == b;
    } else {
      assert (a + b)[1..] == a[1..] + b;
      NamedAppends(a[1..], b);
    }
  }

  /** A path is refused exactly if it starts at the root, holds a backslash, or has two dots between separators. */
  lemma UnsafeIff(s: string)
    ensures Unsafe(s) <==> (exists rest :: s == "/" + rest) || '\\' in s || HasPiece('/', s, "..")
  {
    NamedIff(Split('/', s), "..");
    SplitIff('/', s, "..");
    if s != "" && s[0] == '/' { assert s == "/" + s[1..]; }
  }

  /** A name is itself, and an empty text and a single dot are nothing. */
  lemma NormalOfName(s: string)
    requires '/' !in s
    ensures Normal(s) == if s == "" || s == "." then [] else [s]
  {
    UnseparatedIsOnePiece('/', s);
    assert [s][1..] == [] && Named([]) == [] && Named([s]) == if s == "" || s == "." then [] else [s] + [];
  }

  /** A path of paths is one after the other. */
  lemma NormalOfPath(a: string, b: string)
    ensures Normal(a + "/" + b) == Normal(a) + Normal(b)
  {
    hide *;
    SplitAtSlash(a, b);
    NamedAppends(Split('/', a), Split('/', b));
    NormalIsNamed(a);
    NormalIsNamed(b);
    NormalIsNamed(a + "/" + b);
  }

  lemma NormalIsNamed(s: string)
    ensures Normal(s) == Named(Split('/', s))
  {
  }

  lemma SplitAtSlash(a: string, b: string)
    ensures Split('/', a + "/" + b) == Split('/', a) + Split('/', b)
  {
    assert "/"[1..] == "" && Split('/', "/") == ["", ""];
    hide Split;
    SplitOfConcat('/', a + "/", b);
    SplitOfConcat('/', a, "/");
    var pieces, others := Split('/', a), Split('/', b);
    EmptyLast(pieces, others);
  }

  lemma EmptyLast(pieces: seq<string>, others: seq<string>)
    requires pieces != [] && others != []
    ensures Glue(pieces, ["", ""]) == pieces + [""] && Glue(pieces + [""], others) == pieces + others
  {
    var n := |pieces| - 1;
    assert pieces[n] + "" == pieces[n] && pieces[..n] + [pieces[n]] == pieces;
    assert (pieces + [""])[..|pieces|] == pieces && "" + others[0] == others[0];
    assert [others[0]] + others[1..] == others;
  }

  /** A path that is not refused names only places below where it starts. */
  lemma SafeStaysBelow(s: string)
    requires !Unsafe(s)
    ensures forall k :: 0 <= k < |Normal(s)| ==>
              Normal(s)[k] != "" && Normal(s)[k] != "." && Normal(s)[k] != ".." && '/' !in Normal(s)[k]
  {
    PiecesHoldNoSeparator('/', s);
    forall k | 0 <= k < |Normal(s)| ensures '/' !in Normal(s)[k] && Normal(s)[k] != ".." {
      NamedIff(Split('/', s), Normal(s)[k]);
      assert Normal(s)[k] in Normal(s);
    }
  }
}
