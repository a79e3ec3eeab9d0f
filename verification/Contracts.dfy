/** The audit that matches the API calls found in the front end with the operations of the backend. */
module Contracts {
  import opened Grouping
  import opened Text

  datatype Key = Key(method_: string, path: string)

  datatype Contract = Contract(key: Key, source: string, line: nat)

  /** One path of the API description with the lower-case names of its operations. */
  datatype Endpoint = Endpoint(path: string, operations: set<string>)

  datatype Row = Row(key: Key, sources: seq<Contract>, matches: seq<string>)

  // ---------------------------------------------------------------------------------------
  // Path templates
  // ---------------------------------------------------------------------------------------

  function StripLeft(s: string): (t: string)
    ensures |t| <= |s| && t == s[|s| - |t|..] && forall k :: 0 <= k < |s| - |t| ==> s[k] == '/'
    ensures t == "" || t[0] != '/'
  {
    if s != "" && s[0] == '/' then StripLeft(s[1..]) else s
  }

  function StripRight(s: string): (t: string)
    ensures t <= s && forall k :: |t| <= k < |s| ==> s[k] == '/'
    ensures t == "" || t[|t| - 1] != '/'
  {
    if s != "" && s[|s| - 1] == '/' then StripRight(s[..|s| - 1]) else s
  }

  function Segments(path: string): (segments: seq<string>)
    ensures |segments| > 0
  {
    Split('/', StripRight(StripLeft(path)))
  }

  /** A path parameter: a name in braces. */
  predicate IsParam(segment: string) {
    && |segment| >= 3 && segment[0] == '{' && segment[|segment| - 1] == '}'
    && '}' !in segment[1..|segment| - 1] && '/' !in segment[1..|segment| - 1]
  }

  lemma ParamIff(segment: string)
    ensures IsParam(segment)
            <==> exists name :: name != "" && '/' !in name && '}' !in name && segment == "{" + name + "}"
  {
    if IsParam(segment) {
      var name := segment[1..|segment| - 1];
      assert segment == "{" + name + "}" && name != "";
    }
    if exists name :: name != "" && '/' !in name && '}' !in name && segment == "{" + name + "}" {
      var name :| name != "" && '/' !in name && '}' !in name && segment == "{" + name + "}";
      assert segment[1..|segment| - 1] == name;
    }
  }

  function Shape(segment: string): string {
    if IsParam(segment) then "{}" else segment
  }

  function PathShape(path: string): (shape: seq<string>)
    ensures |shape| == |Segments(path)| && forall k :: 0 <= k < |shape| ==> shape[k] == Shape(Segments(path)[k])
  {
    var segments := Segments(path);
    seq(|segments|, k requires 0 <= k < |segments| => Shape(segments[k]))
  }

  predicate Agree(a: string, b: string) {
    a == b || a == "{}" || b == "{}"
  }

  predicate PathsCompatible(frontend: string, backend: string) {
    var left, right := PathShape(frontend), PathShape(backend);
    |left| == |right| && forall k :: 0 <= k < |left| ==> Agree(left[k], right[k])
  }

  // ---------------------------------------------------------------------------------------
  // What a template stands for
  // ---------------------------------------------------------------------------------------

  /** A parameter stands for any non-empty segment, anything else for itself. */
  predicate Fits(concrete: string, segment: string) {
    if IsParam(segment) then concrete != "" && '/' !in concrete else concrete == segment
  }

  predicate Instantiates(concrete: seq<string>, path: string) {
    && |concrete| == |Segments(path)|
    && forall k :: 0 <= k < |concrete| ==> Fits(concrete[k], Segments(path)[k])
  }

  ghost predicate CommonInstance(a: string, b: string) {
    exists concrete :: Instantiates(concrete, a) && Instantiates(concrete, b)
  }

  /** Two segments that the matcher accepts although nothing fits both: a literal `{}` beside another literal, or a
      parameter beside an empty segment. */
  predicate Misleads(a: string, b: string) {
    if IsParam(a) then b == ""
    else if IsParam(b) then a == ""
    else a != b && (a == "{}" || b == "{}")
  }

  predicate Misleading(a: string, b: string) {
    exists k :: 0 <= k < |Segments(a)| && k < |Segments(b)| && Misleads(Segments(a)[k], Segments(b)[k])
  }

  function Choice(a: string, b: string): string {
    if !IsParam(a) then a else if !IsParam(b) then b else "0"
  }

  /** On two slash-free segments the matcher is right unless they mislead it. */
  lemma SegmentsAgreeIff(a: string, b: string)
    requires '/' !in a && '/' !in b
    ensures Agree(Shape(a), Shape(b)) && !Misleads(a, b) <==> exists c :: Fits(c, a) && Fits(c, b)
  {
    if Agree(Shape(a), Shape(b)) && !Misleads(a, b) {
      assert Fits(Choice(a, b), a) && Fits(Choice(a, b), b);
    }
  }

  /** Two templates match and mislead nowhere exactly if some concrete path instantiates both. */
  lemma CompatibleIff(a: string, b: string)
    ensures PathsCompatible(a, b) && !Misleading(a, b) <==> CommonInstance(a, b)
  {
    hide Agree, Shape, Misleads, Fits, Segments;
    var p, q := Segments(a), Segments(b);
    SegmentsHoldNoSlash(a);
    SegmentsHoldNoSlash(b);
    forall k | 0 <= k < |p| && k < |q|
      ensures Agree(Shape(p[k]), Shape(q[k])) && !Misleads(p[k], q[k]) <==> exists c :: Fits(c, p[k]) && Fits(c, q[k])
    {
      SegmentsAgreeIff(p[k], q[k]);
    }
    if PathsCompatible(a, b) && !Misleading(a, b) {
      var concrete := seq(|p|, k requires 0 <= k < |p| => Common(p[k], q[k]));
      assert Instantiates(concrete, a) && Instantiates(concrete, b);
    }
  }

  lemma SegmentsHoldNoSlash(path: string)
    ensures forall k :: 0 <= k < |Segments(path)| ==> '/' !in Segments(path)[k]
  {
    PiecesHoldNoSeparator('/', StripRight(StripLeft(path)));
  }

  /** Something that fits both segments, if anything does. */
  ghost function Common(a: string, b: string): (c: string)
    ensures (exists c :: Fits(c, a) && Fits(c, b)) ==> Fits(c, a) && Fits(c, b)
  {
    if exists c :: Fits(c, a) && Fits(c, b) then var c :| Fits(c, a) && Fits(c, b); c else ""
  }

  /** No segment is empty or spelled as a literal `{}`. */
  predicate WellSpelled(path: string) {
    forall k :: 0 <= k < |Segments(path)| ==> Segments(path)[k] != "" && Segments(path)[k] != "{}"
  }

  /** On well-spelled templates the matcher is exact. */
  lemma MatcherIsExact(a: string, b: string)
    requires WellSpelled(a) && WellSpelled(b)
    ensures PathsCompatible(a, b) <==> CommonInstance(a, b)
  {
    CompatibleIff(a, b);
  }

  /** A literal `{}` matches everything. */
  lemma LiteralBracesMislead()
    ensures PathsCompatible("{}", "a") && !CommonInstance("{}", "a")
  {
    assert "{}"[1..] == "}" && "a"[1..] == "" && "}"[1..] == "";
    UnseparatedIsOnePiece('/', "{}");
    UnseparatedIsOnePiece('/', "a");
    assert Misleads(Segments("{}")[0], Segments("a")[0]);
    CompatibleIff("{}", "a");
  }

  // ---------------------------------------------------------------------------------------
  // The order of the rows
  // ---------------------------------------------------------------------------------------

  predicate TextBefore(a: string, b: string) {
    b != "" && (a == "" || a[0] < b[0] || (a[0] == b[0] && TextBefore(a[1..], b[1..])))
  }

  predicate Before(a: Key, b: Key) {
    TextBefore(a.method_, b.method_) || (a.method_ == b.method_ && TextBefore(a.path, b.path))
  }

  /** One text is a proper beginning of the other, or has the smaller character where they first differ. */
  predicate SortsBefore(a: string, b: string) {
    exists n: nat | n <= |a| && n < |b| :: a[..n] == b[..n] && (n == |a| || a[n] < b[n])
  }

  lemma {:induction false} TextBeforeIff(a: string, b: string)
    ensures TextBefore(a, b) <==> SortsBefore(a, b)
  {
    if b == "" {
    } else if a == "" || a[0] < b[0] {
      assert a[..0] == b[..0];
    } else if a[0] == b[0] {
      TextBeforeIff(a[1..], b[1..]);
      if SortsBefore(a[1..], b[1..]) {
        var n: nat :| n <= |a[1..]| && n < |b[1..]| && a[1..][..n] == b[1..][..n]
                      && (n == |a[1..]| || a[1..][n] < b[1..][n]);
        assert a[..n + 1] == [a[0]] + a[1..][..n] && b[..n + 1] == [b[0]] + b[1..][..n];
      }
      if SortsBefore(a, b) {
        var n: nat :| n <= |a| && n < |b| && a[..n] == b[..n] && (n == |a| || a[n] < b[n]);
        assert n > 0 && a[1..][..n - 1] == a[..n][1..] && b[1..][..n - 1] == b[..n][1..];
        assert n < |a| ==> a[1..][n - 1] == a[n] && b[1..][n - 1] == b[n];
      }
    } else {
      assert forall n :: 0 < n <= |a| && n < |b| ==> a[..n][0] == a[0] && b[..n][0] == b[0];
    }
  }

  lemma {:induction false} TextOrder(a: string, b: string, c: string)
    ensures !TextBefore(a, a)
    ensures TextBefore(a, b) || a == b || TextBefore(b, a)
    ensures TextBefore(a, b) && TextBefore(b, c) ==> TextBefore(a, c)
    decreases |a| + |b| + |c|
  {
    if a != "" { TextOrder(a[1..], if b == "" then b else b[1..], if c == "" then c else c[1..]); }
    if a != "" && b != "" && a[0] == b[0] && a[1..] == b[1..] {
      assert a == [a[0]] + a[1..] && b == [b[0]] + b[1..];
    }
  }

  lemma KeyOrder(a: Key, b: Key, c: Key)
    ensures !Before(a, a)
    ensures Before(a, b) || a == b || Before(b, a)
    ensures Before(a, b) && Before(b, c) ==> Before(a, c)
  {
    TextOrder(a.method_, b.method_, c.method_);
    TextOrder(a.path, b.path, c.path);
  }

  predicate Ascending(keys: seq<Key>) {
    forall i, j :: 0 <= i < j < |keys| ==> Before(keys[i], keys[j])
  }

  function Insert(keys: seq<Key>, key: Key): seq<Key> {
    if keys == [] || Before(key, keys[0]) then [key] + keys else [keys[0]] + Insert(keys[1..], key)
  }

  function Sorted(keys: seq<Key>): seq<Key> {
    if keys == [] then [] else Insert(Sorted(keys[..|keys| - 1]), keys[|keys| - 1])
  }

  lemma {:induction false} InsertKeepsOrder(keys: seq<Key>, key: Key)
    requires Ascending(keys) && key !in keys
    ensures Ascending(Insert(keys, key))
    ensures forall k :: k in Insert(keys, key) <==> k == key || k in keys
  {
    if keys == [] {
    } else if Before(key, keys[0]) {
      forall j | 0 <= j < |keys| ensures Before(key, keys[j]) {
        KeyOrder(key, keys[0], keys[j]);
      }
    } else {
      var rest := Insert(keys[1..], key);
      InsertKeepsOrder(keys[1..], key);
      KeyOrder(keys[0], key, key);
      forall j | 0 <= j < |rest| ensures Before(keys[0], rest[j]) {
        if rest[j] != key {
          assert rest[j] in keys[1..];
          var i :| 0 <= i < |keys[1..]| && keys[1..][i] == rest[j];
          assert keys[i + 1] == rest[j];
        }
      }
    }
  }

  lemma {:induction false} SortedIsAscending(keys: seq<Key>)
    requires Distinct(keys)
    ensures Ascending(Sorted(keys))
    ensures forall k :: k in Sorted(keys) <==> k in keys
  {
    if keys != [] {
      var n := |keys| - 1;
      SortedIsAscending(keys[..n]);
      InsertKeepsOrder(Sorted(keys[..n]), keys[n]);
      assert keys == keys[..n] + [keys[n]];
    }
  }
}
