/** The alert table that renders only a window of its rows, against the table that would render them all. */
module VirtualTable {

  const ROW := 44
  const MAXH := 560
  const OVER := 6

  /** A row drawn at a vertical offset inside the scrolled content. */
  datatype Row<T> = Row(item: T, top: int)

  function Max(a: int, b: int): int { if a < b then b else a }
  function Min(a: int, b: int): int { if a < b then a else b }

  function Ceil(x: real): int { -(-x).Floor }

  function ViewHeight(total: nat): int {
    Min(MAXH, Max(ROW * 2, total * ROW))
  }

  function Start(st: real): int {
    Max(0, (st / ROW as real).Floor - OVER)
  }

  function End(total: nat, st: real): int {
    Min(total, Ceil((st + ViewHeight(total) as real) / ROW as real) + OVER)
  }

  /** JavaScript's `slice` for a non-negative start: a negative end counts from the back. */
  function Slice<T>(items: seq<T>, start: nat, end: int): (part: seq<T>) {
    var lo := Min(start, |items|);
    var hi := if end < 0 then Max(0, |items| + end) else Min(end, |items|);
    if lo < hi then items[lo..hi] else []
  }

  function Placed<T>(items: seq<T>, start: nat): (rows: seq<Row<T>>)
    ensures |rows| == |items| && forall i :: 0 <= i < |rows| ==> rows[i] == Row(items[i], (start + i) * ROW)
  {
    seq(|items|, i requires 0 <= i < |items| => Row(items[i], (start + i) * ROW))
  }

  /** What the table draws at scroll offset `st`. */
  function Rendered<T>(items: seq<T>, st: real): seq<Row<T>> {
    Placed(Slice(items, Start(st), End(|items|, st)), Start(st))
  }

  function Full<T>(items: seq<T>): seq<Row<T>> {
    Placed(items, 0)
  }

  /** A row shows if some part of it lies inside the viewport. */
  predicate Shows<T>(row: Row<T>, st: real, viewH: int) {
    row.top as real < st + viewH as real && st < (row.top + ROW) as real
  }

  function OnScreen<T>(rows: seq<Row<T>>, st: real, viewH: int): seq<Row<T>> {
    if rows == [] then []
    else (if Shows(rows[0], st, viewH) then [rows[0]] else []) + OnScreen(rows[1..], st, viewH)
  }

  lemma {:induction false} NothingShows<T>(rows: seq<Row<T>>, st: real, viewH: int)
    requires forall i :: 0 <= i < |rows| ==> !Shows(rows[i], st, viewH)
    ensures OnScreen(rows, st, viewH) == []
  {
    hide Shows;
    if rows != [] {
      NothingShows(rows[1..], st, viewH);
    }
  }

  lemma {:induction false} OnScreenAppends<T>(a: seq<Row<T>>, b: seq<Row<T>>, st: real, viewH: int)
    ensures OnScreen(a + b, st, viewH) == OnScreen(a, st, viewH) + OnScreen(b, st, viewH)
  {
    hide Shows;
    if a == [] {
      assert a + b == b;
    } else {
      assert (a + b)[0] == a[0] && (a + b)[1..] == a[1..] + b;
      OnScreenAppends(a[1..], b, st, viewH);
      var shown, tail := OnScreen(a[1..], st, viewH), OnScreen(b, st, viewH);
      assert [a[0]] + (shown + tail) == [a[0]] + shown + tail && [] + (shown + tail) == [] + shown + tail;
    }
  }

  /** A row that shows is inside the window. */
  lemma ShownIsInWindow<T>(items: seq<T>, st: real, r: nat)
    requires r < |items| && Shows(Full(items)[r], st, ViewHeight(|items|))
    ensures Start(st) <= r < End(|items|, st)
  {
  }

  /** The window is a part of the full list, at the same places. */
  lemma RenderedIsPartOfFull<T>(items: seq<T>, st: real) returns (lo: nat, hi: nat)
    ensures lo <= hi <= |items| && Rendered(items, st) == Full(items)[lo..hi]
    ensures Start(st) < End(|items|, st) ==> lo == Start(st) && hi == End(|items|, st)
  {
    var part := Slice(items, Start(st), End(|items|, st));
    lo := Min(Start(st), |items|);
    hi := lo + |part|;
  }

  lemma FullLength<T>(items: seq<T>)
    ensures |Full(items)| == |items|
  {
  }

  /** Rows outside the window do not show. */
  lemma OutsideDoesNotShow<T>(items: seq<T>, st: real, lo: nat, hi: nat)
    requires lo <= hi <= |items| && (Start(st) < End(|items|, st) ==> lo == Start(st) && hi == End(|items|, st))
    ensures var h, full := ViewHeight(|items|), Full(items);
            OnScreen(full[..lo], st, h) == [] && OnScreen(full[hi..], st, h) == []
  {
    FullLength(items);
    hide Start, End, ViewHeight, Shows, Full, OnScreen;
    var h, full := ViewHeight(|items|), Full(items);
    forall r | 0 <= r < |full| && !(lo <= r < hi) ensures !Shows(full[r], st, h) {
      if Shows(full[r], st, h) { ShownIsInWindow(items, st, r); }
    }
    NothingShows(full[..lo], st, h);
    NothingShows(full[hi..], st, h);
  }

  /** At every scroll offset, what the user sees of the window is what the user would see of the full list. */
  lemma SameOnScreen<T>(items: seq<T>, st: real)
    ensures OnScreen(Rendered(items, st), st, ViewHeight(|items|)) == OnScreen(Full(items), st, ViewHeight(|items|))
  {
    hide *;
    var h, full := ViewHeight(|items|), Full(items);
    FullLength(items);
    var lo, hi := RenderedIsPartOfFull(items, st);
    OutsideDoesNotShow(items, st, lo, hi);
    OnScreenAppends(full[..lo], full[lo..hi], st, h);
    OnScreenAppends(full[..hi], full[hi..], st, h);
    assert full[..hi] == full[..lo] + full[lo..hi] && full == full[..hi] + full[hi..];
  }

  /** The window has at most 26 rows however long the list is, exactly unless its end is negative, so that it counts
      from the back, and leaves more than 26 rows. */
  lemma WindowIsSmallIff<T>(items: seq<T>, st: real)
    ensures |Rendered(items, st)| <= 26 <==> End(|items|, st) >= 0 || |items| + End(|items|, st) <= 26
  {
  }

  /** The end is negative exactly for offsets at least seven rows and one viewport above the content. */
  lemma EndIsNegativeIff(total: nat, st: real)
    ensures End(total, st) < 0 <==> st <= (-(7 * ROW) - ViewHeight(total)) as real
  {
  }

  /** The viewport is as tall as its rows, but at least two rows and at most 560 pixels. */
  lemma ViewHeightIs(total: nat)
    ensures 2 <= total <= 12 ==> ViewHeight(total) == 44 * total
    ensures total < 2 ==> ViewHeight(total) == 88
    ensures total > 12 ==> ViewHeight(total) == 560
  {
  }

  /** Inside the content the two ends are in order and within the list. */
  lemma WindowIsInBounds(total: nat, st: real)
    requires 0.0 <= st <= Max(0, total * ROW - ViewHeight(total)) as real
    ensures 0 <= Start(st) <= End(total, st) <= total
  {
  }
}
