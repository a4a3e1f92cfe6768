/**
 * The data the chart draws: named, coloured series of (x, y) points, the
 * copy of a series sorted by x that labels are placed on, and the x and y
 * domains taken from the values of all series together.
 */
module ChartData {
  import opened Wrappers

  datatype Point = Point(x: real, y: real)

  /** `color` is `None` when the colour table has no entry for the series. */
  datatype Series = Series(name: string, color: Option<string>, values: seq<Point>)

  predicate SortedByX(s: seq<Point>)
  {
    forall i, j :: 0 <= i < j < |s| ==> s[i].x <= s[j].x
  }

  lemma HeadBelow(a: Point, s: seq<Point>)
    requires SortedByX(s) && forall i :: 0 <= i < |s| ==> a.x <= s[i].x
    ensures SortedByX([a] + s)
  {
    forall i, j | 0 <= i < j < |[a] + s| ensures ([a] + s)[i].x <= ([a] + s)[j].x {
      if i > 0 {
        assert ([a] + s)[i] == s[i - 1];
      }
      assert ([a] + s)[j] == s[j - 1];
    }
  }

  /** Places `p` before the first point whose x is not smaller than its own. */
  function Insert(p: Point, s: seq<Point>): (r: seq<Point>)
    requires SortedByX(s)
    ensures SortedByX(r)
    ensures multiset(r) == multiset(s) + multiset{p}
    ensures forall i :: 0 <= i < |r| ==> r[i] == p || r[i] in s
  {
    if s == [] then [p]
    else if p.x <= s[0].x then [p] + s
    else
      var tail := Insert(p, s[1..]);
      assert s == [s[0]] + s[1..];
      forall i | 0 <= i < |tail| ensures s[0].x <= tail[i].x {
        if tail[i] != p {
          var k :| 0 <= k < |s[1..]| && s[1..][k] == tail[i];
          assert s[k + 1] == tail[i];
        }
      }
      HeadBelow(s[0], tail);
      [s[0]] + tail
  }

  /**
   * `[...series.values].sort((a, b) => a.x - b.x)`: a fresh sorted copy;
   * `series.values` is a value here, so it cannot change.
   */
  function SortByX(s: seq<Point>): (r: seq<Point>)
    ensures SortedByX(r)
    ensures multiset(r) == multiset(s)
    ensures |r| == |s|
  {
    if s == [] then []
    else
      assert s == [s[0]] + s[1..];
      Insert(s[0], SortByX(s[1..]))
  }

  /** The points of `s` whose x equals `v`, in the order of `s`. */
  function WithX(s: seq<Point>, v: real): seq<Point>
  {
    if s == [] then []
    else (if s[0].x == v then [s[0]] else []) + WithX(s[1..], v)
  }

  lemma WithXCons(p: Point, s: seq<Point>, v: real)
    ensures WithX([p] + s, v) == (if p.x == v then [p] else []) + WithX(s, v)
  {
    assert ([p] + s)[0] == p && ([p] + s)[1..] == s;
  }

  lemma WithXShift(a: Point, p: Point, tail: seq<Point>, s: seq<Point>, v: real)
    requires a.x < p.x
    requires WithX(tail, v) == (if p.x == v then [p] else []) + WithX(s, v)
    ensures WithX([a] + tail, v) == (if p.x == v then [p] else []) + WithX([a] + s, v)
  {
    WithXCons(a, tail, v);
    WithXCons(a, s, v);
    if p.x == v {
      assert a.x != v;
    }
  }

  lemma {:induction false} InsertWithX(p: Point, s: seq<Point>, v: real)
    requires SortedByX(s)
    ensures WithX(Insert(p, s), v) == (if p.x == v then [p] else []) + WithX(s, v)
  {
    if s == [] || p.x <= s[0].x {
      WithXCons(p, s, v);
    } else {
      InsertWithX(p, s[1..], v);
      WithXShift(s[0], p, Insert(p, s[1..]), s[1..], v);
      assert [s[0]] + s[1..] == s;
    }
  }

  /**
   * The sort is stable (the array sort of ECMAScript 2019 is): points with
   * equal x keep their original relative order.
   */
  lemma {:induction false} SortByXStable(s: seq<Point>, v: real)
    ensures WithX(SortByX(s), v) == WithX(s, v)
  {
    if s != [] {
      SortByXStable(s[1..], v);
      InsertWithX(s[0], SortByX(s[1..]), v);
    }
  }

  /** `d3.extent(xs)`: `None` (undefined) for no values. */
  function Extent(xs: seq<real>): (r: Option<(real, real)>)
    ensures r.None? <==> xs == []
    ensures r.Some? ==> r.value.0 in xs && r.value.1 in xs
    ensures r.Some? ==> forall x :: x in xs ==> r.value.0 <= x <= r.value.1
  {
    if xs == [] then None
    else
      match Extent(xs[1..])
      case None => Some((xs[0], xs[0]))
      case Some((lo, hi)) =>
        assert forall x :: x in xs ==> x == xs[0] || x in xs[1..];
        Some((if xs[0] < lo then xs[0] else lo, if xs[0] > hi then xs[0] else hi))
  }

  /** `d3.max(ys)`: `None` (undefined) for no values. */
  function Max(ys: seq<real>): (r: Option<real>)
    ensures r.None? <==> ys == []
    ensures r.Some? ==> r.value in ys && forall y :: y in ys ==> y <= r.value
  {
    if ys == [] then None
    else
      match Max(ys[1..])
      case None => Some(ys[0])
      case Some(m) =>
        assert forall y :: y in ys ==> y == ys[0] || y in ys[1..];
        Some(if ys[0] > m then ys[0] else m)
  }

  /** `seriesData.flatMap(series => series.values.map(d => d.x))`. */
  function AllX(seriesData: seq<Series>): seq<real>
  {
    if seriesData == [] then []
    else
      var vs := seriesData[0].values;
      seq(|vs|, j requires 0 <= j < |vs| => vs[j].x) + AllX(seriesData[1..])
  }

  /** `seriesData.flatMap(series => series.values.map(d => d.y))`. */
  function AllY(seriesData: seq<Series>): seq<real>
  {
    if seriesData == [] then []
    else
      var vs := seriesData[0].values;
      seq(|vs|, j requires 0 <= j < |vs| => vs[j].y) + AllY(seriesData[1..])
  }

  lemma {:induction false} AllXHas(seriesData: seq<Series>, i: nat, j: nat)
    requires i < |seriesData| && j < |seriesData[i].values|
    ensures seriesData[i].values[j].x in AllX(seriesData)
  {
    if i > 0 {
      AllXHas(seriesData[1..], i - 1, j);
    } else {
      var vs := seriesData[0].values;
      assert seq(|vs|, k requires 0 <= k < |vs| => vs[k].x)[j] == vs[j].x;
    }
  }

  lemma {:induction false} AllYHas(seriesData: seq<Series>, i: nat, j: nat)
    requires i < |seriesData| && j < |seriesData[i].values|
    ensures seriesData[i].values[j].y in AllY(seriesData)
  {
    if i > 0 {
      AllYHas(seriesData[1..], i - 1, j);
    } else {
      var vs := seriesData[0].values;
      assert seq(|vs|, k requires 0 <= k < |vs| => vs[k].y)[j] == vs[j].y;
    }
  }

  /** The x scale's domain, `d3.extent(allXValues)`. */
  function XDomain(seriesData: seq<Series>): Option<(real, real)>
  {
    Extent(AllX(seriesData))
  }

  /** The y scale's domain before `nice()`: `[0, d3.max(allYValues)]`. */
  function YDomain(seriesData: seq<Series>): Option<(real, real)>
  {
    match Max(AllY(seriesData))
    case None => None
    case Some(top) => Some((0.0, top))
  }

  /** Every point of every series lies within the x domain, whose ends are x values of points. */
  lemma XDomainCovers(seriesData: seq<Series>, i: nat, j: nat)
    requires i < |seriesData| && j < |seriesData[i].values|
    ensures XDomain(seriesData).Some?
    ensures XDomain(seriesData).value.0 <= seriesData[i].values[j].x <= XDomain(seriesData).value.1
    ensures XDomain(seriesData).value.0 in AllX(seriesData) && XDomain(seriesData).value.1 in AllX(seriesData)
  {
    AllXHas(seriesData, i, j);
  }

  /** The y domain starts at 0 and ends at the largest y of any point. */
  lemma YDomainCovers(seriesData: seq<Series>, i: nat, j: nat)
    requires i < |seriesData| && j < |seriesData[i].values|
    ensures YDomain(seriesData).Some?
    ensures YDomain(seriesData).value.0 == 0.0
    ensures seriesData[i].values[j].y <= YDomain(seriesData).value.1
    ensures YDomain(seriesData).value.1 in AllY(seriesData)
  {
    AllYHas(seriesData, i, j);
  }
}
