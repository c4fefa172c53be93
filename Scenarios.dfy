/**
 * A worked example of what the window half-width decides: two foreground
 * pixels two rows and two columns apart are two blobs when the half-width
 * is 1, and one blob when it is 2.
 */
module Scenarios {
  import opened Blobs
  import opened Components
  import opened BlobDetections

  /** A 5 × 5 sheet with background 0 and foreground pixels at (1, 1) and (3, 3). */
  const TwoDots: Sheet :=
    Sheet(seq(5, r => seq(5, c => if (r == 1 && c == 1) || (r == 3 && c == 3) then 1 else 0)), 0)

  /** The whole sheet as the selected area. */
  const Whole: Area := Area(0, 0, 5, 5)

  lemma TwoDotsForeground(p: Point)
    ensures AreaInImage(TwoDots, Whole)
    ensures ForegroundAt(TwoDots, Whole, p) <==> p == Point(1, 1) || p == Point(3, 3)
  {
  }

  /** A path that starts at a point with no other point of `s` near it never leaves that point. */
  lemma {:induction false} PathStuck(s: set<Point>, k: int, p: Point, q: Point, path: seq<Point>, n: nat)
    requires PathIn(s, k, p, q, path) && n < |path|
    requires forall x :: x in s && Near(k, p.y, p.x, x.y, x.x) ==> x == p
    ensures path[n] == p
  {
    if n > 0 {
      PathStuck(s, k, p, q, path, n - 1);
      assert Near(k, path[n - 1].y, path[n - 1].x, path[n].y, path[n].x);
    }
  }

  /** The foreground of an area is the two points `a` and `b` and nothing else. */
  ghost predicate OnlyTwo(sheet: Sheet, area: Area, a: Point, b: Point)
    requires AreaInImage(sheet, area)
  {
    a != b && ForegroundAt(sheet, area, a) && ForegroundAt(sheet, area, b) &&
    forall p :: ForegroundAt(sheet, area, p) ==> p == a || p == b
  }

  lemma TwoDotsOnlyTwo()
    ensures AreaInImage(TwoDots, Whole) && OnlyTwo(TwoDots, Whole, Point(1, 1), Point(3, 3))
  {
    TwoDotsForeground(Point(1, 1));
    TwoDotsForeground(Point(3, 3));
    forall p | ForegroundAt(TwoDots, Whole, p)
      ensures p == Point(1, 1) || p == Point(3, 3)
    {
      TwoDotsForeground(p);
    }
  }

  /** Each of the two foreground points lies in some blob, and every blob point is one of them. */
  lemma BlobsOfTwo(sheet: Sheet, area: Area, k: int, pts: seq<set<Point>>, a: Point, b: Point)
    returns (i: int, j: int)
    requires AreaInImage(sheet, area) && OnlyTwo(sheet, area, a, b) && k >= 0
    requires BlobPartition(sheet, area, k, pts)
    ensures 0 <= i < |pts| && a in pts[i] && 0 <= j < |pts| && b in pts[j]
    ensures forall m, p :: 0 <= m < |pts| && p in pts[m] ==> p == a || p == b
  {
    assert CellPoint(area, a.y - area.y, a.x - area.x) == a;
    assert CellPoint(area, b.y - area.y, b.x - area.x) == b;
    i :| 0 <= i < |pts| && a in pts[i];
    j :| 0 <= j < |pts| && b in pts[j];
    forall m, p | 0 <= m < |pts| && p in pts[m]
      ensures p == a || p == b
    {
      assert ForegroundAt(sheet, area, p);
    }
  }

  /**
   * Among pairwise disjoint non-empty blobs made of the two points `a` and
   * `b`, every blob is the one holding `a` or the one holding `b`.
   */
  lemma OneOfTwo(pts: seq<set<Point>>, a: Point, b: Point, i: int, j: int, m: int)
    requires 0 <= i < |pts| && 0 <= j < |pts| && 0 <= m < |pts|
    requires a in pts[i] && b in pts[j] && pts[m] != {}
    requires forall x, y :: 0 <= x < y < |pts| ==> pts[x] !! pts[y]
    requires forall n, p :: 0 <= n < |pts| && p in pts[n] ==> p == a || p == b
    ensures m == i || m == j
  {
    var p :| p in pts[m];
    var n := if p == a then i else j;
    assert p in pts[n];
    if m != n {
      assert false;
    }
  }

  /** Two foreground points that are not near are two blobs of one point each. */
  lemma TwoApart(sheet: Sheet, area: Area, k: int, pts: seq<set<Point>>, a: Point, b: Point)
    requires AreaInImage(sheet, area) && OnlyTwo(sheet, area, a, b) && k >= 0
    requires !Near(k, a.y, a.x, b.y, b.x)
    requires BlobPartition(sheet, area, k, pts)
    ensures pts == [{a}, {b}] || pts == [{b}, {a}]
  {
    var i, j := BlobsOfTwo(sheet, area, k, pts, a, b);
    if i == j {
      assert ChainJoins(pts[i], k, a, b);
      var path :| PathIn(pts[i], k, a, b, path);
      PathStuck(pts[i], k, a, b, path, |path| - 1);
      assert false;
    }
    assert pts[i] !! pts[j] by {
      if i < j { assert pts[i] !! pts[j]; } else { assert pts[j] !! pts[i]; }
    }
    assert pts[i] == {a} && pts[j] == {b};
    if |pts| > 2 {
      var m := if 0 != i && 0 != j then 0 else if 1 != i && 1 != j then 1 else 2;
      OneOfTwo(pts, a, b, i, j, m);
      assert false;
    }
    if i == 0 {
      assert pts == [{a}, {b}];
    } else {
      assert pts == [{b}, {a}];
    }
  }

  /** Two near foreground points are one blob of both. */
  lemma TwoNear(sheet: Sheet, area: Area, k: int, pts: seq<set<Point>>, a: Point, b: Point)
    requires AreaInImage(sheet, area) && OnlyTwo(sheet, area, a, b) && k >= 0
    requires Near(k, a.y, a.x, b.y, b.x)
    requires BlobPartition(sheet, area, k, pts)
    ensures pts == [{a, b}]
  {
    var i, j := BlobsOfTwo(sheet, area, k, pts, a, b);
    assert ClosedAt(sheet, area, k, pts[i], a, b);
    assert pts[i] == {a, b};
    if |pts| > 1 {
      var m := if i == 0 then 1 else 0;
      OneOfTwo(pts, a, b, i, i, m);
      assert false;
    }
    assert pts == [{a, b}];
  }

  /** With half-width 1 the two pixels of the example are two blobs of one pixel each. */
  lemma TwoDotsNarrow(pts: seq<set<Point>>)
    requires AreaInImage(TwoDots, Whole) && BlobPartition(TwoDots, Whole, 1, pts)
    ensures pts == [{Point(1, 1)}, {Point(3, 3)}] || pts == [{Point(3, 3)}, {Point(1, 1)}]
  {
    TwoDotsOnlyTwo();
    TwoApart(TwoDots, Whole, 1, pts, Point(1, 1), Point(3, 3));
  }

  /** With half-width 2 the two pixels of the example are one blob. */
  lemma TwoDotsWide(pts: seq<set<Point>>)
    requires AreaInImage(TwoDots, Whole) && BlobPartition(TwoDots, Whole, 2, pts)
    ensures pts == [{Point(1, 1), Point(3, 3)}]
  {
    TwoDotsOnlyTwo();
    TwoNear(TwoDots, Whole, 2, pts, Point(1, 1), Point(3, 3));
  }

  /** Valid blobs holding one pixel each of the example have one-by-one bounding boxes. */
  lemma OnePixelBlobs(clips: seq<Blob>)
    requires forall i :: 0 <= i < |clips| ==> clips[i].Valid()
    requires PointsOf(clips) == [{Point(1, 1)}, {Point(3, 3)}] || PointsOf(clips) == [{Point(3, 3)}, {Point(1, 1)}]
    ensures |clips| == 2
    ensures (clips[0].points == {Point(1, 1)} && clips[1].points == {Point(3, 3)}) ||
            (clips[0].points == {Point(3, 3)} && clips[1].points == {Point(1, 1)})
    ensures forall i :: 0 <= i < |clips| ==>
              clips[i].box.Some? && clips[i].box.value.width == 1 && clips[i].box.value.height == 1
  {
    var pts := PointsOf(clips);
    forall i | 0 <= i < |clips|
      ensures clips[i].box.Some? && clips[i].box.value.width == 1 && clips[i].box.value.height == 1
    {
      var p := if pts[i] == {Point(1, 1)} then Point(1, 1) else Point(3, 3);
      assert clips[i].points == {p};
      TightOfSingle(clips[i].box.value, p);
    }
  }

  /** Blob detection with half-edge 1 over the example finds two blobs of one pixel each. */
  method DetectTwoDots() returns (clips: seq<Blob>)
    ensures |clips| == 2
    ensures (clips[0].points == {Point(1, 1)} && clips[1].points == {Point(3, 3)}) ||
            (clips[0].points == {Point(3, 3)} && clips[1].points == {Point(1, 1)})
    ensures forall i :: 0 <= i < |clips| ==>
              clips[i].box.Some? && clips[i].box.value.width == 1 && clips[i].box.value.height == 1
  {
    var detection := new BlobDetection();
    detection.SetThreshold(1);
    TwoDotsOnlyTwo();
    ghost var order;
    clips, order := detection.GetSpriteClips(TwoDots, Whole);
    TwoDotsNarrow(PointsOf(clips));
    OnePixelBlobs(clips);
  }
}
