/**
 * Blob detection: the sprites of a sprite sheet are found as the connected
 * components of the foreground pixels of a selected area, where two pixels
 * are connected when they are at most `halfEdge` rows and columns apart.
 *
 * A first pass labels every foreground pixel from the labels already placed
 * in the causal part of its window, recording in the label equivalence
 * table that the labels it meets belong together; a second pass reduces
 * every label to its representative and gathers the pixels of each
 * representative into one blob.
 */
module BlobDetections {
  import opened Wrappers
  import opened Labels
  import opened LabelEqTables
  import opened Blobs
  import opened Components

  /** The label array holds the grid `g`. */
  ghost predicate Holds(a: array2<Option<Label>>, g: Grid)
    reads a
  {
    IsGrid(g, a.Length0, a.Length1) &&
    forall r, c :: 0 <= r < a.Length0 && 0 <= c < a.Length1 ==> a[r, c] == g[r][c]
  }

  /** The anchor is the first pixel of the blob in row-major order. */
  ghost predicate AnchorFirst(b: Blob)
    reads b
  {
    b.anchor in b.points && forall p :: p in b.points ==> RowMajorLe(b.anchor, p)
  }

  /** The point sets of the blobs, in order. */
  ghost function PointsOf(clips: seq<Blob>): (pts: seq<set<Point>>)
    reads clips
    ensures |pts| == |clips| && forall i :: 0 <= i < |clips| ==> pts[i] == clips[i].points
  {
    seq(|clips|, i requires 0 <= i < |clips| reads clips => clips[i].points)
  }

  /** The fields of a blob, as a value. */
  datatype BlobView = BlobView(name: string, box: Option<Box>, points: set<Point>, anchor: Point)

  ghost function ViewOf(b: Blob): BlobView
    reads b
  {
    BlobView(b.name, b.box, b.points, b.anchor)
  }

  /** The blobs hold the views, in order. */
  ghost predicate Shows(blobs: seq<Blob>, views: seq<BlobView>)
    reads blobs
  {
    |blobs| == |views| && forall i :: 0 <= i < |blobs| ==> ViewOf(blobs[i]) == views[i]
  }

  /**
   * The blob seen as `v` collects the points of class `l` passed so far: its
   * box is their bounding box, its anchor the first of them in row-major
   * order, and its name the representative's.
   */
  ghost predicate ViewOk(v: BlobView, l: Label, g: Grid, area: Area, reps: map<Label, Label>, row: int, col: int)
    requires IsGrid(g, area.height, area.width)
  {
    v.box.Some? && Tight(v.box.value, v.points) &&
    v.anchor in v.points && (forall p :: p in v.points ==> RowMajorLe(v.anchor, p)) &&
    v.name == l.ToString() && v.points == PointsUpTo(g, area.height, area.width, area, reps, l, row, col)
  }

  /**
   * The state of the second pass before the cell at `row`, `col`: `order`
   * lists, once each and in the order they were first met, the
   * representatives seen so far; `blobs` holds their blobs in the same
   * order, `views` their contents, and the registry maps each
   * representative to its blob.
   */
  ghost predicate Collected(registry: map<Label, Blob>, blobs: seq<Blob>, order: seq<Label>, views: seq<BlobView>,
                            g: Grid, area: Area, reps: map<Label, Label>, row: int, col: int)
    requires IsGrid(g, area.height, area.width)
  {
    Registered(registry, blobs, order) &&
    Seen(order, g, area, reps, row, col) &&
    ViewsOk(views, order, g, area, reps, row, col)
  }

  /** The registry maps the distinct representatives of `order` to the distinct blobs of `blobs`. */
  ghost predicate Registered(registry: map<Label, Blob>, blobs: seq<Blob>, order: seq<Label>) {
    |blobs| == |order| &&
    (forall i, j :: 0 <= i < j < |order| ==> order[i] != order[j] && blobs[i] != blobs[j]) &&
    (forall l :: l in registry <==> l in order) &&
    (forall i :: 0 <= i < |order| ==> registry[order[i]] == blobs[i])
  }

  /** `order` holds the representatives of the labelled cells before `row`, `col`. */
  ghost predicate Seen(order: seq<Label>, g: Grid, area: Area, reps: map<Label, Label>, row: int, col: int)
    requires IsGrid(g, area.height, area.width)
  {
    forall l :: l in order <==> l in RepsUpTo(g, area.height, area.width, reps, row, col)
  }

  /** Each view collects the points of its representative's class before `row`, `col`. */
  ghost predicate ViewsOk(views: seq<BlobView>, order: seq<Label>, g: Grid, area: Area,
                          reps: map<Label, Label>, row: int, col: int)
    requires IsGrid(g, area.height, area.width)
  {
    |views| == |order| &&
    forall i :: 0 <= i < |views| ==> ViewOk(views[i], order[i], g, area, reps, row, col)
  }

  /** Once every cell is passed, the blobs list the classes of the grid. */
  lemma CollectedListed(registry: map<Label, Blob>, blobs: seq<Blob>, order: seq<Label>, views: seq<BlobView>,
                        g: Grid, area: Area, reps: map<Label, Label>)
    requires IsGrid(g, area.height, area.width) && Shows(blobs, views)
    requires Collected(registry, blobs, order, views, g, area, reps, area.height, 0)
    ensures ClassesListed(g, area.height, area.width, area, reps, order, PointsOf(blobs))
    ensures forall i :: 0 <= i < |blobs| ==>
              blobs[i].Valid() && AnchorFirst(blobs[i]) && blobs[i].name == order[i].ToString()
  {
    var pts := PointsOf(blobs);
    forall i | 0 <= i < |order|
      ensures pts[i] == PointsUpTo(g, area.height, area.width, area, reps, order[i], area.height, 0)
      ensures blobs[i].Valid() && AnchorFirst(blobs[i]) && blobs[i].name == order[i].ToString()
    {
      assert ViewOf(blobs[i]) == views[i];
      assert ViewOk(views[i], order[i], g, area, reps, area.height, 0);
    }
  }

  /** A cell outside every listed class keeps the views of those classes. */
  lemma ViewsKept(views: seq<BlobView>, order: seq<Label>, g: Grid, area: Area,
                  reps: map<Label, Label>, row: int, col: int, i: int)
    requires IsGrid(g, area.height, area.width) && 0 <= row < area.height && 0 <= col < area.width
    requires ViewsOk(views, order, g, area, reps, row, col)
    requires forall j :: 0 <= j < |order| && j != i ==> !InClass(g, area.height, area.width, reps, order[j], row, col)
    ensures forall j :: 0 <= j < |views| && j != i ==> ViewOk(views[j], order[j], g, area, reps, row, col + 1)
  {
    forall j | 0 <= j < |views| && j != i
      ensures ViewOk(views[j], order[j], g, area, reps, row, col + 1)
    {
      assert ViewOk(views[j], order[j], g, area, reps, row, col);
      PointsStep(g, area.height, area.width, area, reps, order[j], row, col);
    }
  }

  /** An unlabelled cell leaves every class as it was. */
  lemma CollectNothing(registry: map<Label, Blob>, blobs: seq<Blob>, order: seq<Label>, views: seq<BlobView>,
                       g: Grid, area: Area, reps: map<Label, Label>, row: int, col: int)
    requires IsGrid(g, area.height, area.width) && 0 <= row < area.height && 0 <= col < area.width
    requires g[row][col].None? && Collected(registry, blobs, order, views, g, area, reps, row, col)
    ensures Collected(registry, blobs, order, views, g, area, reps, row, col + 1)
  {
    RepsStep(g, area.height, area.width, reps, row, col);
    ViewsKept(views, order, g, area, reps, row, col, -1);
  }

  /** The first cell of a class starts a new blob at the end of the list. */
  lemma FiledNew(registry: map<Label, Blob>, blobs: seq<Blob>, order: seq<Label>, views: seq<BlobView>,
                 g: Grid, area: Area, reps: map<Label, Label>, row: int, col: int, sc: Blob, v: BlobView)
    requires IsGrid(g, area.height, area.width) && 0 <= row < area.height && 0 <= col < area.width
    requires g[row][col].Some? && g[row][col].value in reps
    requires Collected(registry, blobs, order, views, g, area, reps, row, col)
    requires reps[g[row][col].value] !in registry && sc !in blobs
    requires v.points == {CellPoint(area, row, col)} && v.box == Some(Box(area.x + col, area.y + row, 1, 1))
    requires v.anchor == CellPoint(area, row, col) && v.name == reps[g[row][col].value].ToString()
    ensures var rep := reps[g[row][col].value];
            Collected(registry[rep := sc], blobs + [sc], order + [rep], views + [v], g, area, reps, row, col + 1)
  {
    var rep := reps[g[row][col].value];
    RegisteredNew(registry, blobs, order, rep, sc);
    SeenNew(order, g, area, reps, row, col);
    ViewsKept(views, order, g, area, reps, row, col, -1);
    NewViewOk(g, area, reps, row, col, v);
    ViewsAppend(views, order, g, area, reps, row, col + 1, v, rep);
  }

  lemma RegisteredNew(registry: map<Label, Blob>, blobs: seq<Blob>, order: seq<Label>, rep: Label, sc: Blob)
    requires Registered(registry, blobs, order) && rep !in registry && sc !in blobs
    ensures Registered(registry[rep := sc], blobs + [sc], order + [rep])
  {
  }

  lemma SeenNew(order: seq<Label>, g: Grid, area: Area, reps: map<Label, Label>, row: int, col: int)
    requires IsGrid(g, area.height, area.width) && 0 <= row < area.height && 0 <= col < area.width
    requires g[row][col].Some? && g[row][col].value in reps
    requires Seen(order, g, area, reps, row, col)
    ensures Seen(order + [reps[g[row][col].value]], g, area, reps, row, col + 1)
  {
    RepsStep(g, area.height, area.width, reps, row, col);
  }

  lemma NewViewOk(g: Grid, area: Area, reps: map<Label, Label>, row: int, col: int, v: BlobView)
    requires IsGrid(g, area.height, area.width) && 0 <= row < area.height && 0 <= col < area.width
    requires g[row][col].Some? && g[row][col].value in reps
    requires reps[g[row][col].value] !in RepsUpTo(g, area.height, area.width, reps, row, col)
    requires v.points == {CellPoint(area, row, col)} && v.box == Some(Box(area.x + col, area.y + row, 1, 1))
    requires v.anchor == CellPoint(area, row, col) && v.name == reps[g[row][col].value].ToString()
    ensures ViewOk(v, reps[g[row][col].value], g, area, reps, row, col + 1)
  {
    var rep := reps[g[row][col].value];
    PointsNeedRep(g, area.height, area.width, area, reps, rep, row, col);
    PointsStep(g, area.height, area.width, area, reps, rep, row, col);
    TightSingle(CellPoint(area, row, col));
  }

  lemma ViewsAppend(views: seq<BlobView>, order: seq<Label>, g: Grid, area: Area,
                    reps: map<Label, Label>, row: int, col: int, v: BlobView, l: Label)
    requires IsGrid(g, area.height, area.width) && |views| == |order|
    requires forall j :: 0 <= j < |views| ==> ViewOk(views[j], order[j], g, area, reps, row, col)
    requires ViewOk(v, l, g, area, reps, row, col)
    ensures ViewsOk(views + [v], order + [l], g, area, reps, row, col)
  {
  }

  /** A later cell of a class is added to the blob of the class, the `i`-th. */
  lemma FiledExisting(registry: map<Label, Blob>, blobs: seq<Blob>, order: seq<Label>, views: seq<BlobView>,
                      g: Grid, area: Area, reps: map<Label, Label>, row: int, col: int, i: int, v: BlobView)
    requires IsGrid(g, area.height, area.width) && 0 <= row < area.height && 0 <= col < area.width
    requires Collected(registry, blobs, order, views, g, area, reps, row, col)
    requires 0 <= i < |order| && InClass(g, area.height, area.width, reps, order[i], row, col)
    requires ViewOk(v, order[i], g, area, reps, row, col + 1)
    ensures Collected(registry, blobs, order, views[i := v], g, area, reps, row, col + 1)
  {
    RepsStep(g, area.height, area.width, reps, row, col);
    ViewsKept(views, order, g, area, reps, row, col, i);
  }

  /**
   * Files the labelled cell at `row`, `col`, whose representative is `rep`:
   * the first cell of a representative starts a new blob, any later one is
   * added to the representative's blob.
   */
  method FileCell(area: Area, row: int, col: int, rep: Label,
                  registry: map<Label, Blob>, blobs: seq<Blob>, ghost order: seq<Label>, ghost views: seq<BlobView>,
                  ghost g: Grid, ghost reps: map<Label, Label>)
    returns (registry': map<Label, Blob>, blobs': seq<Blob>, ghost order': seq<Label>, ghost views': seq<BlobView>)
    requires IsGrid(g, area.height, area.width) && 0 <= row < area.height && 0 <= col < area.width
    requires g[row][col].Some? && g[row][col].value in reps && reps[g[row][col].value] == rep
    requires Collected(registry, blobs, order, views, g, area, reps, row, col) && Shows(blobs, views)
    modifies blobs
    ensures Collected(registry', blobs', order', views', g, area, reps, row, col + 1) && Shows(blobs', views')
    ensures forall i :: 0 <= i < |blobs'| ==> (i < |blobs| && blobs'[i] == blobs[i]) || fresh(blobs'[i])
  {
    if rep !in registry {
      registry', blobs', order', views' := StartBlob(area, row, col, rep, registry, blobs, order, views, g, reps);
      forall i | 0 <= i < |blobs'|
        ensures (i < |blobs| && blobs'[i] == blobs[i]) || fresh(blobs'[i])
      {
        if i == |blobs| {
          assert fresh(blobs'[|blobs|]);
        }
      }
    } else {
      views' := GrowBlob(area, row, col, rep, registry, blobs, order, views, g, reps);
      registry', blobs', order' := registry, blobs, order;
    }
  }

  /** The first cell of representative `rep` starts a new blob at the end of the list. */
  method StartBlob(area: Area, row: int, col: int, rep: Label,
                   registry: map<Label, Blob>, blobs: seq<Blob>, ghost order: seq<Label>, ghost views: seq<BlobView>,
                   ghost g: Grid, ghost reps: map<Label, Label>)
    returns (registry': map<Label, Blob>, blobs': seq<Blob>, ghost order': seq<Label>, ghost views': seq<BlobView>)
    requires IsGrid(g, area.height, area.width) && 0 <= row < area.height && 0 <= col < area.width
    requires g[row][col].Some? && g[row][col].value in reps && reps[g[row][col].value] == rep
    requires rep !in registry
    requires Collected(registry, blobs, order, views, g, area, reps, row, col) && Shows(blobs, views)
    ensures Collected(registry', blobs', order', views', g, area, reps, row, col + 1) && Shows(blobs', views')
    ensures |blobs'| == |blobs| + 1 && fresh(blobs'[|blobs|])
    ensures forall i :: 0 <= i < |blobs| ==> blobs'[i] == blobs[i]
  {
    var sc := new Blob(area.y + row, area.x + col, rep.ToString());
    registry' := registry[rep := sc];
    blobs' := blobs + [sc];
    order' := order + [rep];
    views' := views + [ViewOf(sc)];
    FiledNew(registry, blobs, order, views, g, area, reps, row, col, sc, ViewOf(sc));
  }

  /** A later cell of representative `rep` is added to the blob already registered for it. */
  method GrowBlob(area: Area, row: int, col: int, rep: Label,
                  registry: map<Label, Blob>, blobs: seq<Blob>, ghost order: seq<Label>, ghost views: seq<BlobView>,
                  ghost g: Grid, ghost reps: map<Label, Label>)
    returns (ghost views': seq<BlobView>)
    requires IsGrid(g, area.height, area.width) && 0 <= row < area.height && 0 <= col < area.width
    requires g[row][col].Some? && g[row][col].value in reps && reps[g[row][col].value] == rep
    requires rep in registry
    requires Collected(registry, blobs, order, views, g, area, reps, row, col) && Shows(blobs, views)
    modifies blobs
    ensures Collected(registry, blobs, order, views', g, area, reps, row, col + 1) && Shows(blobs, views')
  {
    ghost var i :| 0 <= i < |order| && order[i] == rep;
    var sc := registry[rep];
    assert ViewOf(sc) == views[i];
    ExtendBlob(sc, area, row, col, rep, g, reps);
    views' := views[i := ViewOf(sc)];
    FiledExisting(registry, blobs, order, views, g, area, reps, row, col, i, ViewOf(sc));
    forall j | 0 <= j < |blobs| && j != i
      ensures ViewOf(blobs[j]) == views'[j]
    {
      assert blobs[j] != sc;
    }
  }

  /** Adds the cell at `row`, `col` of class `rep` to the blob of that class. */
  method ExtendBlob(sc: Blob, area: Area, row: int, col: int, ghost rep: Label, ghost g: Grid, ghost reps: map<Label, Label>)
    requires IsGrid(g, area.height, area.width) && 0 <= row < area.height && 0 <= col < area.width
    requires InClass(g, area.height, area.width, reps, rep, row, col)
    requires ViewOk(ViewOf(sc), rep, g, area, reps, row, col)
    modifies sc
    ensures ViewOk(ViewOf(sc), rep, g, area, reps, row, col + 1)
  {
    PointsBefore(g, area.height, area.width, area, reps, rep, row, col, sc.anchor);
    ghost var pts := sc.points;
    sc.AddLocation(area.y + row, area.x + col);
    PointsGrow(g, area.height, area.width, area, reps, rep, row, col, pts, sc.points);
  }

  class BlobDetection {
    /** The blobs found by the last `FindClips`. */
    var clips: seq<Blob>
    /** The label equivalence table of the current sheet. */
    var existingLabels: LabelEqTable
    /** The id of the next label to create. */
    var nextId: int
    /** Half the edge of the square window that makes two pixels neighbours. */
    var halfEdge: int

    /** The table is consistent and every registered label is older than `nextId`. */
    ghost predicate Valid()
      reads this, existingLabels
    {
      existingLabels.Valid() && LabelsBelow(existingLabels.eqMap, nextId)
    }

    /** The labelling state as a value. */
    ghost function TableNow(): Table
      reads this, existingLabels
    {
      Table(existingLabels.eqMap, existingLabels.reps, nextId)
    }

    constructor ()
      ensures Valid() && fresh(existingLabels)
      ensures existingLabels.eqMap == map[] && nextId == 1 && halfEdge == 8 && clips == []
    {
      existingLabels := new LabelEqTable();
      nextId := 1;
      halfEdge := 8;
      clips := [];
    }

    /** Forgets the blobs and the labels of the previous sheet. */
    method Clean()
      modifies this`clips, this`existingLabels, this`nextId
      ensures Valid() && fresh(existingLabels)
      ensures existingLabels.eqMap == map[] && nextId == 1 && clips == []
    {
      clips := [];
      existingLabels := new LabelEqTable();
      nextId := 1;
    }

    /** A label never handed out before: its id is the counter, which moves on. */
    method NextLabel() returns (l: Label)
      requires Valid()
      modifies this`nextId
      ensures Valid() && l !in existingLabels.eqMap
      ensures l == Label(old(nextId)) && nextId == old(nextId) + 1
    {
      l := Label(nextId);
      nextId := nextId + 1;
    }

    function GetClips(): seq<Blob>
      reads this
    {
      clips
    }

    method SetThreshold(t: int)
      modifies this`halfEdge
      ensures halfEdge == t
    {
      halfEdge := t;
    }

    /**
     * One labelled or empty cell of the window, met with the label picked so
     * far: the first label met is taken, and any other label met is merged
     * into the class of the picked one.
     */
    method TakeNeighbor(neighbor: Option<Label>, picked: Option<Label>) returns (picked': Option<Label>)
      requires Valid() && (neighbor.Some? ==> neighbor.value in existingLabels.eqMap)
      requires picked.Some? ==> picked.value in existingLabels.eqMap
      modifies existingLabels
      ensures Valid() && Grown(old(TableNow()), TableNow())
      ensures existingLabels.eqMap.Keys == old(existingLabels.eqMap.Keys)
      ensures picked' == if picked.None? then neighbor else picked
      ensures neighbor.None? || neighbor == picked' ==> TableNow() == old(TableNow())
      ensures neighbor.Some? ==> SameClass(existingLabels.reps, neighbor.value, picked'.value)
      ensures existingLabels.reps ==
                if neighbor.Some? && neighbor != picked' then
                  Merge(old(existingLabels.reps), old(existingLabels.reps)[neighbor.value],
                        old(existingLabels.reps)[picked'.value])
                else old(existingLabels.reps)
    {
      picked' := picked;
      if neighbor.Some? && picked'.None? {
        picked' := neighbor;
      }
      if neighbor.Some? && neighbor != picked' {
        if !existingLabels.HasLabel(picked'.value) {
          assert false;
        }
        existingLabels.SetComembers(neighbor.value, picked'.value);
      } else {
        OnlyMergedRefl(existingLabels.eqMap, existingLabels.reps);
      }
    }

    /**
     * The label of the foreground pixel at `rowPixel`, `colPixel`, taken
     * from the labelled cells of the causal part of its window (`g` is the
     * content of `labelSheet`). The first labelled cell found in row-major
     * order gives the label and every other label met is merged into its
     * class; with no labelled cell a fresh label is minted and registered.
     * With a negative `halfEdge` the window is empty and nothing is found.
     */
    method LabelFromNeighborhood(labelSheet: array2<Option<Label>>, width: int, height: int,
                                 colPixel: int, rowPixel: int, xImg: int, yImg: int, ghost g: Grid)
      returns (picked: Option<Label>, ghost minted: bool)
      requires Valid() && labelSheet.Length0 == height && labelSheet.Length1 == width
      requires 0 <= rowPixel < height && 0 <= colPixel < width
      requires Holds(labelSheet, g) && LabelsIn(g, height, width, existingLabels.eqMap)
      requires UnlabelledFrom(g, height, width, rowPixel, colPixel)
      modifies this`nextId, existingLabels
      ensures Valid()
      ensures picked.Some? <==> halfEdge >= 0
      ensures ScanOk(g, Window(halfEdge, height, width, rowPixel, colPixel), rowPixel + 1, 0,
                     picked, minted, old(TableNow()), TableNow())
    {
      var colStart := MaxInt(0, colPixel - halfEdge);
      var rowStart := MaxInt(0, rowPixel - halfEdge);
      var colEnd := MinInt(width - 1, colPixel + halfEdge);
      var rowEnd := MinInt(height - 1, rowPixel + halfEdge);
      ghost var win := Window(halfEdge, height, width, rowPixel, colPixel);
      ghost var t0 := TableNow();
      picked := None;
      minted := false;
      ScanStart(g, win, t0);

      var row := rowStart;
      while row <= rowEnd
        invariant Valid() && LabelsIn(g, height, width, existingLabels.eqMap) && LabelsIn(g, height, width, t0.m)
        invariant halfEdge >= 0 ==> rowStart <= row <= rowEnd + 1
        invariant halfEdge < 0 ==> row == rowStart && picked.None?
        invariant ScanOk(g, win, row, colStart, picked, minted, t0, TableNow())
        invariant halfEdge >= 0 && row > rowPixel ==> picked.Some?
      {
        picked, minted := ScanWindowRow(labelSheet, width, height, colPixel, rowPixel, row, picked, g, win, minted, t0);
        row := row + 1;
      }
      ScanFinish(g, win, row, colStart, picked, minted, t0, TableNow());
    }

    /** Looks at one window cell before the pixel, taking or merging its label. */
    method ScanCell(labelSheet: array2<Option<Label>>, row: int, col: int, picked: Option<Label>,
                    ghost g: Grid, ghost win: Window, ghost minted: bool, ghost t0: Table)
      returns (picked': Option<Label>)
      requires Valid() && labelSheet.Length0 == win.height && labelSheet.Length1 == win.width
      requires IsGrid(g, win.height, win.width) && Holds(labelSheet, g)
      requires LabelsIn(g, win.height, win.width, existingLabels.eqMap) && TableOk(t0)
      requires LabelsIn(g, win.height, win.width, t0.m)
      requires 0 <= row < win.height && 0 <= col < win.width
      requires g[row][col].Some? ==> InWindow(win, row, col)
      requires ScanOk(g, win, row, col, picked, minted, t0, TableNow())
      modifies existingLabels
      ensures Valid() && LabelsIn(g, win.height, win.width, existingLabels.eqMap)
      ensures picked.Some? ==> picked' == picked
      ensures ScanOk(g, win, row, col + 1, picked', minted, t0, TableNow())
    {
      var neighbor := labelSheet[row, col];
      ghost var t := TableNow();
      picked' := TakeNeighbor(neighbor, picked);
      ScanStep(g, win, row, col, neighbor, picked, minted, t0, t, TableNow());
    }

    /**
     * Reaching the pixel itself ends the scan: it keeps the label taken from a
     * neighbour, or else a new label is minted and registered.
     */
    method LabelAtPixel(picked: Option<Label>, ghost g: Grid, ghost win: Window, ghost minted: bool, ghost t0: Table)
      returns (picked': Option<Label>)
      requires Valid() && IsGrid(g, win.height, win.width) && LabelsIn(g, win.height, win.width, existingLabels.eqMap)
      requires TableOk(t0) && ScanOk(g, win, win.row, win.col, picked, minted, t0, TableNow())
      modifies this`nextId, existingLabels
      ensures Valid() && LabelsIn(g, win.height, win.width, existingLabels.eqMap)
      ensures picked.Some? ==> picked' == picked
      ensures picked.None? ==> picked' == Some(Label(old(nextId))) && nextId == old(nextId) + 1
      ensures picked.None? ==>
                existingLabels.eqMap == old(existingLabels.eqMap)[picked'.value := picked'.value] &&
                existingLabels.reps == old(existingLabels.reps)[picked'.value := picked'.value]
      ensures picked.Some? ==> TableNow() == old(TableNow())
      ensures ScanOk(g, win, win.row + 1, MaxInt(0, win.col - win.k), picked', picked.None?, t0, TableNow())
    {
      ghost var t := TableNow();
      picked' := picked;
      if picked.None? {
        var l := NextLabel();
        var isNew := existingLabels.AddLabel(l);
        picked' := Some(l);
      }
      ScanAtPixel(g, win, picked, minted, t0, t, TableNow(), picked'.value);
    }

    /**
     * The inner loop of `LabelFromNeighborhood`: the scan of window row
     * `row` from the first window column to the last, which stops at the
     * pixel itself and mints a label there when none was picked.
     */
    method ScanWindowRow(labelSheet: array2<Option<Label>>, width: int, height: int,
                         colPixel: int, rowPixel: int, row: int, picked: Option<Label>,
                         ghost g: Grid, ghost win: Window, ghost minted: bool, ghost t0: Table)
      returns (picked': Option<Label>, ghost minted': bool)
      requires Valid() && labelSheet.Length0 == height && labelSheet.Length1 == width
      requires 0 <= rowPixel < height && 0 <= colPixel < width
      requires win == Window(halfEdge, height, width, rowPixel, colPixel)
      requires Holds(labelSheet, g) && LabelsIn(g, height, width, existingLabels.eqMap) && TableOk(t0)
      requires LabelsIn(g, height, width, t0.m) && UnlabelledFrom(g, height, width, rowPixel, colPixel)
      requires MaxInt(0, rowPixel - halfEdge) <= row <= MinInt(height - 1, rowPixel + halfEdge)
      requires ScanOk(g, win, row, MaxInt(0, colPixel - halfEdge), picked, minted, t0, TableNow())
      requires row > rowPixel ==> picked.Some?
      modifies this`nextId, existingLabels
      ensures Valid() && LabelsIn(g, height, width, existingLabels.eqMap)
      ensures ScanOk(g, win, row + 1, MaxInt(0, colPixel - win.k), picked', minted', t0, TableNow())
      ensures row >= rowPixel ==> picked'.Some?
    {
      var colStart := MaxInt(0, colPixel - halfEdge);
      var colEnd := MinInt(width - 1, colPixel + halfEdge);
      picked', minted' := picked, minted;
      var col := colStart;
      while col <= colEnd
        invariant Valid() && LabelsIn(g, height, width, existingLabels.eqMap)
        invariant colStart <= col <= colEnd + 1
        invariant ScanOk(g, win, row, col, picked', minted', t0, TableNow())
        invariant row > rowPixel ==> picked'.Some?
        invariant row == rowPixel ==> col <= colPixel
      {
        if row == rowPixel && col == colPixel {
          minted' := picked'.None?;
          picked' := LabelAtPixel(picked', g, win, minted, t0);
          return;
        }
        picked' := ScanCell(labelSheet, row, col, picked', g, win, minted', t0);
        col := col + 1;
      }
      ScanRowEnd(g, win, row, picked', minted', t0, TableNow());
    }

    /**
     * The first pass of `GetSpriteClips`: every foreground pixel of the
     * area, in row-major order, gets the label `LabelFromNeighborhood`
     * picks for it.
     */
    method LabelPixels(sheet: Sheet, area: Area) returns (labelSheet: array2<Option<Label>>, ghost g: Grid)
      requires Valid() && AreaInImage(sheet, area)
      modifies this`nextId, existingLabels
      ensures Valid() && fresh(labelSheet) && Holds(labelSheet, g)
      ensures labelSheet.Length0 == area.height && labelSheet.Length1 == area.width
      ensures PassOneOk(sheet, area, halfEdge, g, area.height, 0, TableNow())
      ensures Grown(old(TableNow()), TableNow())
    {
      var h, w, x, y := area.height, area.width, area.x, area.y;
      labelSheet := new Option<Label>[h, w]((_, _) => None);
      g := Unlabelled(h, w);
      ghost var t0 := TableNow();
      PassOneStart(sheet, area, halfEdge, t0);
      OnlyMergedRefl(t0.m, t0.reps);
      for row := 0 to h
        invariant Valid() && Holds(labelSheet, g)
        invariant PassOneOk(sheet, area, halfEdge, g, row, 0, TableNow()) && Grown(t0, TableNow())
      {
        for col := 0 to w
          invariant Valid()
          invariant Holds(labelSheet, g)
          invariant PassOneOk(sheet, area, halfEdge, g, row, col, TableNow()) && Grown(t0, TableNow())
        {
          var currentPixel := sheet.image[y + row][x + col];
          ghost var t := TableNow();
          if !IsForeground(currentPixel, sheet.background) {
            OnlyMergedRefl(t.m, t.reps);
            PassOneCell(sheet, area, halfEdge, g, row, col, t, t, None);
            g := SetCell(g, row, col, None);
            continue;
          }
          assert Foreground(sheet, area, row, col);
          var returnedLabel, minted := LabelFromNeighborhood(labelSheet, w, h, col, row, x, y, g);
          PassOneCell(sheet, area, halfEdge, g, row, col, t, TableNow(), returnedLabel);
          labelSheet[row, col] := returnedLabel;
          g := SetCell(g, row, col, returnedLabel);
          assert Holds(labelSheet, g) by {
            forall r, c | 0 <= r < h && 0 <= c < w
              ensures labelSheet[r, c] == g[r][c]
            {
              if r != row || c != col { }
            }
          }
          GrownTrans(t0, t, TableNow());
        }
        PassOneRowEnd(sheet, area, halfEdge, g, row, TableNow());
      }
    }
  

    /**
     * The second pass at one cell: a labelled cell is reduced to its
     * representative and filed under it.
     */
    method CollectCell(labelSheet: array2<Option<Label>>, area: Area, row: int, col: int,
                       registry: map<Label, Blob>, blobs: seq<Blob>, ghost order: seq<Label>,
                       ghost views: seq<BlobView>, ghost g: Grid)
      returns (registry': map<Label, Blob>, blobs': seq<Blob>, ghost order': seq<Label>, ghost views': seq<BlobView>)
      requires Valid() && Holds(labelSheet, g)
      requires labelSheet.Length0 == area.height && labelSheet.Length1 == area.width
      requires 0 <= row < area.height && 0 <= col < area.width
      requires LabelsIn(g, area.height, area.width, existingLabels.eqMap)
      requires Collected(registry, blobs, order, views, g, area, existingLabels.reps, row, col) && Shows(blobs, views)
      modifies existingLabels`eqMap, blobs
      ensures Valid() && existingLabels.reps == old(existingLabels.reps)
      ensures existingLabels.eqMap.Keys == old(existingLabels.eqMap.Keys)
      ensures Collected(registry', blobs', order', views', g, area, existingLabels.reps, row, col + 1)
      ensures Shows(blobs', views')
      ensures forall i :: 0 <= i < |blobs'| ==> (i < |blobs| && blobs'[i] == blobs[i]) || fresh(blobs'[i])
    {
      var currentLabel := labelSheet[row, col];
      if currentLabel.None? {
        CollectNothing(registry, blobs, order, views, g, area, existingLabels.reps, row, col);
        return registry, blobs, order, views;
      }
      var rep := existingLabels.GetRep(currentLabel.value);
      registry', blobs', order', views' := FileCell(area, row, col, rep, registry, blobs, order, views, g, existingLabels.reps);
    }

    /**
     * The second pass: every labelled cell, in row-major order, is reduced
     * to its representative and collected into that representative's blob.
     */
    method CollectBlobs(labelSheet: array2<Option<Label>>, area: Area, ghost g: Grid)
      returns (blobs: seq<Blob>, ghost order: seq<Label>)
      requires Valid() && Holds(labelSheet, g)
      requires labelSheet.Length0 == area.height && labelSheet.Length1 == area.width
      requires LabelsIn(g, area.height, area.width, existingLabels.eqMap)
      modifies existingLabels`eqMap
      ensures Valid() && existingLabels.reps == old(existingLabels.reps)
      ensures existingLabels.eqMap.Keys == old(existingLabels.eqMap.Keys)
      ensures |order| == |blobs| && forall i :: 0 <= i < |blobs| ==> fresh(blobs[i])
      ensures forall i :: 0 <= i < |blobs| ==>
                blobs[i].Valid() && AnchorFirst(blobs[i]) && blobs[i].name == order[i].ToString()
      ensures ClassesListed(g, area.height, area.width, area, existingLabels.reps, order, PointsOf(blobs))
    {
      var registry: map<Label, Blob> := map[];
      blobs, order := [], [];
      ghost var views: seq<BlobView> := [];
      ghost var keys, reps := existingLabels.eqMap.Keys, existingLabels.reps;
      for row := 0 to area.height
        invariant Valid() && existingLabels.reps == reps && existingLabels.eqMap.Keys == keys
        invariant forall i :: 0 <= i < |blobs| ==> fresh(blobs[i])
        invariant Collected(registry, blobs, order, views, g, area, reps, row, 0) && Shows(blobs, views)
      {
        for col := 0 to area.width
          invariant Valid() && existingLabels.reps == reps && existingLabels.eqMap.Keys == keys
          invariant forall i :: 0 <= i < |blobs| ==> fresh(blobs[i])
          invariant Collected(registry, blobs, order, views, g, area, reps, row, col) && Shows(blobs, views)
        {
          registry, blobs, order, views := CollectCell(labelSheet, area, row, col, registry, blobs, order, views, g);
        }
        PassTwoRowEnd(g, area.height, area.width, area, reps, row);
      }
      CollectedListed(registry, blobs, order, views, g, area, reps);
    }
  

    /**
     * The blobs of the area: the first pass labels the foreground pixels,
     * the second gathers the pixels of each class into one blob.  The blobs
     * partition the foreground of the area into sets closed under
     * neighbourhood, each with its first pixel as anchor and a name of its
     * own.
     */
    method GetSpriteClips(sheet: Sheet, area: Area) returns (result: seq<Blob>, ghost order: seq<Label>)
      requires Valid() && AreaInImage(sheet, area)
      modifies this`nextId, existingLabels
      ensures Valid() && |order| == |result|
      ensures forall i :: 0 <= i < |result| ==> fresh(result[i]) && result[i].Valid() && AnchorFirst(result[i])
      ensures forall i {:trigger order[i]} :: 0 <= i < |result| ==> result[i].name == order[i].ToString()
      ensures forall i :: 0 <= i < |order| ==> order[i] in existingLabels.reps && existingLabels.reps[order[i]] == order[i]
      ensures forall i, j :: 0 <= i < j < |order| ==> order[i] != order[j]
      ensures forall i, j :: 0 <= i < j < |result| ==> result[i].name != result[j].name
      ensures BlobPartition(sheet, area, halfEdge, PointsOf(result))
    {
      var labelSheet, g := LabelPixels(sheet, area);
      ghost var t1 := TableNow();
      result, order := CollectBlobs(labelSheet, area, g);
      ClassesArePartition(sheet, area, halfEdge, g, t1, order, PointsOf(result));
      forall i | 0 <= i < |order| ensures order[i] in t1.reps && t1.reps[order[i]] == order[i] {
        ListedAreReps(g, area.height, area.width, area, t1, order, PointsOf(result), i);
      }
      forall i, j | 0 <= i < j < |result| ensures result[i].name != result[j].name {
        NamesDistinct(order[i], order[j]);
      }
    }

    /**
     * Finds the blobs of the area and keeps them, each with its anchor moved
     * to the top-left corner of its bounding box.
     */
    method FindClips(sheet: Sheet, area: Area)
      requires Valid() && AreaInImage(sheet, area)
      modifies this`clips, this`nextId, existingLabels
      ensures Valid()
      ensures forall i :: 0 <= i < |clips| ==>
                fresh(clips[i]) && clips[i].Valid() && clips[i].anchor == Point(clips[i].GetX(), clips[i].GetY())
      ensures forall i, j :: 0 <= i < j < |clips| ==> clips[i].name != clips[j].name
      ensures BlobPartition(sheet, area, halfEdge, PointsOf(clips))
    {
      var found;
      ghost var order;
      found, order := GetSpriteClips(sheet, area);
      ghost var k, pts := halfEdge, PointsOf(found);
      clips := found;
      ResetAnchors(found);
      assert halfEdge == k && PointsOf(clips) == pts;
    }
  }

  /**
   * Moves the anchor of every blob to the top-left corner of its bounding
   * box. A blob listed twice is simply moved twice, to the same place.
   */
  method ResetAnchors(found: seq<Blob>)
    requires forall i :: 0 <= i < |found| ==> found[i].Valid()
    modifies found
    ensures forall i :: 0 <= i < |found| ==>
              found[i].Valid() && found[i].anchor == Point(found[i].GetX(), found[i].GetY())
    ensures forall i :: 0 <= i < |found| ==>
              found[i].points == old(found[i].points) && found[i].name == old(found[i].name) &&
              found[i].box == old(found[i].box)
    ensures PointsOf(found) == old(PointsOf(found))
    ensures (forall i, j :: 0 <= i < j < |found| ==> old(found[i].name) != old(found[j].name)) ==>
              forall i, j :: 0 <= i < j < |found| ==> found[i].name != found[j].name
  {
    for k := 0 to |found|
      invariant forall i :: 0 <= i < |found| ==> found[i].Valid()
      invariant forall i :: 0 <= i < |found| ==>
                  found[i].points == old(found[i].points) && found[i].name == old(found[i].name) &&
                  found[i].box == old(found[i].box)
      invariant forall i :: 0 <= i < k ==> found[i].anchor == Point(found[i].box.value.x, found[i].box.value.y)
    {
      var b := found[k];
      b.anchor := Point(b.GetX(), b.GetY());
    }
  }
}
