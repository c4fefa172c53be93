/**
 * The specification side of the two-pass connected-component labelling that
 * blob detection runs over a rectangular area of a sprite sheet: the pixel
 * grid, the label grid, the causal window a pixel takes its label from, and
 * the invariants of both passes with the lemmas that carry them from one
 * cell to the next.
 */
module Components {
  import opened Wrappers
  import opened Labels
  import opened LabelEqTables
  import opened Blobs

  /** The selected rectangle of the sheet, in image coordinates. */
  datatype Area = Area(x: int, y: int, width: int, height: int)

  /** The sheet's pixels, row by row, and the pixel value that counts as background. */
  datatype Sheet = Sheet(image: seq<seq<int>>, background: int)

  /** The area lies inside the image. */
  predicate AreaInImage(sheet: Sheet, area: Area) {
    0 <= area.x && 0 <= area.y && 0 <= area.width && 0 <= area.height &&
    area.y + area.height <= |sheet.image| &&
    forall r :: area.y <= r < area.y + area.height ==> area.x + area.width <= |sheet.image[r]|
  }

  /** A pixel is foreground exactly when it differs from the background value. */
  predicate IsForeground(pixel: int, backgroundValue: int) {
    pixel != backgroundValue
  }

  /** Whether the pixel at `row`, `col` of the area is foreground. */
  predicate Foreground(sheet: Sheet, area: Area, row: int, col: int)
    requires AreaInImage(sheet, area) && 0 <= row < area.height && 0 <= col < area.width
  {
    IsForeground(sheet.image[area.y + row][area.x + col], sheet.background)
  }

  /** Image coordinates of the cell at `row`, `col` of the area. */
  function CellPoint(area: Area, row: int, col: int): Point {
    Point(area.x + col, area.y + row)
  }

  /** One optional label per cell of the area. */
  type Grid = seq<seq<Option<Label>>>

  predicate IsGrid(g: Grid, height: int, width: int) {
    |g| == height && forall r :: 0 <= r < height ==> |g[r]| == width
  }

  /** Row-major order of cells. */
  predicate Before(r1: int, c1: int, r2: int, c2: int) {
    r1 < r2 || (r1 == r2 && c1 < c2)
  }

  /** The two cells are at most `k` rows and at most `k` columns apart. */
  predicate Near(k: int, r1: int, c1: int, r2: int, c2: int) {
    -k <= r1 - r2 <= k && -k <= c1 - c2 <= k
  }

  /** Every label on the grid is registered in `m`. */
  ghost predicate LabelsIn(g: Grid, height: int, width: int, m: EqMap)
    requires IsGrid(g, height, width)
  {
    forall r, c :: 0 <= r < height && 0 <= c < width && g[r][c].Some? ==> g[r][c].value in m
  }

  /** No cell at or after `row`, `col` carries a label yet. */
  ghost predicate UnlabelledFrom(g: Grid, height: int, width: int, row: int, col: int)
    requires IsGrid(g, height, width)
  {
    forall r, c :: 0 <= r < height && 0 <= c < width && !Before(r, c, row, col) ==> g[r][c].None?
  }

  /** Every registered label has an id below `nextId`. */
  ghost predicate LabelsBelow(m: EqMap, nextId: int) {
    forall l :: l in m ==> l.id < nextId
  }

  /** The two labels are registered in `reps` and have the same representative. */
  ghost predicate SameClass(reps: map<Label, Label>, a: Label, b: Label) {
    a in reps && b in reps && reps[a] == reps[b]
  }

  /** The parent map, the representatives and the next id to mint. */
  datatype Table = Table(m: EqMap, reps: map<Label, Label>, nextId: int)

  ghost predicate TableOk(t: Table) {
    ParentsDecrease(t.m) && RepsConsistent(t.m, t.reps) && LabelsBelow(t.m, t.nextId)
  }

  /** `after` grows from `before` only by registering labels and merging classes. */
  ghost predicate Grown(before: Table, after: Table) {
    before.m.Keys <= after.m.Keys && OnlyMerged(before.reps, after.reps) && before.nextId <= after.nextId
  }

  lemma GrownTrans(t0: Table, t1: Table, t2: Table)
    requires TableOk(t0) && Grown(t0, t1) && Grown(t1, t2)
    ensures Grown(t0, t2)
  {
    OnlyMergedTrans(t0.m, t0.reps, t1.reps, t2.reps);
  }

  /** Registering a fresh self-mapped label keeps every class. */
  lemma RegisterOnlyMerges(t: Table, l: Label)
    requires TableOk(t) && l !in t.m
    ensures OnlyMerged(t.reps, t.reps[l := l])
  {
    var after := t.reps[l := l];
    forall k | k in t.reps
      ensures MergedAt(t.reps, after, k)
    {
      RepOfRep(t.m, t.reps, k);
    }
  }

  /* ----- The causal window of `LabelFromNeighborhood` ----- */

  /**
   * The pixel being labelled, the half-width `k` of its window and the size
   * of the area the window is clipped to.
   */
  datatype Window = Window(k: int, height: int, width: int, row: int, col: int)

  /**
   * A cell of the clipped window that comes before the pixel in row-major
   * order: the only window cells that can already carry a label.
   */
  predicate InWindow(win: Window, r: int, c: int) {
    0 <= r < win.height && 0 <= c < win.width &&
    Near(win.k, r, c, win.row, win.col) && Before(r, c, win.row, win.col)
  }

  /**
   * The causal window is what the scan visits before it reaches the pixel:
   * rows from max(0, row - k) to min(height - 1, row + k), columns likewise,
   * in row-major order up to the pixel itself.
   */
  lemma InWindowClipped(win: Window, r: int, c: int)
    ensures InWindow(win, r, c) <==>
              MaxInt(0, win.row - win.k) <= r <= MinInt(win.height - 1, win.row + win.k) &&
              MaxInt(0, win.col - win.k) <= c <= MinInt(win.width - 1, win.col + win.k) &&
              Before(r, c, win.row, win.col)
  {
  }

  /** A causal window cell that the scan has passed when it stands at `row`, `col`. */
  predicate Scanned(win: Window, row: int, col: int, r: int, c: int) {
    InWindow(win, r, c) && Before(r, c, row, col)
  }

  ghost predicate AllNone(g: Grid, win: Window, row: int, col: int)
    requires IsGrid(g, win.height, win.width)
  {
    forall r, c :: Scanned(win, row, col, r, c) ==> g[r][c].None?
  }

  /** Every labelled cell scanned so far is in the class of `a`. */
  ghost predicate Joined(g: Grid, win: Window, row: int, col: int, reps: map<Label, Label>, a: Label)
    requires IsGrid(g, win.height, win.width)
  {
    forall r, c :: Scanned(win, row, col, r, c) && g[r][c].Some? ==> SameClass(reps, g[r][c].value, a)
  }

  /** `fr`, `fc` is the first labelled cell scanned so far. */
  ghost predicate FirstAt(g: Grid, win: Window, row: int, col: int, fr: int, fc: int)
    requires IsGrid(g, win.height, win.width)
  {
    Scanned(win, row, col, fr, fc) && g[fr][fc].Some? && AllNone(g, win, fr, fc)
  }

  /** The label `a` is on the first labelled cell scanned so far. */
  ghost predicate PickedFirst(g: Grid, win: Window, row: int, col: int, a: Label)
    requires IsGrid(g, win.height, win.width)
  {
    exists fr, fc :: FirstAt(g, win, row, col, fr, fc) && g[fr][fc] == Some(a)
  }

  /** Some labelled cell the scan has passed was in the class `u` had in `reps0`. */
  ghost predicate MeetsWindow(g: Grid, win: Window, row: int, col: int, reps0: map<Label, Label>, u: Label)
    requires IsGrid(g, win.height, win.width)
  {
    exists r, c :: Scanned(win, row, col, r, c) && g[r][c].Some? && g[r][c].value in reps0 &&
                   u in reps0 && reps0[g[r][c].value] == reps0[u]
  }

  /**
   * The label `u` of `t0`, seen from the picked label `a`: when `u` is now
   * in the class of `a`, its class in `t0` was met by the scan; otherwise
   * its representative is still the one it had in `t0`.
   */
  ghost predicate FusedAt(g: Grid, win: Window, row: int, col: int, a: Label, t0: Table, t: Table, u: Label)
    requires IsGrid(g, win.height, win.width)
  {
    u in t0.reps && u in t.reps && a in t.reps ==>
      (t.reps[u] == t.reps[a] ==> MeetsWindow(g, win, row, col, t0.reps, u)) &&
      (t.reps[u] != t.reps[a] ==> t.reps[u] == t0.reps[u])
  }

  /**
   * The classes the scan has joined: none while nothing is picked; then
   * exactly the classes of `t0` met in the window, joined with the class of
   * the picked label.
   */
  ghost predicate MergedInWindow(g: Grid, win: Window, row: int, col: int,
                                 picked: Option<Label>, t0: Table, t: Table)
    requires IsGrid(g, win.height, win.width)
  {
    (picked.None? ==> t.reps == t0.reps) &&
    (picked.Some? ==>
      forall u {:trigger FusedAt(g, win, row, col, picked.value, t0, t, u)} ::
        FusedAt(g, win, row, col, picked.value, t0, t, u))
  }

  /** Passing more cells keeps the record of the joined classes. */
  lemma MergedMove(g: Grid, win: Window, row: int, col: int, row': int, col': int,
                   picked: Option<Label>, t0: Table, t: Table)
    requires IsGrid(g, win.height, win.width)
    requires MergedInWindow(g, win, row, col, picked, t0, t)
    requires forall r, c :: Scanned(win, row, col, r, c) ==> Scanned(win, row', col', r, c)
    ensures MergedInWindow(g, win, row', col', picked, t0, t)
  {
    if picked.Some? {
      var a := picked.value;
      forall u
        ensures FusedAt(g, win, row', col', a, t0, t, u)
      {
        assert FusedAt(g, win, row, col, a, t0, t, u);
        if u in t0.reps && u in t.reps && a in t.reps && t.reps[u] == t.reps[a] {
          var r, c :| Scanned(win, row, col, r, c) && g[r][c].Some? && g[r][c].value in t0.reps &&
                      t0.reps[g[r][c].value] == t0.reps[u];
          assert Scanned(win, row', col', r, c);
        }
      }
    }
  }

  /**
   * The state of the window scan at `row`, `col`, starting from table `t0`:
   * the label picked so far (`picked`), whether it was minted, and the
   * current table `t`.
   */
  ghost predicate ScanOk(g: Grid, win: Window, row: int, col: int,
                         picked: Option<Label>, minted: bool, t0: Table, t: Table)
    requires IsGrid(g, win.height, win.width)
  {
    TableOk(t) && Grown(t0, t) &&
    (picked.None? ==>
      !minted && AllNone(g, win, row, col) && t.nextId == t0.nextId && t.m.Keys == t0.m.Keys) &&
    (picked.Some? ==> picked.value in t.m && Joined(g, win, row, col, t.reps, picked.value)) &&
    (picked.Some? && !minted ==>
      PickedFirst(g, win, row, col, picked.value) && t.nextId == t0.nextId && t.m.Keys == t0.m.Keys) &&
    (minted ==>
      row > win.row && picked == Some(Label(t0.nextId)) && t.nextId == t0.nextId + 1 &&
      t.m.Keys == t0.m.Keys + {Label(t0.nextId)} && AllNone(g, win, row, col)) &&
    MergedInWindow(g, win, row, col, picked, t0, t)
  }

  /** The scan starts at the top-left corner of the clipped window with nothing found. */
  lemma ScanStart(g: Grid, win: Window, t0: Table)
    requires IsGrid(g, win.height, win.width) && TableOk(t0)
    ensures ScanOk(g, win, MaxInt(0, win.row - win.k), MaxInt(0, win.col - win.k), None, false, t0, t0)
  {
    OnlyMergedRefl(t0.m, t0.reps);
  }

  /** The scan state depends only on which causal cells have been passed. */
  lemma ScanMove(g: Grid, win: Window, row: int, col: int, row': int, col': int,
                 picked: Option<Label>, minted: bool, t0: Table, t: Table)
    requires IsGrid(g, win.height, win.width)
    requires ScanOk(g, win, row, col, picked, minted, t0, t)
    requires minted ==> row' > win.row
    requires forall r, c :: Scanned(win, row, col, r, c) <==> Scanned(win, row', col', r, c)
    ensures ScanOk(g, win, row', col', picked, minted, t0, t)
  {
    if picked.Some? && !minted {
      var fr, fc :| FirstAt(g, win, row, col, fr, fc) && g[fr][fc] == picked;
      assert FirstAt(g, win, row', col', fr, fc);
    }
    MergedMove(g, win, row, col, row', col', picked, t0, t);
  }

  /** Passing an unlabelled cell changes nothing. */
  lemma ScanEmptyCell(g: Grid, win: Window, row: int, col: int,
                      picked: Option<Label>, minted: bool, t0: Table, t: Table)
    requires IsGrid(g, win.height, win.width) && 0 <= row < win.height && 0 <= col < win.width
    requires ScanOk(g, win, row, col, picked, minted, t0, t)
    requires g[row][col].None?
    ensures ScanOk(g, win, row, col + 1, picked, minted, t0, t)
  {
    if picked.Some? && !minted {
      var fr, fc :| FirstAt(g, win, row, col, fr, fc) && g[fr][fc] == picked;
      assert FirstAt(g, win, row, col + 1, fr, fc);
    }
    MergedMove(g, win, row, col, row, col + 1, picked, t0, t);
  }

  /** The first labelled cell provides the label. */
  lemma ScanFirstLabel(g: Grid, win: Window, row: int, col: int, t0: Table, t: Table)
    requires IsGrid(g, win.height, win.width) && InWindow(win, row, col)
    requires ScanOk(g, win, row, col, None, false, t0, t)
    requires g[row][col].Some? && g[row][col].value in t.m
    ensures ScanOk(g, win, row, col + 1, g[row][col], false, t0, t)
  {
    var a := g[row][col].value;
    assert a in t.reps by { assert RepsConsistent(t.m, t.reps); }
    assert SameClass(t.reps, a, a);
    assert FirstAt(g, win, row, col + 1, row, col);
    FirstFused(g, win, row, col, t0, t);
  }

  /** The first label met records its own class of `t0` as met. */
  lemma FirstFused(g: Grid, win: Window, row: int, col: int, t0: Table, t: Table)
    requires IsGrid(g, win.height, win.width) && InWindow(win, row, col)
    requires t.reps == t0.reps && g[row][col].Some? && g[row][col].value in t.reps
    ensures MergedInWindow(g, win, row, col + 1, g[row][col], t0, t)
  {
    var a := g[row][col].value;
    assert Scanned(win, row, col + 1, row, col);
    forall u | u in t0.reps && t.reps[u] == t.reps[a]
      ensures MeetsWindow(g, win, row, col + 1, t0.reps, u)
    {
    }
  }

  /** A cell holding the label already picked joins nothing new. */
  lemma ScanSameLabel(g: Grid, win: Window, row: int, col: int,
                      a: Label, minted: bool, t0: Table, t: Table)
    requires IsGrid(g, win.height, win.width) && 0 <= row < win.height && 0 <= col < win.width
    requires ScanOk(g, win, row, col, Some(a), minted, t0, t)
    requires g[row][col] == Some(a)
    ensures ScanOk(g, win, row, col + 1, Some(a), minted, t0, t)
  {
    assert a in t.reps by { assert RepsConsistent(t.m, t.reps); }
    assert SameClass(t.reps, a, a);
    if !minted {
      var fr, fc :| FirstAt(g, win, row, col, fr, fc) && g[fr][fc] == Some(a);
      assert FirstAt(g, win, row, col + 1, fr, fc);
    }
    MergedMove(g, win, row, col, row, col + 1, Some(a), t0, t);
  }

  /** A cell with another label is merged into the class of the picked label. */
  lemma ScanMerge(g: Grid, win: Window, row: int, col: int,
                  a: Label, minted: bool, t0: Table, t: Table, t': Table)
    requires TableOk(t0)
    requires IsGrid(g, win.height, win.width) && 0 <= row < win.height && 0 <= col < win.width
    requires ScanOk(g, win, row, col, Some(a), minted, t0, t)
    requires g[row][col].Some? && InWindow(win, row, col) && g[row][col].value in t0.m
    requires TableOk(t') && Grown(t, t') && t'.m.Keys == t.m.Keys && t'.nextId == t.nextId
    requires SameClass(t'.reps, g[row][col].value, a)
    requires t'.reps == Merge(t.reps, t.reps[g[row][col].value], t.reps[a])
    ensures ScanOk(g, win, row, col + 1, Some(a), minted, t0, t')
  {
    GrownTrans(t0, t, t');
    MergeFused(g, win, row, col, a, t0, t, t');
    forall r, c | Scanned(win, row, col + 1, r, c) && g[r][c].Some?
      ensures SameClass(t'.reps, g[r][c].value, a)
    {
      if Before(r, c, row, col) {
        assert SameClass(t.reps, g[r][c].value, a);
        OnlyMergedKeepsTogether(t.reps, t'.reps, g[r][c].value, a);
      }
    }
    if !minted {
      var fr, fc :| FirstAt(g, win, row, col, fr, fc) && g[fr][fc] == Some(a);
      assert FirstAt(g, win, row, col + 1, fr, fc);
    }
  }

  /** Joining the class of a window cell's label keeps the record of the joined classes. */
  lemma MergeFused(g: Grid, win: Window, row: int, col: int, a: Label, t0: Table, t: Table, t': Table)
    requires TableOk(t0) && TableOk(t) && Grown(t0, t)
    requires IsGrid(g, win.height, win.width) && 0 <= row < win.height && 0 <= col < win.width
    requires MergedInWindow(g, win, row, col, Some(a), t0, t) && a in t.m
    requires g[row][col].Some? && InWindow(win, row, col) && g[row][col].value in t0.m
    requires t'.reps == Merge(t.reps, t.reps[g[row][col].value], t.reps[a])
    ensures MergedInWindow(g, win, row, col + 1, Some(a), t0, t')
  {
    var n := g[row][col].value;
    assert RepsConsistent(t.m, t.reps) && RepsConsistent(t0.m, t0.reps);
    assert Scanned(win, row, col + 1, row, col);
    var next := col + 1;
    forall u
      ensures FusedAt(g, win, row, next, a, t0, t', u)
    {
      assert FusedAt(g, win, row, col, a, t0, t, u);
      if u in t0.reps {
        if t.reps[u] == t.reps[a] {
          var r, c :| Scanned(win, row, col, r, c) && g[r][c].Some? && g[r][c].value in t0.reps &&
                      t0.reps[g[r][c].value] == t0.reps[u];
          assert Scanned(win, row, col + 1, r, c);
        } else if t.reps[u] == t.reps[n] {
          assert FusedAt(g, win, row, col, a, t0, t, n);
        }
      }
    }
  }

  /**
   * One step of the scan over a window cell holding `neighbor`, with
   * `before` picked so far: the label picked next is the first one met, and
   * the table `t'` after the step has merged `neighbor` into its class.
   */
  lemma ScanStep(g: Grid, win: Window, row: int, col: int, neighbor: Option<Label>,
                 before: Option<Label>, minted: bool, t0: Table, t: Table, t': Table)
    requires TableOk(t0)
    requires IsGrid(g, win.height, win.width) && 0 <= row < win.height && 0 <= col < win.width
    requires ScanOk(g, win, row, col, before, minted, t0, t)
    requires g[row][col] == neighbor && (neighbor.Some? ==> neighbor.value in t0.m && InWindow(win, row, col))
    requires TableOk(t') && Grown(t, t') && t'.m.Keys == t.m.Keys && t'.nextId == t.nextId
    requires var picked := if before.None? then neighbor else before;
             (neighbor.None? || neighbor == picked ==> t' == t) &&
             (neighbor.Some? ==> SameClass(t'.reps, neighbor.value, picked.value)) &&
             (neighbor.Some? && neighbor != picked ==>
                t'.reps == Merge(t.reps, t.reps[neighbor.value], t.reps[picked.value]))
    ensures ScanOk(g, win, row, col + 1, if before.None? then neighbor else before, minted, t0, t')
  {
    if neighbor.None? {
      ScanEmptyCell(g, win, row, col, before, minted, t0, t);
    } else if before.None? {
      ScanFirstLabel(g, win, row, col, t0, t);
    } else if neighbor == before {
      ScanSameLabel(g, win, row, col, before.value, minted, t0, t);
    } else {
      ScanMerge(g, win, row, col, before.value, minted, t0, t, t');
    }
  }

  /** Reaching the pixel with nothing found mints a fresh label and ends the causal scan. */
  lemma ScanMint(g: Grid, win: Window, t0: Table, t: Table, t': Table, l: Label)
    requires TableOk(t0)
    requires IsGrid(g, win.height, win.width)
    requires ScanOk(g, win, win.row, win.col, None, false, t0, t)
    requires l == Label(t.nextId)
    requires t'.m == t.m[l := l] && t'.reps == t.reps[l := l] && t'.nextId == t.nextId + 1
    ensures l !in t.m
    ensures ScanOk(g, win, win.row + 1, MaxInt(0, win.col - win.k), Some(l), true, t0, t')
  {
    RegisterKeepsReps(t.m, t.reps, l);
    RegisterOnlyMerges(t, l);
    GrownTrans(t0, t, t');
    assert SameClass(t'.reps, l, l);
    var row', col' := win.row + 1, MaxInt(0, win.col - win.k);
    forall u
      ensures FusedAt(g, win, row', col', l, t0, t', u)
    {
      if u in t0.reps {
        assert RepOk(t0.m, t0.reps, u);
      }
    }
  }

  /**
   * The scan reaches the pixel: with nothing picked, the fresh label `l`
   * registered in `t'` is picked; either way the causal scan is over.
   */
  lemma ScanAtPixel(g: Grid, win: Window, before: Option<Label>, minted: bool,
                    t0: Table, t: Table, t': Table, l: Label)
    requires TableOk(t0)
    requires IsGrid(g, win.height, win.width)
    requires ScanOk(g, win, win.row, win.col, before, minted, t0, t)
    requires before.None? ==>
               l == Label(t.nextId) && t'.m == t.m[l := l] && t'.reps == t.reps[l := l] && t'.nextId == t.nextId + 1
    requires before.Some? ==> t' == t
    ensures ScanOk(g, win, win.row + 1, MaxInt(0, win.col - win.k),
                   if before.None? then Some(l) else before, before.None?, t0, t')
  {
    if before.None? {
      ScanMint(g, win, t0, t, t', l);
    } else {
      ScanMove(g, win, win.row, win.col, win.row + 1, MaxInt(0, win.col - win.k), before, minted, t0, t);
    }
  }

  /** The scan passes the last window column of a row and moves to the next row. */
  lemma ScanRowEnd(g: Grid, win: Window, row: int, picked: Option<Label>, minted: bool, t0: Table, t: Table)
    requires IsGrid(g, win.height, win.width)
    requires ScanOk(g, win, row, MinInt(win.width - 1, win.col + win.k) + 1, picked, minted, t0, t)
    ensures ScanOk(g, win, row + 1, MaxInt(0, win.col - win.k), picked, minted, t0, t)
  {
    ScanMove(g, win, row, MinInt(win.width - 1, win.col + win.k) + 1, row + 1, MaxInt(0, win.col - win.k),
             picked, minted, t0, t);
  }

  /** Past the last window row, every causal cell has been scanned. */
  lemma ScanFinish(g: Grid, win: Window, row: int, col: int, picked: Option<Label>, minted: bool,
                   t0: Table, t: Table)
    requires IsGrid(g, win.height, win.width) && row > MinInt(win.height - 1, win.row + win.k)
    requires ScanOk(g, win, row, col, picked, minted, t0, t)
    ensures ScanOk(g, win, win.row + 1, 0, picked, minted, t0, t)
  {
    ScanMove(g, win, row, col, win.row + 1, 0, picked, minted, t0, t);
  }

  /** A finished scan mints a label exactly when no causal cell carries one. */
  lemma ScanOutcome(g: Grid, win: Window, a: Label, minted: bool, t0: Table, t: Table)
    requires IsGrid(g, win.height, win.width)
    requires ScanOk(g, win, win.row + 1, 0, Some(a), minted, t0, t)
    ensures minted <==> AllNone(g, win, win.row + 1, 0)
    ensures minted <==> t.nextId != t0.nextId
  {
    if !minted {
      var fr, fc :| FirstAt(g, win, win.row + 1, 0, fr, fc) && g[fr][fc] == Some(a);
      assert Scanned(win, win.row + 1, 0, fr, fc);
    }
  }

  /* ----- The first pass: labelling the foreground cells ----- */

  /** A grid of the given size with no labels at all. */
  function Unlabelled(height: nat, width: nat): (g: Grid)
    ensures IsGrid(g, height, width)
    ensures forall r, c :: 0 <= r < height && 0 <= c < width ==> g[r][c].None?
  {
    seq(height, _ => seq(width, _ => None))
  }

  /** The grid with the cell at `row`, `col` set to `v`. */
  function SetCell(g: Grid, row: int, col: int, v: Option<Label>): (g': Grid)
    requires 0 <= row < |g| && 0 <= col < |g[row]|
    ensures |g'| == |g| && forall r :: 0 <= r < |g| ==> |g'[r]| == |g[r]|
    ensures g'[row][col] == v
    ensures forall r, c :: 0 <= r < |g| && 0 <= c < |g[r]| && (r != row || c != col) ==> g'[r][c] == g[r][c]
  {
    g[row := g[row][col := v]]
  }

  /**
   * Two near labelled cells of the area are in one class. The cells may be
   * anywhere on the grid; outside of it or unlabelled, there is nothing to say.
   */
  ghost predicate LinkedAt(g: Grid, height: int, width: int, reps: map<Label, Label>, k: int,
                           r1: int, c1: int, r2: int, c2: int)
    requires IsGrid(g, height, width)
  {
    0 <= r1 < height && 0 <= c1 < width && 0 <= r2 < height && 0 <= c2 < width &&
    Near(k, r1, c1, r2, c2) && g[r1][c1].Some? && g[r2][c2].Some? ==>
      SameClass(reps, g[r1][c1].value, g[r2][c2].value)
  }

  /** Labelled cells at most `k` rows and columns apart share a class. */
  ghost predicate Connected(g: Grid, height: int, width: int, reps: map<Label, Label>, k: int)
    requires IsGrid(g, height, width)
  {
    forall r1, c1, r2, c2 {:trigger LinkedAt(g, height, width, reps, k, r1, c1, r2, c2)} ::
      LinkedAt(g, height, width, reps, k, r1, c1, r2, c2)
  }

  /* ----- Paths of near points ----- */

  /** Consecutive points of `path` are at most `k` rows and at most `k` columns apart. */
  ghost predicate Steps(k: int, path: seq<Point>) {
    forall j :: 0 <= j < |path| - 1 ==> Near(k, path[j].y, path[j].x, path[j + 1].y, path[j + 1].x)
  }

  /** `path` leads from `p` to `q` through points of `s` only, in steps of at most `k`. */
  ghost predicate PathIn(s: set<Point>, k: int, p: Point, q: Point, path: seq<Point>) {
    |path| > 0 && path[0] == p && path[|path| - 1] == q &&
    (forall j :: 0 <= j < |path| ==> path[j] in s) && Steps(k, path)
  }

  /** With `p` and `q` in `s`, some path inside `s` leads from `p` to `q` in steps of at most `k`. */
  ghost predicate ChainJoins(s: set<Point>, k: int, p: Point, q: Point) {
    p in s && q in s ==> exists path :: PathIn(s, k, p, q, path)
  }

  /** A path inside `s` is a path inside any larger set. */
  lemma PathWiden(s: set<Point>, s': set<Point>, k: int, p: Point, q: Point, path: seq<Point>)
    requires PathIn(s, k, p, q, path) && s <= s'
    ensures PathIn(s', k, p, q, path)
  {
  }

  /** Two paths that meet at `q` make one path. */
  lemma PathConcat(s: set<Point>, k: int, p: Point, q: Point, r: Point, path1: seq<Point>, path2: seq<Point>)
    requires PathIn(s, k, p, q, path1) && PathIn(s, k, q, r, path2)
    ensures PathIn(s, k, p, r, path1 + path2[1..])
  {
    var path := path1 + path2[1..];
    forall j | 0 <= j < |path| - 1
      ensures Near(k, path[j].y, path[j].x, path[j + 1].y, path[j + 1].x)
    {
      if j < |path1| - 1 {
        assert path[j] == path1[j] && path[j + 1] == path1[j + 1];
      } else {
        var i := j - |path1| + 1;
        assert path[j] == path2[i] && path[j + 1] == path2[i + 1];
      }
    }
    forall j | 0 <= j < |path|
      ensures path[j] in s
    {
      if j >= |path1| {
        assert path[j] == path2[j - |path1| + 1];
      }
    }
  }

  /** Two near points of `s` are joined by the path of the two. */
  lemma PathStep(s: set<Point>, k: int, p: Point, q: Point)
    requires p in s && q in s && Near(k, p.y, p.x, q.y, q.x)
    ensures PathIn(s, k, p, q, [p, q])
  {
  }

  /* ----- The first pass ----- */

  /** The image points of the labelled cells of the grid. */
  ghost function LabelledPoints(g: Grid, height: int, width: int, area: Area): set<Point>
    requires IsGrid(g, height, width)
  {
    set r: int, c: int | 0 <= r < height && 0 <= c < width && g[r][c].Some? :: CellPoint(area, r, c)
  }

  /** Labelling one more cell adds its point to the labelled points. */
  lemma LabelledGrow(g: Grid, height: int, width: int, area: Area, row: int, col: int, l: Label)
    requires IsGrid(g, height, width) && 0 <= row < height && 0 <= col < width
    ensures IsGrid(SetCell(g, row, col, Some(l)), height, width)
    ensures LabelledPoints(g, height, width, area) <= LabelledPoints(SetCell(g, row, col, Some(l)), height, width, area)
    ensures CellPoint(area, row, col) in LabelledPoints(SetCell(g, row, col, Some(l)), height, width, area)
  {
    var g' := SetCell(g, row, col, Some(l));
    forall p | p in LabelledPoints(g, height, width, area)
      ensures p in LabelledPoints(g', height, width, area)
    {
      var r, c :| 0 <= r < height && 0 <= c < width && g[r][c].Some? && p == CellPoint(area, r, c);
      assert g'[r][c].Some?;
    }
  }

  /**
   * Two labelled cells of one class are joined by a path of labelled cells
   * in steps of at most `k`.
   */
  ghost predicate ChainedAt(g: Grid, height: int, width: int, area: Area, reps: map<Label, Label>, k: int,
                            r1: int, c1: int, r2: int, c2: int)
    requires IsGrid(g, height, width)
  {
    0 <= r1 < height && 0 <= c1 < width && 0 <= r2 < height && 0 <= c2 < width &&
    g[r1][c1].Some? && g[r2][c2].Some? && SameClass(reps, g[r1][c1].value, g[r2][c2].value) ==>
      ChainJoins(LabelledPoints(g, height, width, area), k, CellPoint(area, r1, c1), CellPoint(area, r2, c2))
  }

  /** Every class of labelled cells is joined up by near labelled cells. */
  ghost predicate Chained(g: Grid, height: int, width: int, area: Area, reps: map<Label, Label>, k: int)
    requires IsGrid(g, height, width)
  {
    forall r1, c1, r2, c2 {:trigger ChainedAt(g, height, width, area, reps, k, r1, c1, r2, c2)} ::
      ChainedAt(g, height, width, area, reps, k, r1, c1, r2, c2)
  }

  /**
   * The first pass stands at `row`, `col`: exactly the foreground cells it
   * has passed carry a label (none at all when the window is empty, `k < 0`),
   * every label is registered, near labelled cells share a class, and the
   * labelled cells of one class are joined up by near labelled cells.
   */
  ghost predicate PassOneOk(sheet: Sheet, area: Area, k: int, g: Grid, row: int, col: int, t: Table)
    requires AreaInImage(sheet, area)
  {
    IsGrid(g, area.height, area.width) && TableOk(t) &&
    (forall r, c :: 0 <= r < area.height && 0 <= c < area.width ==>
      (g[r][c].Some? <==> Before(r, c, row, col) && k >= 0 && Foreground(sheet, area, r, c))) &&
    LabelsIn(g, area.height, area.width, t.m) &&
    Connected(g, area.height, area.width, t.reps, k) &&
    Chained(g, area.height, area.width, area, t.reps, k)
  }

  lemma PassOneStart(sheet: Sheet, area: Area, k: int, t: Table)
    requires AreaInImage(sheet, area) && TableOk(t)
    ensures PassOneOk(sheet, area, k, Unlabelled(area.height, area.width), 0, 0, t)
  {
  }

  /** A cell that gets no label leaves the state as it is. */
  lemma PassOneSkip(sheet: Sheet, area: Area, k: int, g: Grid, row: int, col: int, t: Table)
    requires AreaInImage(sheet, area) && 0 <= row < area.height && 0 <= col < area.width
    requires PassOneOk(sheet, area, k, g, row, col, t)
    requires !(k >= 0 && Foreground(sheet, area, row, col))
    ensures PassOneOk(sheet, area, k, g, row, col + 1, t)
  {
  }

  /**
   * A foreground cell labelled with a label of the class of every labelled
   * cell of its causal window, after the classes met in that window were
   * joined, keeps the pass state.
   */
  lemma PassOneLabel(sheet: Sheet, area: Area, k: int, g: Grid, row: int, col: int,
                     t: Table, t': Table, picked: Label)
    requires AreaInImage(sheet, area) && 0 <= row < area.height && 0 <= col < area.width
    requires PassOneOk(sheet, area, k, g, row, col, t)
    requires k >= 0 && Foreground(sheet, area, row, col)
    requires TableOk(t') && Grown(t, t') && picked in t'.m
    requires Joined(g, Window(k, area.height, area.width, row, col), row + 1, 0, t'.reps, picked)
    requires MergedInWindow(g, Window(k, area.height, area.width, row, col), row + 1, 0, Some(picked), t, t')
    ensures PassOneOk(sheet, area, k, SetCell(g, row, col, Some(picked)), row, col + 1, t')
  {
    var h, w := area.height, area.width;
    var g' := SetCell(g, row, col, Some(picked));
    ConnectedLabel(sheet, area, k, g, row, col, t, t', picked);
    forall r1, c1, r2, c2
      ensures ChainedAt(g', h, w, area, t'.reps, k, r1, c1, r2, c2)
    {
      ChainedLabel(sheet, area, k, g, row, col, t, t', picked, r1, c1, r2, c2);
    }
  }

  /** The newly labelled cell shares the class of every near labelled cell. */
  lemma {:induction false} ConnectedLabel(sheet: Sheet, area: Area, k: int, g: Grid, row: int, col: int,
                                          t: Table, t': Table, picked: Label)
    requires AreaInImage(sheet, area) && 0 <= row < area.height && 0 <= col < area.width
    requires PassOneOk(sheet, area, k, g, row, col, t)
    requires TableOk(t') && Grown(t, t') && picked in t'.m
    requires Joined(g, Window(k, area.height, area.width, row, col), row + 1, 0, t'.reps, picked)
    ensures Connected(SetCell(g, row, col, Some(picked)), area.height, area.width, t'.reps, k)
  {
    var h, w := area.height, area.width;
    var win := Window(k, h, w, row, col);
    var g' := SetCell(g, row, col, Some(picked));
    assert picked in t'.reps by { assert RepsConsistent(t'.m, t'.reps); }
    ConnectedMerged(g, h, w, k, t.reps, t'.reps);
    forall r1, c1, r2, c2
      ensures LinkedAt(g', h, w, t'.reps, k, r1, c1, r2, c2)
    {
      if 0 <= r1 < h && 0 <= c1 < w && 0 <= r2 < h && 0 <= c2 < w &&
         Near(k, r1, c1, r2, c2) && g'[r1][c1].Some? && g'[r2][c2].Some? {
        var here1, here2 := r1 == row && c1 == col, r2 == row && c2 == col;
        if here1 && here2 {
        } else if here1 {
          assert Scanned(win, row + 1, 0, r2, c2);
        } else if here2 {
          assert Scanned(win, row + 1, 0, r1, c1);
        } else {
          assert LinkedAt(g, h, w, t'.reps, k, r1, c1, r2, c2);
        }
      }
    }
  }

  /**
   * A labelled cell whose class was joined with the class of the newly
   * labelled cell reaches it, and is reached from it, through a window cell
   * of its former class.
   */
  lemma WindowPaths(sheet: Sheet, area: Area, k: int, g: Grid, row: int, col: int,
                    t: Table, t': Table, picked: Label, r: int, c: int)
    returns (toHere: seq<Point>, fromHere: seq<Point>)
    requires AreaInImage(sheet, area) && 0 <= row < area.height && 0 <= col < area.width
    requires PassOneOk(sheet, area, k, g, row, col, t)
    requires TableOk(t') && Grown(t, t') && picked in t'.m
    requires MergedInWindow(g, Window(k, area.height, area.width, row, col), row + 1, 0, Some(picked), t, t')
    requires 0 <= r < area.height && 0 <= c < area.width && g[r][c].Some?
    requires SameClass(t'.reps, g[r][c].value, picked)
    ensures var s' := LabelledPoints(SetCell(g, row, col, Some(picked)), area.height, area.width, area);
            PathIn(s', k, CellPoint(area, r, c), CellPoint(area, row, col), toHere) &&
            PathIn(s', k, CellPoint(area, row, col), CellPoint(area, r, c), fromHere)
  {
    var h, w := area.height, area.width;
    var win := Window(k, h, w, row, col);
    var g' := SetCell(g, row, col, Some(picked));
    var s, s' := LabelledPoints(g, h, w, area), LabelledPoints(g', h, w, area);
    var here, x := CellPoint(area, row, col), CellPoint(area, r, c);
    LabelledGrow(g, h, w, area, row, col, picked);
    var u := g[r][c].value;
    assert u in t.reps by { assert RepsConsistent(t.m, t.reps); }
    assert FusedAt(g, win, row + 1, 0, picked, t, t', u);
    var wr, wc :| Scanned(win, row + 1, 0, wr, wc) && g[wr][wc].Some? && g[wr][wc].value in t.reps &&
                  t.reps[g[wr][wc].value] == t.reps[u];
    var wp := CellPoint(area, wr, wc);
    assert x in s && wp in s;
    assert ChainedAt(g, h, w, area, t.reps, k, r, c, wr, wc);
    assert ChainedAt(g, h, w, area, t.reps, k, wr, wc, r, c);
    var p1 :| PathIn(s, k, x, wp, p1);
    var p2 :| PathIn(s, k, wp, x, p2);
    PathWiden(s, s', k, x, wp, p1);
    PathWiden(s, s', k, wp, x, p2);
    PathStep(s', k, wp, here);
    PathStep(s', k, here, wp);
    PathConcat(s', k, x, wp, here, p1, [wp, here]);
    PathConcat(s', k, here, wp, x, [here, wp], p2);
    toHere, fromHere := p1 + [wp, here][1..], [here, wp] + p2[1..];
  }

  /**
   * After the cell at `row`, `col` is labelled, two labelled cells of one
   * class are joined up by near labelled cells: through the new cell when
   * their classes were joined by its window scan, as before otherwise.
   */
  lemma ChainedLabel(sheet: Sheet, area: Area, k: int, g: Grid, row: int, col: int,
                     t: Table, t': Table, picked: Label, r1: int, c1: int, r2: int, c2: int)
    requires AreaInImage(sheet, area) && 0 <= row < area.height && 0 <= col < area.width
    requires PassOneOk(sheet, area, k, g, row, col, t)
    requires k >= 0 && Foreground(sheet, area, row, col)
    requires TableOk(t') && Grown(t, t') && picked in t'.m
    requires MergedInWindow(g, Window(k, area.height, area.width, row, col), row + 1, 0, Some(picked), t, t')
    ensures ChainedAt(SetCell(g, row, col, Some(picked)), area.height, area.width, area, t'.reps, k, r1, c1, r2, c2)
  {
    var h, w := area.height, area.width;
    var win := Window(k, h, w, row, col);
    var g' := SetCell(g, row, col, Some(picked));
    var s, s' := LabelledPoints(g, h, w, area), LabelledPoints(g', h, w, area);
    var here := CellPoint(area, row, col);
    LabelledGrow(g, h, w, area, row, col, picked);
    if 0 <= r1 < h && 0 <= c1 < w && 0 <= r2 < h && 0 <= c2 < w &&
       g'[r1][c1].Some? && g'[r2][c2].Some? && SameClass(t'.reps, g'[r1][c1].value, g'[r2][c2].value) {
      var x, y := CellPoint(area, r1, c1), CellPoint(area, r2, c2);
      var here1, here2 := r1 == row && c1 == col, r2 == row && c2 == col;
      if here1 && here2 {
        assert PathIn(s', k, x, y, [here]);
      } else if here1 {
        var _, fromHere := WindowPaths(sheet, area, k, g, row, col, t, t', picked, r2, c2);
      } else if here2 {
        var toHere, _ := WindowPaths(sheet, area, k, g, row, col, t, t', picked, r1, c1);
      } else {
        var u, v := g[r1][c1].value, g[r2][c2].value;
        assert u in t.reps && v in t.reps by { assert RepsConsistent(t.m, t.reps); }
        assert picked in t'.reps by { assert RepsConsistent(t'.m, t'.reps); }
        if t'.reps[u] == t'.reps[picked] {
          var toHere, _ := WindowPaths(sheet, area, k, g, row, col, t, t', picked, r1, c1);
          var _, fromHere := WindowPaths(sheet, area, k, g, row, col, t, t', picked, r2, c2);
          PathConcat(s', k, x, here, y, toHere, fromHere);
        } else {
          assert FusedAt(g, win, row + 1, 0, picked, t, t', u);
          assert FusedAt(g, win, row + 1, 0, picked, t, t', v);
          assert ChainedAt(g, h, w, area, t.reps, k, r1, c1, r2, c2);
          assert x in s && y in s;
          var path :| PathIn(s, k, x, y, path);
          PathWiden(s, s', k, x, y, path);
        }
      }
    }
  }

  /**
   * One cell of the first pass: a background cell, or any cell when the
   * window is empty, stays unlabelled and no class is joined; a foreground
   * cell gets `picked`, a label of the class of every labelled cell of its
   * causal window, and the table `t'` has joined exactly the classes met in
   * that window.
   */
  lemma PassOneCell(sheet: Sheet, area: Area, k: int, g: Grid, row: int, col: int,
                    t: Table, t': Table, picked: Option<Label>)
    requires AreaInImage(sheet, area) && 0 <= row < area.height && 0 <= col < area.width
    requires PassOneOk(sheet, area, k, g, row, col, t)
    requires TableOk(t') && Grown(t, t')
    requires picked.Some? <==> k >= 0 && Foreground(sheet, area, row, col)
    requires picked.Some? ==>
               picked.value in t'.m && Joined(g, Window(k, area.height, area.width, row, col), row + 1, 0, t'.reps, picked.value)
    requires MergedInWindow(g, Window(k, area.height, area.width, row, col), row + 1, 0, picked, t, t')
    ensures PassOneOk(sheet, area, k, SetCell(g, row, col, picked), row, col + 1, t')
  {
    if picked.Some? {
      PassOneLabel(sheet, area, k, g, row, col, t, t', picked.value);
    } else {
      assert PassOneOk(sheet, area, k, g, row, col, t');
      PassOneSkip(sheet, area, k, g, row, col, t');
      assert g[row][col].None?;
      assert g[row][col := picked] == g[row];
      assert SetCell(g, row, col, picked) == g[row := g[row]] == g;
    }
  }

  /** The end of a row of the area is the start of the next one. */
  lemma PassOneRowEnd(sheet: Sheet, area: Area, k: int, g: Grid, row: int, t: Table)
    requires AreaInImage(sheet, area)
    requires PassOneOk(sheet, area, k, g, row, area.width, t)
    ensures PassOneOk(sheet, area, k, g, row + 1, 0, t)
  {
  }

  /** A pass that later only merges classes keeps near labelled cells together. */
  lemma ConnectedMerged(g: Grid, height: int, width: int, k: int, before: map<Label, Label>, after: map<Label, Label>)
    requires IsGrid(g, height, width) && Connected(g, height, width, before, k) && OnlyMerged(before, after)
    ensures Connected(g, height, width, after, k)
  {
    forall r1, c1, r2, c2
      ensures LinkedAt(g, height, width, after, k, r1, c1, r2, c2)
    {
      if 0 <= r1 < height && 0 <= c1 < width && 0 <= r2 < height && 0 <= c2 < width &&
         Near(k, r1, c1, r2, c2) && g[r1][c1].Some? && g[r2][c2].Some? {
        assert LinkedAt(g, height, width, before, k, r1, c1, r2, c2);
        OnlyMergedKeepsTogether(before, after, g[r1][c1].value, g[r2][c2].value);
      }
    }
  }

  /* ----- The second pass: collecting the cells of each class ----- */

  /** The cell at `r`, `c` is labelled and its class representative is `l`. */
  ghost predicate InClass(g: Grid, height: int, width: int, reps: map<Label, Label>, l: Label, r: int, c: int)
    requires IsGrid(g, height, width)
  {
    0 <= r < height && 0 <= c < width && g[r][c].Some? && g[r][c].value in reps && reps[g[r][c].value] == l
  }

  /** The image points of the cells of class `l` that come before `row`, `col`. */
  ghost function PointsUpTo(g: Grid, height: int, width: int, area: Area, reps: map<Label, Label>,
                            l: Label, row: int, col: int): set<Point>
    requires IsGrid(g, height, width)
  {
    set r: int, c: int | 0 <= r < height && 0 <= c < width && Before(r, c, row, col) &&
                         InClass(g, height, width, reps, l, r, c) :: CellPoint(area, r, c)
  }

  /** The representatives of the labelled cells that come before `row`, `col`. */
  ghost function RepsUpTo(g: Grid, height: int, width: int, reps: map<Label, Label>, row: int, col: int): set<Label>
    requires IsGrid(g, height, width)
  {
    set r: int, c: int | 0 <= r < height && 0 <= c < width && Before(r, c, row, col) &&
                         g[r][c].Some? && g[r][c].value in reps :: reps[g[r][c].value]
  }

  lemma CellPointInjective(area: Area, r1: int, c1: int, r2: int, c2: int)
    ensures CellPoint(area, r1, c1) == CellPoint(area, r2, c2) <==> r1 == r2 && c1 == c2
  {
  }

  /** Passing one cell adds its point to its own class and nothing elsewhere. */
  lemma PointsStep(g: Grid, height: int, width: int, area: Area, reps: map<Label, Label>,
                    l: Label, row: int, col: int)
    requires IsGrid(g, height, width) && 0 <= row < height && 0 <= col < width
    ensures PointsUpTo(g, height, width, area, reps, l, row, col + 1) ==
            PointsUpTo(g, height, width, area, reps, l, row, col) +
            (if InClass(g, height, width, reps, l, row, col) then {CellPoint(area, row, col)} else {})
  {
  }

  /** A cell of class `l` adds exactly its own point to the points of `l`. */
  lemma PointsGrow(g: Grid, height: int, width: int, area: Area, reps: map<Label, Label>,
                   l: Label, row: int, col: int, before: set<Point>, after: set<Point>)
    requires IsGrid(g, height, width) && 0 <= row < height && 0 <= col < width
    requires InClass(g, height, width, reps, l, row, col)
    requires before == PointsUpTo(g, height, width, area, reps, l, row, col)
    requires after == before + {CellPoint(area, row, col)}
    ensures after == PointsUpTo(g, height, width, area, reps, l, row, col + 1)
  {
    PointsStep(g, height, width, area, reps, l, row, col);
  }

  /** Every point collected so far comes before the cell at `row`, `col` in row-major order. */
  lemma PointsBefore(g: Grid, height: int, width: int, area: Area, reps: map<Label, Label>,
                     l: Label, row: int, col: int, p: Point)
    requires IsGrid(g, height, width) && p in PointsUpTo(g, height, width, area, reps, l, row, col)
    ensures RowMajorLe(p, CellPoint(area, row, col)) && p != CellPoint(area, row, col)
  {
  }

  /** A class without a representative among the cells passed has no points yet. */
  lemma PointsNeedRep(g: Grid, height: int, width: int, area: Area, reps: map<Label, Label>,
                      l: Label, row: int, col: int)
    requires IsGrid(g, height, width) && l !in RepsUpTo(g, height, width, reps, row, col)
    ensures PointsUpTo(g, height, width, area, reps, l, row, col) == {}
  {
    if p :| p in PointsUpTo(g, height, width, area, reps, l, row, col) {
      assert false;
    }
  }

  lemma RepsStep(g: Grid, height: int, width: int, reps: map<Label, Label>, row: int, col: int)
    requires IsGrid(g, height, width) && 0 <= row < height && 0 <= col < width
    ensures RepsUpTo(g, height, width, reps, row, col + 1) ==
      RepsUpTo(g, height, width, reps, row, col) +
      (if g[row][col].Some? && g[row][col].value in reps then {reps[g[row][col].value]} else {})
  {
  }

  lemma PassTwoRowEnd(g: Grid, height: int, width: int, area: Area, reps: map<Label, Label>, row: int)
    requires IsGrid(g, height, width)
    ensures RepsUpTo(g, height, width, reps, row, width) == RepsUpTo(g, height, width, reps, row + 1, 0)
    ensures forall l :: PointsUpTo(g, height, width, area, reps, l, row, width) ==
                        PointsUpTo(g, height, width, area, reps, l, row + 1, 0)
  {
  }

  /* ----- What the blobs are ----- */

  /** `p` is the image point of a foreground cell of the area. */
  predicate ForegroundAt(sheet: Sheet, area: Area, p: Point)
    requires AreaInImage(sheet, area)
  {
    0 <= p.y - area.y < area.height && 0 <= p.x - area.x < area.width &&
    Foreground(sheet, area, p.y - area.y, p.x - area.x)
  }

  /** With `p` in the blob `s`, so is every foreground point near `p`. */
  ghost predicate ClosedAt(sheet: Sheet, area: Area, k: int, s: set<Point>, p: Point, q: Point)
    requires AreaInImage(sheet, area)
  {
    p in s && ForegroundAt(sheet, area, q) && Near(k, p.y, p.x, q.y, q.x) ==> q in s
  }

  /**
   * The point sets of the blobs found in the area with window half-width
   * `k`: non-empty, pairwise disjoint, made of foreground points only, and
   * covering every foreground point; a blob holding a point holds every
   * foreground point at most `k` rows and columns from it, and any two
   * points of a blob are joined by a path inside the blob in steps of at
   * most `k` rows and columns. With `k < 0` there are no blobs at all.
   */
  ghost predicate BlobPartition(sheet: Sheet, area: Area, k: int, pts: seq<set<Point>>)
    requires AreaInImage(sheet, area)
  {
    (forall i :: 0 <= i < |pts| ==> pts[i] != {}) &&
    (forall i, j :: 0 <= i < j < |pts| ==> pts[i] !! pts[j]) &&
    (forall i, p :: 0 <= i < |pts| && p in pts[i] ==> k >= 0 && ForegroundAt(sheet, area, p)) &&
    (forall r, c :: 0 <= r < area.height && 0 <= c < area.width && k >= 0 && Foreground(sheet, area, r, c) ==>
      exists i :: 0 <= i < |pts| && CellPoint(area, r, c) in pts[i]) &&
    (forall i, p, q {:trigger ClosedAt(sheet, area, k, pts[i], p, q)} :: 0 <= i < |pts| ==> ClosedAt(sheet, area, k, pts[i], p, q)) &&
    (forall i, p, q {:trigger ChainJoins(pts[i], k, p, q)} :: 0 <= i < |pts| ==> ChainJoins(pts[i], k, p, q))
  }

  /** The point sets of the classes listed in `order`, once the second pass is over. */
  ghost predicate ClassesListed(g: Grid, height: int, width: int, area: Area, reps: map<Label, Label>,
                                order: seq<Label>, pts: seq<set<Point>>)
    requires IsGrid(g, height, width)
  {
    |pts| == |order| &&
    (forall i, j :: 0 <= i < j < |order| ==> order[i] != order[j]) &&
    (forall l :: l in order <==> l in RepsUpTo(g, height, width, reps, height, 0)) &&
    (forall i :: 0 <= i < |order| ==> pts[i] == PointsUpTo(g, height, width, area, reps, order[i], height, 0))
  }

  lemma ClassesDisjoint(g: Grid, height: int, width: int, area: Area, reps: map<Label, Label>,
                        order: seq<Label>, pts: seq<set<Point>>, i: int, j: int)
    requires IsGrid(g, height, width) && ClassesListed(g, height, width, area, reps, order, pts)
    requires 0 <= i < j < |pts|
    ensures pts[i] !! pts[j]
  {
    if p :| p in pts[i] && p in pts[j] {
      var r1, c1 :| 0 <= r1 < height && 0 <= c1 < width && Before(r1, c1, height, 0) &&
                    InClass(g, height, width, reps, order[i], r1, c1) && p == CellPoint(area, r1, c1);
      var r2, c2 :| 0 <= r2 < height && 0 <= c2 < width && Before(r2, c2, height, 0) &&
                    InClass(g, height, width, reps, order[j], r2, c2) && p == CellPoint(area, r2, c2);
      CellPointInjective(area, r1, c1, r2, c2);
      assert false;
    }
  }

  lemma ClassNonEmpty(g: Grid, height: int, width: int, area: Area, reps: map<Label, Label>,
                      order: seq<Label>, pts: seq<set<Point>>, i: int)
    requires IsGrid(g, height, width) && ClassesListed(g, height, width, area, reps, order, pts)
    requires 0 <= i < |pts|
    ensures pts[i] != {}
  {
    assert order[i] in RepsUpTo(g, height, width, reps, height, 0);
    var r, c :| 0 <= r < height && 0 <= c < width && Before(r, c, height, 0) &&
                g[r][c].Some? && g[r][c].value in reps && reps[g[r][c].value] == order[i];
    assert InClass(g, height, width, reps, order[i], r, c);
    assert CellPoint(area, r, c) in pts[i];
  }

  /** Every class listed by the second pass is named after a representative: a label that is its own representative. */
  lemma ListedAreReps(g: Grid, height: int, width: int, area: Area, t: Table, order: seq<Label>, pts: seq<set<Point>>, i: int)
    requires IsGrid(g, height, width) && TableOk(t) && ClassesListed(g, height, width, area, t.reps, order, pts)
    requires 0 <= i < |order|
    ensures order[i] in t.reps && t.reps[order[i]] == order[i]
  {
    assert order[i] in RepsUpTo(g, height, width, t.reps, height, 0);
    var r, c :| 0 <= r < height && 0 <= c < width && Before(r, c, height, 0) &&
                g[r][c].Some? && g[r][c].value in t.reps && t.reps[g[r][c].value] == order[i];
    RepOfRep(t.m, t.reps, g[r][c].value);
  }

  lemma ClassSound(sheet: Sheet, area: Area, k: int, g: Grid, t: Table,
                   order: seq<Label>, pts: seq<set<Point>>, i: int, p: Point)
    requires AreaInImage(sheet, area) && PassOneOk(sheet, area, k, g, area.height, 0, t)
    requires ClassesListed(g, area.height, area.width, area, t.reps, order, pts)
    requires 0 <= i < |pts| && p in pts[i]
    ensures k >= 0 && ForegroundAt(sheet, area, p)
  {
    var r, c :| 0 <= r < area.height && 0 <= c < area.width && Before(r, c, area.height, 0) &&
                InClass(g, area.height, area.width, t.reps, order[i], r, c) && p == CellPoint(area, r, c);
    assert g[r][c].Some?;
  }

  lemma ClassComplete(sheet: Sheet, area: Area, k: int, g: Grid, t: Table,
                      order: seq<Label>, pts: seq<set<Point>>, r: int, c: int)
    requires AreaInImage(sheet, area) && PassOneOk(sheet, area, k, g, area.height, 0, t)
    requires ClassesListed(g, area.height, area.width, area, t.reps, order, pts)
    requires 0 <= r < area.height && 0 <= c < area.width && k >= 0 && Foreground(sheet, area, r, c)
    ensures exists i :: 0 <= i < |pts| && CellPoint(area, r, c) in pts[i]
  {
    var h, w := area.height, area.width;
    assert g[r][c].Some?;
    var l := g[r][c].value;
    assert l in t.reps by { assert RepsConsistent(t.m, t.reps); }
    assert t.reps[l] in RepsUpTo(g, h, w, t.reps, h, 0);
    var i :| 0 <= i < |order| && order[i] == t.reps[l];
    assert InClass(g, h, w, t.reps, order[i], r, c);
    assert CellPoint(area, r, c) in pts[i];
  }

  lemma ClassClosed(sheet: Sheet, area: Area, k: int, g: Grid, t: Table,
                    order: seq<Label>, pts: seq<set<Point>>, i: int, p: Point, q: Point)
    requires AreaInImage(sheet, area) && PassOneOk(sheet, area, k, g, area.height, 0, t)
    requires ClassesListed(g, area.height, area.width, area, t.reps, order, pts)
    requires 0 <= i < |pts|
    ensures ClosedAt(sheet, area, k, pts[i], p, q)
  {
    var h, w := area.height, area.width;
    if p in pts[i] && ForegroundAt(sheet, area, q) && Near(k, p.y, p.x, q.y, q.x) {
      var r1, c1 :| 0 <= r1 < h && 0 <= c1 < w && Before(r1, c1, h, 0) &&
                    InClass(g, h, w, t.reps, order[i], r1, c1) && p == CellPoint(area, r1, c1);
      var r2, c2 := q.y - area.y, q.x - area.x;
      assert g[r2][c2].Some?;
      assert LinkedAt(g, h, w, t.reps, k, r1, c1, r2, c2);
      assert InClass(g, h, w, t.reps, order[i], r2, c2);
      assert q == CellPoint(area, r2, c2);
    }
  }

  /** Along a path of labelled cells in steps of at most `k`, the class never changes. */
  lemma {:induction false} PathStaysInClass(g: Grid, height: int, width: int, area: Area,
                                            reps: map<Label, Label>, k: int, l: Label, path: seq<Point>, n: nat)
    requires IsGrid(g, height, width) && Connected(g, height, width, reps, k)
    requires 0 < |path| && n < |path| && Steps(k, path)
    requires forall j :: 0 <= j < |path| ==> path[j] in LabelledPoints(g, height, width, area)
    requires path[0] in PointsUpTo(g, height, width, area, reps, l, height, 0)
    ensures path[n] in PointsUpTo(g, height, width, area, reps, l, height, 0)
  {
    if n > 0 {
      PathStaysInClass(g, height, width, area, reps, k, l, path, n - 1);
      var r1, c1 :| 0 <= r1 < height && 0 <= c1 < width && Before(r1, c1, height, 0) &&
                    InClass(g, height, width, reps, l, r1, c1) && path[n - 1] == CellPoint(area, r1, c1);
      assert path[n] in LabelledPoints(g, height, width, area);
      var r2, c2 :| 0 <= r2 < height && 0 <= c2 < width && g[r2][c2].Some? && path[n] == CellPoint(area, r2, c2);
      assert Near(k, path[n - 1].y, path[n - 1].x, path[n].y, path[n].x);
      assert LinkedAt(g, height, width, reps, k, r1, c1, r2, c2);
      assert InClass(g, height, width, reps, l, r2, c2);
    }
  }

  lemma ClassChained(sheet: Sheet, area: Area, k: int, g: Grid, t: Table,
                     order: seq<Label>, pts: seq<set<Point>>, i: int, p: Point, q: Point)
    requires AreaInImage(sheet, area) && PassOneOk(sheet, area, k, g, area.height, 0, t)
    requires ClassesListed(g, area.height, area.width, area, t.reps, order, pts)
    requires 0 <= i < |pts|
    ensures ChainJoins(pts[i], k, p, q)
  {
    var h, w := area.height, area.width;
    if p in pts[i] && q in pts[i] {
      var r1, c1 :| 0 <= r1 < h && 0 <= c1 < w && Before(r1, c1, h, 0) &&
                    InClass(g, h, w, t.reps, order[i], r1, c1) && p == CellPoint(area, r1, c1);
      var r2, c2 :| 0 <= r2 < h && 0 <= c2 < w && Before(r2, c2, h, 0) &&
                    InClass(g, h, w, t.reps, order[i], r2, c2) && q == CellPoint(area, r2, c2);
      var s := LabelledPoints(g, h, w, area);
      assert ChainedAt(g, h, w, area, t.reps, k, r1, c1, r2, c2);
      assert p in s && q in s;
      var path :| PathIn(s, k, p, q, path);
      forall j | 0 <= j < |path|
        ensures path[j] in pts[i]
      {
        PathStaysInClass(g, h, w, area, t.reps, k, order[i], path, j);
      }
      assert PathIn(pts[i], k, p, q, path);
    }
  }

  /**
   * The classes of a finished first pass, listed once each, are the blobs:
   * they partition the foreground, keep near foreground points together and
   * are each joined up by near points of their own.
   */
  lemma ClassesArePartition(sheet: Sheet, area: Area, k: int, g: Grid, t: Table,
                            order: seq<Label>, pts: seq<set<Point>>)
    requires AreaInImage(sheet, area) && PassOneOk(sheet, area, k, g, area.height, 0, t)
    requires ClassesListed(g, area.height, area.width, area, t.reps, order, pts)
    ensures BlobPartition(sheet, area, k, pts)
  {
    var h, w := area.height, area.width;
    forall i | 0 <= i < |pts| ensures pts[i] != {} {
      ClassNonEmpty(g, h, w, area, t.reps, order, pts, i);
    }
    forall i, j | 0 <= i < j < |pts| ensures pts[i] !! pts[j] {
      ClassesDisjoint(g, h, w, area, t.reps, order, pts, i, j);
    }
    forall i, p | 0 <= i < |pts| && p in pts[i] ensures k >= 0 && ForegroundAt(sheet, area, p) {
      ClassSound(sheet, area, k, g, t, order, pts, i, p);
    }
    forall r, c | 0 <= r < h && 0 <= c < w && k >= 0 && Foreground(sheet, area, r, c)
      ensures exists i :: 0 <= i < |pts| && CellPoint(area, r, c) in pts[i]
    {
      ClassComplete(sheet, area, k, g, t, order, pts, r, c);
    }
    forall i, p, q | 0 <= i < |pts| ensures ClosedAt(sheet, area, k, pts[i], p, q) {
      ClassClosed(sheet, area, k, g, t, order, pts, i, p, q);
    }
    forall i, p, q | 0 <= i < |pts| ensures ChainJoins(pts[i], k, p, q) {
      ClassChained(sheet, area, k, g, t, order, pts, i, p, q);
    }
  }

  /* ----- A wider window only merges blobs ----- */

  /**
   * A path of foreground points in steps of at most `k` stays inside any set
   * that holds its start and is closed under nearness at `k2 >= k`.
   */
  lemma {:induction false} PathInWider(sheet: Sheet, area: Area, k: int, k2: int, s2: set<Point>,
                                       path: seq<Point>, n: nat)
    requires AreaInImage(sheet, area) && k <= k2
    requires 0 < |path| && n < |path| && Steps(k, path) && path[0] in s2
    requires forall j :: 0 <= j < |path| ==> ForegroundAt(sheet, area, path[j])
    requires forall p, q :: ClosedAt(sheet, area, k2, s2, p, q)
    ensures path[n] in s2
  {
    if n > 0 {
      var m := n - 1;
      PathInWider(sheet, area, k, k2, s2, path, m);
      assert Near(k, path[m].y, path[m].x, path[m + 1].y, path[m + 1].x);
      assert ClosedAt(sheet, area, k2, s2, path[m], path[n]);
    }
  }

  /** Every blob found with half-width `k` lies inside one blob found with a half-width `k2 >= k`. */
  lemma WiderBlob(sheet: Sheet, area: Area, k: int, k2: int, pts: seq<set<Point>>, pts2: seq<set<Point>>, i: int)
    returns (j: int)
    requires AreaInImage(sheet, area) && 0 <= k <= k2
    requires BlobPartition(sheet, area, k, pts) && BlobPartition(sheet, area, k2, pts2)
    requires 0 <= i < |pts|
    ensures 0 <= j < |pts2| && pts[i] <= pts2[j]
  {
    assert pts[i] != {};
    var p :| p in pts[i];
    assert ForegroundAt(sheet, area, p);
    assert CellPoint(area, p.y - area.y, p.x - area.x) == p;
    j :| 0 <= j < |pts2| && p in pts2[j];
    forall q | q in pts[i] ensures q in pts2[j] {
      assert ChainJoins(pts[i], k, p, q);
      var path :| PathIn(pts[i], k, p, q, path);
      PathInWider(sheet, area, k, k2, pts2[j], path, |path| - 1);
    }
  }

  /**
   * Widening the window only merges blobs: each blob found with half-width
   * `k` lies inside a blob found with `k2 >= k`, so there are no more blobs
   * with `k2` than with `k`.
   */
  lemma WiderWindowMerges(sheet: Sheet, area: Area, k: int, k2: int, pts: seq<set<Point>>, pts2: seq<set<Point>>)
    requires AreaInImage(sheet, area) && 0 <= k <= k2
    requires BlobPartition(sheet, area, k, pts) && BlobPartition(sheet, area, k2, pts2)
    ensures forall i :: 0 <= i < |pts| ==> exists j :: 0 <= j < |pts2| && pts[i] <= pts2[j]
    ensures |pts2| <= |pts|
  {
    forall i | 0 <= i < |pts| ensures exists j :: 0 <= j < |pts2| && pts[i] <= pts2[j] {
      var j := WiderBlob(sheet, area, k, k2, pts, pts2, i);
    }
    var owners: set<int> := {};
    for n := 0 to |pts2|
      invariant |owners| == n
      invariant forall i :: i in owners ==> 0 <= i < |pts| && exists j :: 0 <= j < n && pts[i] <= pts2[j]
    {
      assert pts2[n] != {};
      var q :| q in pts2[n];
      assert ForegroundAt(sheet, area, q);
      assert CellPoint(area, q.y - area.y, q.x - area.x) == q;
      var i :| 0 <= i < |pts| && q in pts[i];
      forall o | o in owners ensures o != i {
        var j :| 0 <= j < n && pts[o] <= pts2[j];
        assert pts2[j] !! pts2[n];
        assert q !in pts[o];
      }
      var j := WiderBlob(sheet, area, k, k2, pts, pts2, i);
      assert j == n by { assert q in pts2[j]; }
      owners := owners + {i};
    }
    IndexRangeSize(owners, |pts|);
  }

  /** A set of indices below `n` has at most `n` members. */
  lemma {:induction false} IndexRangeSize(s: set<int>, n: nat)
    requires forall i :: i in s ==> 0 <= i < n
    ensures |s| <= n
  {
    if n == 0 {
      assert forall i :: i !in s;
      assert s == {};
    } else {
      var rest := s - {n - 1};
      IndexRangeSize(rest, n - 1);
      if n - 1 in s {
        assert s == rest + {n - 1};
      } else {
        assert s == rest;
      }
    }
  }
}
