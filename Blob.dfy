/**
 * A blob (sprite clip): a named set of pixels of the sprite sheet, the
 * bounding box of those pixels and an anchor point, rendered as an XML
 * `<sprite>` element or as a plain-text dump.
 */
module Blobs {
  import opened Wrappers
  import opened Decimal
  import opened XmlText

  /** A pixel position in image coordinates: column `x`, row `y`. */
  datatype Point = Point(x: int, y: int)

  /** A rectangle given by its top-left corner and its size in pixels. */
  datatype Box = Box(x: int, y: int, width: int, height: int)

  predicate Contains(b: Box, p: Point) {
    b.x <= p.x < b.x + b.width && b.y <= p.y < b.y + b.height
  }

  /** Every pixel of `inner` is a pixel of `outer`. */
  predicate Encloses(outer: Box, inner: Box) {
    outer.x <= inner.x && inner.x + inner.width <= outer.x + outer.width &&
    outer.y <= inner.y && inner.y + inner.height <= outer.y + outer.height
  }

  function MinInt(a: int, b: int): int { if a < b then a else b }
  function MaxInt(a: int, b: int): int { if a < b then b else a }

  /**
   * The smallest box holding both `b` and the pixel `p`: the growth the
   * comment on the point set asks for ("points contained in the bounding box").
   */
  function Grow(b: Box, p: Point): (r: Box)
    requires b.width >= 1 && b.height >= 1
    ensures Contains(r, p) && Encloses(r, b)
    ensures forall c: Box :: Encloses(c, b) && Contains(c, p) ==> Encloses(c, r)
    ensures Contains(b, p) ==> r == b
  {
    var left, top := MinInt(b.x, p.x), MinInt(b.y, p.y);
    var right, bottom := MaxInt(b.x + b.width, p.x + 1), MaxInt(b.y + b.height, p.y + 1);
    Box(left, top, right - left, bottom - top)
  }

  /** Growing by two pixels gives the same box in either order. */
  lemma GrowCommutes(b: Box, p: Point, q: Point)
    requires b.width >= 1 && b.height >= 1
    ensures Grow(Grow(b, p), q) == Grow(Grow(b, q), p)
  {
  }

  /**
   * `b` is the bounding box of `points`: it holds every point, and each of its
   * four edges passes through one of them.
   */
  ghost predicate Tight(b: Box, points: set<Point>) {
    (forall p :: p in points ==> Contains(b, p)) &&
    (exists p :: p in points && p.x == b.x) &&
    (exists p :: p in points && p.y == b.y) &&
    (exists p :: p in points && p.x == b.x + b.width - 1) &&
    (exists p :: p in points && p.y == b.y + b.height - 1)
  }

  lemma TightSingle(p: Point)
    ensures Tight(Box(p.x, p.y, 1, 1), {p})
  {
    assert p in {p};
  }

  /** The bounding box of a single pixel is that pixel, one column wide and one row high. */
  lemma TightOfSingle(b: Box, p: Point)
    requires Tight(b, {p})
    ensures b == Box(p.x, p.y, 1, 1)
  {
  }

  /** Growing the bounding box of a set by a pixel gives the bounding box of the set with it. */
  lemma GrowTight(b: Box, points: set<Point>, p: Point)
    requires Tight(b, points)
    ensures b.width >= 1 && b.height >= 1
    ensures Tight(Grow(b, p), points + {p})
  {
    var left :| left in points && left.x == b.x;
    var top :| top in points && top.y == b.y;
    var right :| right in points && right.x == b.x + b.width - 1;
    var bottom :| bottom in points && bottom.y == b.y + b.height - 1;
    assert Contains(b, left);
    assert Contains(b, top);
    var r := Grow(b, p);
    assert p in points + {p};
    assert exists q :: q in points + {p} && q.x == r.x by {
      if p.x < b.x { assert p.x == r.x; } else { assert left.x == r.x; }
    }
    assert exists q :: q in points + {p} && q.y == r.y by {
      if p.y < b.y { assert p.y == r.y; } else { assert top.y == r.y; }
    }
    assert exists q :: q in points + {p} && q.x == r.x + r.width - 1 by {
      if p.x + 1 > b.x + b.width { assert p.x == r.x + r.width - 1; } else { assert right.x == r.x + r.width - 1; }
    }
    assert exists q :: q in points + {p} && q.y == r.y + r.height - 1 by {
      if p.y + 1 > b.y + b.height { assert p.y == r.y + r.height - 1; } else { assert bottom.y == r.y + r.height - 1; }
    }
  }

  /**
   * The box update of `AddLocation` as written: the growth is applied to a
   * copy of the stored box and then dropped, so only the first point ever
   * shapes the box.
   */
  function BoxAfterAsWritten(box: Option<Box>, p: Point): (r: Option<Box>)
    ensures r.Some? && Contains(r.value, p) == (box.None? || Contains(box.value, p))
    ensures box.None? ==> Tight(r.value, {p})
    ensures box.Some? ==> r == box
  {
    if box.None? then Some(Box(p.x, p.y, 1, 1)) else box
  }

  /** With the update as written, a second point outside the first pixel is left out of the box. */
  lemma AsWrittenBoxMissesPoint()
    ensures var first := BoxAfterAsWritten(None, Point(0, 0));
            !Contains(BoxAfterAsWritten(first, Point(5, 3)).value, Point(5, 3))
  {
  }

  /** Row-major order of pixels: by row, then by column. */
  predicate RowMajorLe(p: Point, q: Point) {
    p.y < q.y || (p.y == q.y && p.x <= q.x)
  }

  /** The fields of one `<sprite>` element, in the order they are written. */
  datatype Sprite = Sprite(name: string, offsetX: int, offsetY: int, width: int, height: int,
                           anchorX: int, anchorY: int)

  const SpriteOpen: string := "\t\t<sprite name=\""
  const SpriteClose: string := "\t\t</sprite>\n"
  const Indent: string := "\t\t\t"

  function SpriteXml(sp: Sprite): string {
    SpriteOpen + (sp.name + (['"'] + (">\n" + SpriteFieldsXml(sp))))
  }

  /** Reads the six integer elements of a sprite, in order, and its closing tag. */
  function ParseSpriteFields(name: string, s: string): Option<Sprite> {
    match ParseElement(Indent, "offset_x", s)
    case None => None
    case Some((ox, s1)) =>
    match ParseElement(Indent, "offset_y", s1)
    case None => None
    case Some((oy, s2)) =>
    match ParseElement(Indent, "width", s2)
    case None => None
    case Some((w, s3)) =>
    match ParseElement(Indent, "height", s3)
    case None => None
    case Some((h, s4)) =>
    match ParseElement(Indent, "anchor_x", s4)
    case None => None
    case Some((ax, s5)) =>
    match ParseElement(Indent, "anchor_y", s5)
    case None => None
    case Some((ay, s6)) =>
      if s6 == SpriteClose then Some(Sprite(name, ox, oy, w, h, ax, ay)) else None
  }

  /** Reads a `<sprite>` element back; `None` for text that is not one. */
  function ParseSprite(s: string): Option<Sprite> {
    match StripPrefix(SpriteOpen, s)
    case None => None
    case Some(rest) =>
      match SplitAt('"', rest)
      case None => None
      case Some((name, afterName)) =>
        match StripPrefix(">\n", afterName)
        case None => None
        case Some(fields) => ParseSpriteFields(name, fields)
  }

  /** The element lines of a sprite, from `offset_x` to the closing tag. */
  function SpriteFieldsXml(sp: Sprite): string {
    Element(Indent, "offset_x", sp.offsetX) +
    (Element(Indent, "offset_y", sp.offsetY) +
    (Element(Indent, "width", sp.width) +
    (Element(Indent, "height", sp.height) +
    (Element(Indent, "anchor_x", sp.anchorX) +
    (Element(Indent, "anchor_y", sp.anchorY) + SpriteClose)))))
  }

  lemma SpriteFieldsRoundTrip(sp: Sprite)
    ensures ParseSpriteFields(sp.name, SpriteFieldsXml(sp)) == Some(sp)
  {
    var e6 := Element(Indent, "anchor_y", sp.anchorY) + SpriteClose;
    var e5 := Element(Indent, "anchor_x", sp.anchorX) + e6;
    var e4 := Element(Indent, "height", sp.height) + e5;
    var e3 := Element(Indent, "width", sp.width) + e4;
    var e2 := Element(Indent, "offset_y", sp.offsetY) + e3;
    ElementRoundTrip(Indent, "offset_x", sp.offsetX, e2);
    ElementRoundTrip(Indent, "offset_y", sp.offsetY, e3);
    ElementRoundTrip(Indent, "width", sp.width, e4);
    ElementRoundTrip(Indent, "height", sp.height, e5);
    ElementRoundTrip(Indent, "anchor_x", sp.anchorX, e6);
    ElementRoundTrip(Indent, "anchor_y", sp.anchorY, SpriteClose);
  }

  /** Every sprite whose name holds no quote is read back exactly from its XML. */
  lemma SpriteRoundTrip(sp: Sprite)
    requires '"' !in sp.name
    ensures ParseSprite(SpriteXml(sp)) == Some(sp)
  {
    var fields := SpriteFieldsXml(sp);
    SpriteFieldsRoundTrip(sp);
    var rest := sp.name + (['"'] + (">\n" + fields));
    StripPrefixOf(SpriteOpen, rest);
    SplitAtOf('"', sp.name, ">\n" + fields);
    StripPrefixOf(">\n", fields);
  }

  /** The dump lines between the name and the clip size: the stored box and the anchor. */
  function BoxLines(b: Box, anchor: Point): string {
    "Bounding box x: " + IntToString(b.x) + ", y: " + IntToString(b.y) +
    ", w: " + IntToString(b.width) + ", h: " + IntToString(b.height) + "\n" +
    "Anchor point x: " + IntToString(anchor.x) + ", y: " + IntToString(anchor.y) + "\n"
  }

  lemma ConcatEnds(head: string, middle: string, tail: string)
    ensures (head + middle + tail)[..|head|] == head
    ensures (head + middle + tail)[|head + middle + tail| - |tail|..] == tail
  {
  }

  class Blob {
    /** Blob identification. */
    var name: string
    /** Bounding box of the points; absent only before the first point is added. */
    var box: Option<Box>
    /** The pixels of the blob. */
    var points: set<Point>
    /** Anchor point of the blob image. */
    var anchor: Point

    /** The box is the exact bounding box of the (non-empty) point set. */
    ghost predicate Valid()
      reads this
    {
      box.Some? && Tight(box.value, points)
    }

    /** A blob holding the single pixel at column `col`, row `row`. */
    constructor (row: int, col: int, name: string)
      ensures Valid() && this.name == name
      ensures points == {Point(col, row)} && box == Some(Box(col, row, 1, 1))
      ensures anchor == Point(col, row)
    {
      this.name := name;
      box := None;
      points := {};
      anchor := Point(0, 0);
      new;
      AddLocation(row, col);
    }

    /**
     * Adds the pixel at column `col`, row `row`.  The first pixel sets the box
     * and the anchor; later pixels grow the box and leave the anchor alone.
     */
    method AddLocation(row: int, col: int)
      requires Valid() || (box.None? && points == {})
      modifies this
      ensures Valid() && name == old(name)
      ensures points == old(points) + {Point(col, row)}
      ensures old(box).None? ==> box == Some(Box(col, row, 1, 1)) && anchor == Point(col, row)
      ensures old(box).Some? ==> box == Some(Grow(old(box).value, Point(col, row))) && anchor == old(anchor)
    {
      var p := Point(col, row);
      if box.None? {
        points := points + {p};
        box := Some(Box(col, row, 1, 1));
        anchor := Point(col, row);
        TightSingle(p);
        return;
      }
      GrowTight(box.value, points, p);
      points := points + {p};
      box := Some(Grow(box.value, p));
    }

    function GetAnchorPoint(): (r: Point)
      reads this
      ensures r == anchor
    {
      anchor
    }

    /** Column of the leftmost pixel. */
    function GetX(): (r: int)
      reads this
      requires Valid()
      ensures forall p :: p in points ==> r <= p.x
      ensures exists p :: p in points && p.x == r
    {
      box.value.x
    }

    /** Row of the topmost pixel. */
    function GetY(): (r: int)
      reads this
      requires Valid()
      ensures forall p :: p in points ==> r <= p.y
      ensures exists p :: p in points && p.y == r
    {
      box.value.y
    }

    /** One more than the number of columns the pixels span. */
    function GetWidth(): (r: int)
      reads this
      requires Valid()
      ensures forall p, q :: p in points && q in points ==> q.x - p.x + 2 <= r
      ensures exists p, q :: p in points && q in points && q.x - p.x + 2 == r
    {
      box.value.width + 1
    }

    /** One more than the number of rows the pixels span. */
    function GetHeight(): (r: int)
      reads this
      requires Valid()
      ensures forall p, q :: p in points && q in points ==> q.y - p.y + 2 <= r
      ensures exists p, q :: p in points && q in points && q.y - p.y + 2 == r
    {
      box.value.height + 1
    }

    /** The fields the `<sprite>` element reports: stored box size, anchor relative to the box. */
    function SpriteOf(): Sprite
      reads this
      requires box.Some?
    {
      Sprite(name, box.value.x, box.value.y, box.value.width, box.value.height,
             anchor.x - box.value.x, anchor.y - box.value.y)
    }

    /** The `<sprite>` element of the blob, which reads back as `SpriteOf()`. */
    function ToXml(): (s: string)
      reads this
      requires box.Some?
      ensures '"' !in name ==> ParseSprite(s) == Some(SpriteOf())
    {
      var sp := SpriteOf();
      if '"' in sp.name then SpriteXml(sp)
      else
        SpriteRoundTrip(sp);
        SpriteXml(sp)
    }

    /**
     * Plain-text dump: the name on the first line, and on the last line the
     * clip size as `GetWidth`/`GetHeight` report it.
     */
    function ToString(): (s: string)
      reads this
      requires Valid()
      ensures var head := "Data dump for clip " + name + "\n";
              |head| <= |s| && s[..|head|] == head
      ensures var tail := "Clip W: " + IntToString(GetWidth()) + ", H: " + IntToString(GetHeight()) + "\n";
              |tail| <= |s| && s[|s| - |tail|..] == tail
    {
      var head := "Data dump for clip " + name + "\n";
      var tail := "Clip W: " + IntToString(GetWidth()) + ", H: " + IntToString(GetHeight()) + "\n";
      var middle := BoxLines(box.value, anchor);
      ConcatEnds(head, middle, tail);
      head + middle + tail
    }
  }
}
