/**
 * The exporter of the sprite-sheet description: an append-only text buffer
 * of `<animation>` and `<sprite>` elements, wrapped on request in an XML
 * declaration, a `<spritesheet>` open tag and its closing tag.
 */
module XmlExport {
  import opened Wrappers
  import opened Decimal
  import opened XmlText

  newtype byte = x: int | 0 <= x < 256

  /** The colour key of the sheet; only its red, green and blue bytes are written. */
  datatype Color = Color(r: byte, g: byte, b: byte)

  /** What the `<spritesheet>` open tag records. */
  datatype SheetInfo = SheetInfo(name: string, width: int, height: int, colorKey: Color)

  const DocumentOpen: string := "<?xml version=\"1.0\"?>\n<spritesheet image_name=\""
  const HeaderClose: string := " >\n"
  const Footer: string := "</spritesheet>"

  /** ` attr="v"` */
  function Attribute(attr: string, v: int): string {
    " " + attr + "=\"" + IntToString(v) + "\""
  }

  /** Reads an `Attribute` off the front of `s`: its value and the text after it. */
  function ParseAttribute(attr: string, s: string): Option<(int, string)> {
    match StripPrefix(" " + attr + "=\"", s)
    case None => None
    case Some(rest) => ParseIntBefore('"', rest)
  }

  lemma AttributeRoundTrip(attr: string, v: int, rest: string)
    ensures ParseAttribute(attr, Attribute(attr, v) + rest) == Some((v, rest))
  {
    var open := " " + attr + "=\"";
    assert Attribute(attr, v) + rest == open + (IntToString(v) + ['"'] + rest);
    StripPrefixOf(open, IntToString(v) + ['"'] + rest);
    ParseIntBeforeOf('"', v, rest);
  }

  /** The colour-key attributes and the end of the open tag, followed by `rest`. */
  function ColorKeyThen(c: Color, rest: string): string {
    Attribute("ck_r", c.r as int) +
    (Attribute("ck_g", c.g as int) +
    (Attribute("ck_b", c.b as int) + (HeaderClose + rest)))
  }

  /** The attributes after the image name and the end of the open tag, followed by `rest`. */
  function AttributesThen(info: SheetInfo, rest: string): string {
    Attribute("width", info.width) +
    (Attribute("height", info.height) + ColorKeyThen(info.colorKey, rest))
  }

  function ToByte(v: int): Option<byte> {
    if 0 <= v < 256 then Some(v as byte) else None
  }

  /** Reads the colour key and the end of the open tag; the rest of the text follows. */
  function ParseColorKey(s: string): Option<(Color, string)> {
    match ParseAttribute("ck_r", s)
    case None => None
    case Some((r, s1)) =>
    match ParseAttribute("ck_g", s1)
    case None => None
    case Some((g, s2)) =>
    match ParseAttribute("ck_b", s2)
    case None => None
    case Some((b, s3)) =>
    match StripPrefix(HeaderClose, s3)
    case None => None
    case Some(rest) =>
      if ToByte(r).Some? && ToByte(g).Some? && ToByte(b).Some? then
        Some((Color(ToByte(r).value, ToByte(g).value, ToByte(b).value), rest))
      else None
  }

  lemma ColorKeyRoundTrip(c: Color, rest: string)
    ensures ParseColorKey(ColorKeyThen(c, rest)) == Some((c, rest))
  {
    var a3 := Attribute("ck_b", c.b as int) + (HeaderClose + rest);
    var a2 := Attribute("ck_g", c.g as int) + a3;
    AttributeRoundTrip("ck_r", c.r as int, a2);
    AttributeRoundTrip("ck_g", c.g as int, a3);
    AttributeRoundTrip("ck_b", c.b as int, HeaderClose + rest);
    StripPrefixOf(HeaderClose, rest);
    assert ParseAttribute("ck_r", ColorKeyThen(c, rest)) == Some((c.r as int, a2));
    assert ToByte(c.r as int) == Some(c.r);
    assert ToByte(c.g as int) == Some(c.g);
    assert ToByte(c.b as int) == Some(c.b);
  }

  /** Reads the attributes after the image name; the rest of the text follows the open tag. */
  function ParseAttributes(name: string, s: string): Option<(SheetInfo, string)> {
    match ParseAttribute("width", s)
    case None => None
    case Some((w, s1)) =>
    match ParseAttribute("height", s1)
    case None => None
    case Some((h, s2)) =>
    match ParseColorKey(s2)
    case None => None
    case Some((c, rest)) => Some((SheetInfo(name, w, h, c), rest))
  }

  lemma AttributesRoundTrip(info: SheetInfo, rest: string)
    ensures ParseAttributes(info.name, AttributesThen(info, rest)) == Some((info, rest))
  {
    var tail := ColorKeyThen(info.colorKey, rest);
    AttributeRoundTrip("width", info.width, Attribute("height", info.height) + tail);
    AttributeRoundTrip("height", info.height, tail);
    ColorKeyRoundTrip(info.colorKey, rest);
  }

  /**
   * The whole document: the XML declaration and the `<spritesheet>` open tag,
   * then `body`, then the closing tag.
   */
  function Document(info: SheetInfo, body: string): string {
    DocumentOpen + (info.name + (['"'] + AttributesThen(info, body + Footer)))
  }

  /** Reads a document back into its header fields and its body; `None` for other text. */
  function ParseDocument(s: string): Option<(SheetInfo, string)> {
    match StripPrefix(DocumentOpen, s)
    case None => None
    case Some(rest) =>
    match SplitAt('"', rest)
    case None => None
    case Some((name, afterName)) =>
    match ParseAttributes(name, afterName)
    case None => None
    case Some((info, content)) =>
      if |Footer| <= |content| && content[|content| - |Footer|..] == Footer then
        Some((info, content[..|content| - |Footer|]))
      else None
  }

  /** A document whose sheet name holds no quote gives back its header fields and its body. */
  lemma DocumentRoundTrip(info: SheetInfo, body: string)
    requires '"' !in info.name
    ensures ParseDocument(Document(info, body)) == Some((info, body))
  {
    var content := body + Footer;
    var afterName := AttributesThen(info, content);
    var rest := info.name + (['"'] + afterName);
    StripPrefixOf(DocumentOpen, rest);
    SplitAtOf('"', info.name, afterName);
    AttributesRoundTrip(info, content);
    assert content[..|content| - |Footer|] == body;
    assert content[|content| - |Footer|..] == Footer;
  }

  class XmlExporter {
    /** The animations and sprites added so far. */
    var xml: string

    constructor ()
      ensures xml == ""
    {
      xml := "";
    }

    /** Drops everything added so far. */
    method Clean()
      modifies this
      ensures xml == ""
    {
      xml := "";
    }

    /**
     * The closed document for the sheet: header with the sheet's name, size
     * and colour key, then the buffer, then the closing tag.  The buffer is
     * only read, so repeated calls give the same text.
     */
    function GetXml(sheetName: string, width: int, height: int, sheetCk: Color): (s: string)
      reads this
      ensures '"' !in sheetName ==>
        ParseDocument(s) == Some((SheetInfo(sheetName, width, height, sheetCk), xml))
    {
      var info := SheetInfo(sheetName, width, height, sheetCk);
      if '"' in sheetName then Document(info, xml)
      else
        DocumentRoundTrip(info, xml);
        Document(info, xml)
    }

    /** Opens an `<animation>` element named `s` on a line of its own. */
    method OpenAnimation(s: string)
      modifies this
      ensures xml == old(xml) + "\t<animation name=\"" + s + "\">\n"
    {
      xml := xml + "\t<animation name=\"" + s + "\">\n";
    }

    /** Closes the current `<animation>` element; the argument is not used. */
    method CloseAnimation(s: string)
      modifies this
      ensures xml == old(xml) + "\t</animation>\n"
    {
      xml := xml + "\t</animation>\n";
    }

    /** Appends a sprite element exactly as given. */
    method AddSprite(s: string)
      modifies this
      ensures xml == old(xml) + s
    {
      xml := xml + s;
    }
  }
}
