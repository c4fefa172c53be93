/**
 * The small pieces of XML text the exporter and the blobs write: literal
 * markup, attribute values closed by a quote and integer element contents.
 * Each writer has a reader here, and each pair is proved to round-trip.
 */
module XmlText {
  import opened Wrappers
  import opened Decimal

  /** The rest of `s` after the literal `p`, if `s` starts with it. */
  function StripPrefix(p: string, s: string): (r: Option<string>)
    ensures r.Some? <==> |p| <= |s| && s[..|p|] == p
    ensures r.Some? ==> p + r.value == s
  {
    if |p| <= |s| && s[..|p|] == p then
      assert p + s[|p|..] == s;
      Some(s[|p|..])
    else None
  }

  lemma StripPrefixOf(p: string, rest: string)
    ensures StripPrefix(p, p + rest) == Some(rest)
  {
    assert (p + rest)[..|p|] == p;
    assert (p + rest)[|p|..] == rest;
  }

  /** `s` cut at the first occurrence of `c`; the separator itself is dropped. */
  function SplitAt(c: char, s: string): (r: Option<(string, string)>)
    ensures r.None? <==> c !in s
    ensures r.Some? ==> c !in r.value.0 && s == r.value.0 + [c] + r.value.1
  {
    if s == [] then None
    else if s[0] == c then
      assert s == [] + [c] + s[1..];
      Some(([], s[1..]))
    else
      match SplitAt(c, s[1..])
      case None => None
      case Some((before, after)) =>
        assert s == [s[0]] + s[1..];
        Some(([s[0]] + before, after))
  }

  lemma {:induction false} SplitAtOf(c: char, before: string, after: string)
    requires c !in before
    ensures SplitAt(c, before + ([c] + after)) == Some((before, after))
  {
    var s := before + ([c] + after);
    if before == [] {
      assert s[1..] == after;
    } else {
      assert s[1..] == before[1..] + ([c] + after);
      SplitAtOf(c, before[1..], after);
      assert [s[0]] + before[1..] == before;
    }
  }

  /** An integer written as text and closed by the character `c`. */
  function ParseIntBefore(c: char, s: string): (r: Option<(int, string)>)
    ensures r.Some? ==> exists digits :: ParseInt(digits) == Some(r.value.0) && s == digits + [c] + r.value.1
  {
    match SplitAt(c, s)
    case None => None
    case Some((digits, rest)) =>
      match ParseInt(digits)
      case None => None
      case Some(v) => Some((v, rest))
  }

  lemma ParseIntBeforeOf(c: char, v: int, rest: string)
    requires !IsNumeral(c)
    ensures ParseIntBefore(c, IntToString(v) + [c] + rest) == Some((v, rest))
  {
    var digits := IntToString(v);
    assert c !in digits by {
      forall k | 0 <= k < |digits| ensures digits[k] != c {
        assert IsNumeral(digits[k]);
      }
    }
    SplitAtOf(c, digits, rest);
    assert digits + ([c] + rest) == digits + [c] + rest;
  }

  /** `<tag>v</tag>` on a line of its own, after `indent`. */
  function Element(indent: string, tag: string, v: int): string {
    indent + "<" + tag + ">" + IntToString(v) + "</" + tag + ">\n"
  }

  /** Reads an `Element` off the front of `s`: its value and the text after it. */
  function ParseElement(indent: string, tag: string, s: string): (r: Option<(int, string)>)
    ensures r.Some? ==> |r.value.1| < |s|
  {
    match StripPrefix(indent + "<" + tag + ">", s)
    case None => None
    case Some(body) =>
      match ParseIntBefore('<', body)
      case None => None
      case Some((v, rest)) =>
        match StripPrefix("/" + tag + ">\n", rest)
        case None => None
        case Some(after) => Some((v, after))
  }

  lemma ElementRoundTrip(indent: string, tag: string, v: int, rest: string)
    ensures ParseElement(indent, tag, Element(indent, tag, v) + rest) == Some((v, rest))
  {
    var open, close := indent + "<" + tag + ">", "/" + tag + ">\n";
    var tail := close + rest;
    assert Element(indent, tag, v) + rest == open + (IntToString(v) + ['<'] + tail);
    StripPrefixOf(open, IntToString(v) + ['<'] + tail);
    ParseIntBeforeOf('<', v, tail);
    StripPrefixOf(close, rest);
  }
}
