/**
 * Connected-component labels.  A label is an integer id fixed when it is
 * created; its printable name is "Label" followed by the decimal id.
 *
 * The source compares labels by reference.  Every label of one detection
 * run is minted exactly once from a strictly increasing counter, so within
 * a run reference identity and id equality coincide, and the model uses a
 * value type whose equality is id equality.
 */
module Labels {
  import opened Wrappers
  import opened Decimal

  datatype Label = Label(id: int) {
    /** The id the label was created with; that id alone determines the label. */
    function GetId(): (r: int)
      ensures Label(r) == this
    {
      id
    }

    /** "Label" followed by the decimal id; the id can be read back from the name. */
    function ToString(): (s: string)
      ensures |s| > 5 && s[..5] == "Label"
      ensures ParseInt(s[5..]) == Some(id)
    {
      var digits := IntToString(id);
      var s := "Label" + digits;
      assert s[5..] == digits;
      s
    }
  }

  /** Labels with distinct ids have distinct names. */
  lemma NamesDistinct(a: Label, b: Label)
    requires a.id != b.id
    ensures a.ToString() != b.ToString()
  {
  }
}
