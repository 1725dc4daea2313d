/** The custom-size form of the icon generator
    (components/CustomSizeInput.tsx): two text fields parsed with
    `parseInt`; the width is required, a missing or non-positive height makes
    the size square, and a successful add clears both fields. */
module CustomSizeInput {
  import opened Util

  /** The size handed to `onAdd`. */
  datatype NewSize = NewSize(width: int, height: int)

  /** The size the two fields describe, if any. */
  function SizeOf(width: string, height: string): (r: Option<NewSize>)
    ensures r.Some? <==> ParseInt(width).Some? && ParseInt(width).value > 0
    ensures r.Some? ==> r.value.width == ParseInt(width).value && r.value.width > 0 && r.value.height > 0
    ensures r.Some? && ParseInt(height).Some? && ParseInt(height).value > 0 ==>
      r.value.height == ParseInt(height).value
    ensures r.Some? && (ParseInt(height).None? || ParseInt(height).value <= 0) ==>
      r.value.height == r.value.width
  {
    match ParseInt(width)
    case None => None
    case Some(w) =>
      if w <= 0 then None
      else
        var h := ParseInt(height);
        var finalHeight := if h.None? || h.value <= 0 then w else h.value;
        Some(NewSize(w, finalHeight))
  }

  /** Fields typed from positive integers describe that size. */
  lemma SizeOfIntegers(w: int, h: int)
    requires w > 0 && h > 0
    ensures SizeOf(IntToString(w), IntToString(h)) == Some(NewSize(w, h))
  {
    ParseIntToString(w);
    ParseIntToString(h);
  }

  /** `parseInt('')` is NaN. */
  lemma ParseEmpty()
    ensures ParseInt("") == None
  {
    assert TrimStart("") == "";
    assert DigitPrefix("") == "";
  }

  /** An empty height field describes the square. */
  lemma SizeOfSquare(w: int)
    requires w > 0
    ensures SizeOf(IntToString(w), "") == Some(NewSize(w, w))
  {
    ParseIntToString(w);
    ParseEmpty();
  }

  /** A width of zero or a negative one adds nothing, whatever the height. */
  lemma NonPositiveWidth(w: int, height: string)
    requires w <= 0
    ensures SizeOf(IntToString(w), height) == None
  {
    ParseIntToString(w);
  }

  class Form {
    var width: string
    var height: string

    constructor()
      ensures width == "" && height == ""
    {
      width := "";
      height := "";
    }

    /** `handleAdd`: nothing, with both fields kept, unless the width parses
        to a positive integer; otherwise the size goes to `onAdd` (returned
        here) and both fields are cleared. Every size it hands over meets
        `App.AppState.AddCustomIcon`'s demand of a positive width and height. */
    method HandleAdd() returns (added: Option<NewSize>)
      modifies this
      ensures added == SizeOf(old(width), old(height))
      ensures added.Some? ==> added.value.width > 0 && added.value.height > 0
      ensures added.Some? ==> width == "" && height == ""
      ensures added.None? ==> width == old(width) && height == old(height)
    {
      var w := ParseInt(width);
      var h := ParseInt(height);
      if w.None? || w.value <= 0 {
        return None;
      }
      var finalHeight := if h.None? || h.value <= 0 then w.value else h.value;
      added := Some(NewSize(w.value, finalHeight));
      width := "";
      height := "";
    }

    /** `handleKeyDown`: Enter adds exactly as the button does; any other key
        does nothing. */
    method HandleKeyDown(key: string) returns (added: Option<NewSize>)
      modifies this
      ensures key == "Enter" ==> added == SizeOf(old(width), old(height))
      ensures key == "Enter" && added.Some? ==> width == "" && height == ""
      ensures key != "Enter" || added.None? ==> width == old(width) && height == old(height)
      ensures key != "Enter" ==> added.None?
    {
      if key == "Enter" {
        added := HandleAdd();
      } else {
        added := None;
      }
    }
  }
}
