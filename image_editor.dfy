/** The crop rectangle editor of the icon generator (components/ImageEditor.tsx):
    the mapping between natural-image and screen coordinates, the move and
    eight-handle resize geometry with optional aspect lock, the clamp to the
    image, the cursor per handle, and the debounced commit to the parent. */
module ImageEditor {
  import opened Util
  import opened Types

  // ---------------------------------------------------------------- handles and actions

  /** The eight resize handles (`ResizeDirection`). */
  datatype Direction = N | S | E | W | NE | NW | SE | SW

  /** The direction's name contains 'n', 's', 'e', 'w'. */
  predicate HasN(d: Direction) { d == N || d == NE || d == NW }
  predicate HasS(d: Direction) { d == S || d == SE || d == SW }
  predicate HasE(d: Direction) { d == E || d == NE || d == SE }
  predicate HasW(d: Direction) { d == W || d == NW || d == SW }

  /** The direction's name has two letters. */
  predicate IsCorner(d: Direction) { d == NE || d == NW || d == SE || d == SW }

  function Opposite(d: Direction): (o: Direction)
    ensures HasN(o) == HasS(d) && HasS(o) == HasN(d) && HasE(o) == HasW(d) && HasW(o) == HasE(d)
  {
    match d
    case N => S case S => N case E => W case W => E
    case NE => SW case SW => NE case NW => SE case SE => NW
  }

  /** What a cursor gesture is doing (`Action`). */
  datatype Action = Idle | Moving | Resizing(direction: Direction)

  datatype Point = Point(x: real, y: real)

  /** The displayed image's box inside the container and its natural size. */
  datatype ImgInfo = ImgInfo(boundsX: real, boundsY: real, boundsWidth: real, boundsHeight: real,
                             naturalWidth: real, naturalHeight: real)

  /** A laid-out image: both its displayed and its natural size are positive. */
  predicate Measured(i: ImgInfo)
  {
    i.boundsWidth > 0.0 && i.boundsHeight > 0.0 && i.naturalWidth > 0.0 && i.naturalHeight > 0.0
  }

  // ---------------------------------------------------------------- coordinates

  /** Natural-image coordinate to exact screen coordinate on one axis. */
  function ToScreen(v: real, offset: real, boundsSize: real, naturalSize: real): real
    requires boundsSize > 0.0 && naturalSize > 0.0
  {
    v * (boundsSize / naturalSize) + offset
  }

  /** A cursor displacement in screen pixels as a displacement in natural pixels. */
  function NaturalDelta(screenDelta: real, boundsSize: real, naturalSize: real): real
    requires boundsSize > 0.0 && naturalSize > 0.0
  {
    screenDelta * (naturalSize / boundsSize)
  }

  /** Moving the cursor between the screen images of two natural coordinates
      moves the crop by exactly their difference. */
  lemma {:induction false} NaturalDeltaOfScreenDelta(a: real, b: real, offset: real, boundsSize: real, naturalSize: real)
    requires boundsSize > 0.0 && naturalSize > 0.0
    ensures NaturalDelta(ToScreen(a, offset, boundsSize, naturalSize) - ToScreen(b, offset, boundsSize, naturalSize),
                         boundsSize, naturalSize) == a - b
  {
    var k := boundsSize / naturalSize;
    var m := naturalSize / boundsSize;
    assert k * naturalSize == boundsSize;
    assert m * boundsSize == naturalSize;
    assert k * m == 1.0 by {
      assert k * m * boundsSize == k * naturalSize;
      assert (k * m - 1.0) * boundsSize == 0.0;
    }
    calc {
      NaturalDelta(ToScreen(a, offset, boundsSize, naturalSize) - ToScreen(b, offset, boundsSize, naturalSize), boundsSize, naturalSize);
      == ((a * k + offset) - (b * k + offset)) * m;
      == (a - b) * (k * m);
    }
  }

  /** The selection's rectangle in integer screen pixels. */
  datatype ScreenRect = ScreenRect(x: int, y: int, width: int, height: int)

  /** `screenSelection`: present exactly when both a crop and a measured image
      are, and each field is the exact screen value rounded to the nearest
      pixel. */
  function ScreenSelection(visual: Option<Crop>, info: Option<ImgInfo>): (r: Option<ScreenRect>)
    requires info.Some? ==> Measured(info.value)
    ensures r.Some? <==> visual.Some? && info.Some?
    ensures r.Some? ==>
      var c, i := visual.value, info.value;
      && r.value.x == Round(ToScreen(c.x, i.boundsX, i.boundsWidth, i.naturalWidth))
      && r.value.y == Round(ToScreen(c.y, i.boundsY, i.boundsHeight, i.naturalHeight))
      && r.value.width == Round(ToScreen(c.width, 0.0, i.boundsWidth, i.naturalWidth))
      && r.value.height == Round(ToScreen(c.height, 0.0, i.boundsHeight, i.naturalHeight))
  {
    if visual.None? || info.None? then None
    else
      var c, i := visual.value, info.value;
      var scaleX := i.boundsWidth / i.naturalWidth;
      var scaleY := i.boundsHeight / i.naturalHeight;
      Some(ScreenRect(Round(c.x * scaleX + i.boundsX), Round(c.y * scaleY + i.boundsY),
                      Round(c.width * scaleX), Round(c.height * scaleY)))
  }

  // ---------------------------------------------------------------- cursors

  /** The cursor shown over a resize handle. */
  function CursorFor(d: Direction): (c: string)
    ensures c in {"ns-resize", "ew-resize", "nesw-resize", "nwse-resize"}
  {
    match d
    case N => "ns-resize" case S => "ns-resize"
    case E => "ew-resize" case W => "ew-resize"
    case NE => "nesw-resize" case SW => "nesw-resize"
    case NW => "nwse-resize" case SE => "nwse-resize"
  }

  /** Two handles share a cursor exactly when they are the same handle or
      opposite handles. */
  lemma CursorSharedByOpposites(a: Direction, b: Direction)
    ensures CursorFor(a) == CursorFor(b) <==> (a == b || a == Opposite(b))
  {
  }

  // ---------------------------------------------------------------- clamping

  /** `updateVisualCrop`'s constraint to the image: the origin is pushed to be
      non-negative, and a width or height that overhangs the right or bottom
      edge is cut back to it; sizes never go negative. */
  function Clamped(c: Crop, naturalWidth: real, naturalHeight: real): (r: Crop)
    ensures r.x == MaxReal(0.0, c.x) && r.y == MaxReal(0.0, c.y)
    ensures NonNegativeSize(r)
    ensures r.x <= naturalWidth ==> r.x + r.width <= naturalWidth
    ensures r.y <= naturalHeight ==> r.y + r.height <= naturalHeight
    ensures r.width <= MaxReal(0.0, c.width) && r.height <= MaxReal(0.0, c.height)
    ensures r.x + c.width <= naturalWidth ==> r.width == MaxReal(0.0, c.width)
    ensures r.y + c.height <= naturalHeight ==> r.height == MaxReal(0.0, c.height)
  {
    var x := MaxReal(0.0, c.x);
    var y := MaxReal(0.0, c.y);
    Crop(x, y, MaxReal(0.0, MinReal(c.width, naturalWidth - x)), MaxReal(0.0, MinReal(c.height, naturalHeight - y)))
  }

  /** A crop already inside the image is left as it is. */
  lemma ClampedInside(c: Crop, naturalWidth: real, naturalHeight: real)
    requires 0.0 <= c.x && 0.0 <= c.y && NonNegativeSize(c)
    requires c.x + c.width <= naturalWidth && c.y + c.height <= naturalHeight
    ensures Clamped(c, naturalWidth, naturalHeight) == c
  {
  }

  // ---------------------------------------------------------------- resize geometry

  /** The change of width the cursor asks for: the x displacement on an 'e'
      handle, its negation on a 'w' handle, none otherwise. */
  function DragWidth(d: Direction, dx: real): real
  {
    if HasW(d) then -dx else if HasE(d) then dx else 0.0
  }

  /** The change of height: dy on an 's' handle, -dy on an 'n' handle. */
  function DragHeight(d: Direction, dy: real): real
  {
    if HasN(d) then -dy else if HasS(d) then dy else 0.0
  }

  /** A signed width and height. */
  datatype Size = Size(width: real, height: real)

  /** Two parallel edge positions, in no particular order. */
  datatype Edges = Edges(first: real, second: real)

  /** With the aspect locked, the width leads on 'e'/'w' edges and on corners
      where the cursor's width change outweighs its height change in the start
      crop's proportion (|dw| * h > |dh| * w); the height leads otherwise.
      `vertical` says the handle is 'n' or 's'. */
  predicate WidthLeads(corner: bool, vertical: bool, sw: real, sh: real, dw: real, dh: real)
  {
    if corner then AbsReal(dw) * sh > AbsReal(dh) * sw else !vertical
  }

  /** The start sizes for which the locked step stays finite: both sides
      positive; a zero width (aspect 0) where the height leads, that is on an
      'n'/'s' edge or on a corner without width change; or a zero height
      (infinite aspect) on an 'e'/'w' edge. In the last two the derived change
      is 0 and the crop stays a line (see `LockDefinedDivides`). */
  predicate LockDefined(corner: bool, vertical: bool, sw: real, sh: real, dw: real, dh: real)
  {
    || (sw > 0.0 && sh > 0.0)
    || (sw == 0.0 && sh > 0.0 && (if corner then dw == 0.0 else vertical))
    || (sh == 0.0 && sw > 0.0 && !corner && !vertical)
  }

  /** The locked step divides only by the side that leads: by `sw` when the
      width leads (`dh = dw / aspect`) and by `sh` otherwise (`dw = dh * aspect`
      with `aspect = sw / sh`). It is defined exactly when that side is
      positive. */
  lemma LockDefinedDivides(corner: bool, vertical: bool, sw: real, sh: real, dw: real, dh: real)
    requires sw >= 0.0 && sh >= 0.0
    ensures LockDefined(corner, vertical, sw, sh, dw, dh) <==>
      if WidthLeads(corner, vertical, sw, sh, dw, dh) then sw > 0.0 else sh > 0.0
  {
    if corner && sw == 0.0 && sh > 0.0 && dw != 0.0 {
      assert AbsReal(dw) * sh > 0.0;
    }
  }

  /** The aspect-locked size: the leading side follows the cursor and the
      other is scaled in the start proportion `sw : sh`. */
  function LockedSize(corner: bool, vertical: bool, sw: real, sh: real, dw: real, dh: real): Size
    requires LockDefined(corner, vertical, sw, sh, dw, dh)
  {
    if WidthLeads(corner, vertical, sw, sh, dw, dh) then
      var w := sw + dw;
      Size(w, w * sh / sw)
    else
      var h := sh + dh;
      Size(h * sw / sh, h)
  }

  /** The locked size stays in the start proportion. */
  lemma LockedSizeKeepsAspect(corner: bool, vertical: bool, sw: real, sh: real, dw: real, dh: real, wh: Size)
    requires LockDefined(corner, vertical, sw, sh, dw, dh) && wh == LockedSize(corner, vertical, sw, sh, dw, dh)
    ensures wh.width * sh == wh.height * sw
  {
  }

  /** The locked step of a drag at handle `d` by (dx, dy) is defined. */
  predicate Lockable(d: Direction, s: Crop, dx: real, dy: real)
  {
    LockDefined(IsCorner(d), HasN(d) || HasS(d), s.width, s.height, DragWidth(d, dx), DragHeight(d, dy))
  }

  /** The new width and height before any flip (they may be negative): the
      cursor's changes added to the start size, or the locked size. */
  function SignedSize(d: Direction, s: Crop, dx: real, dy: real, locked: bool): Size
    requires locked ==> Lockable(d, s, dx, dy)
  {
    var dw := DragWidth(d, dx);
    var dh := DragHeight(d, dy);
    if !locked then Size(s.width + dw, s.height + dh)
    else LockedSize(IsCorner(d), HasN(d) || HasS(d), s.width, s.height, dw, dh)
  }

  /** The two vertical edges the resized crop spans: the fixed edge (the right
      one for a 'w' handle, the left one otherwise) and the one the width is
      measured from it; an aspect-locked 'n'/'s' drag keeps the centre instead. */
  function HorizontalEdges(d: Direction, s: Crop, w: real, locked: bool): Edges
  {
    if locked && !IsCorner(d) && (HasN(d) || HasS(d)) then
      Edges(s.x + s.width / 2.0 - w / 2.0, s.x + s.width / 2.0 + w / 2.0)
    else if HasW(d) then Edges(s.x + s.width - w, s.x + s.width)
    else Edges(s.x, s.x + w)
  }

  /** The two horizontal edges, as `HorizontalEdges` with 'n' in place of 'w'. */
  function VerticalEdges(d: Direction, s: Crop, h: real, locked: bool): Edges
  {
    if locked && !IsCorner(d) && (HasE(d) || HasW(d)) then
      Edges(s.y + s.height / 2.0 - h / 2.0, s.y + s.height / 2.0 + h / 2.0)
    else if HasN(d) then Edges(s.y + s.height - h, s.y + s.height)
    else Edges(s.y, s.y + h)
  }

  /** The edges lie as far apart as the signed size says. */
  lemma EdgesSpan(d: Direction, s: Crop, w: real, h: real, locked: bool)
    ensures HorizontalEdges(d, s, w, locked).second - HorizontalEdges(d, s, w, locked).first == w
    ensures VerticalEdges(d, s, h, locked).second - VerticalEdges(d, s, h, locked).first == h
  {
  }

  /** The rectangle between two edges, whichever order they come in. */
  function Between(x1: real, x2: real, y1: real, y2: real): (r: Crop)
    ensures NonNegativeSize(r)
    ensures r.x == MinReal(x1, x2) && r.x + r.width == MaxReal(x1, x2)
    ensures r.y == MinReal(y1, y2) && r.y + r.height == MaxReal(y1, y2)
  {
    Crop(MinReal(x1, x2), MinReal(y1, y2), AbsReal(x2 - x1), AbsReal(y2 - y1))
  }

  /** The crop a resize drag produces from the start crop and the cursor's
      displacement in natural pixels: the rectangle between the fixed edges and
      the edges the new size reaches, so a drag past the opposite edge flips
      instead of inverting. None when the aspect is locked and the locked step
      would divide by a zero side of the start crop, where the program's
      values become infinite or NaN. */
  function ResizeSpec(d: Direction, s: Crop, dx: real, dy: real, locked: bool): (r: Option<Crop>)
    requires NonNegativeSize(s)
    ensures r.None? <==> locked && !Lockable(d, s, dx, dy)
    ensures r.Some? ==> NonNegativeSize(r.value)
  {
    if locked && !Lockable(d, s, dx, dy) then None
    else
      var wh := SignedSize(d, s, dx, dy, locked);
      var xs := HorizontalEdges(d, s, wh.width, locked);
      var ys := VerticalEdges(d, s, wh.height, locked);
      Some(Between(xs.first, xs.second, ys.first, ys.second))
  }

  /** `p > |a * (b / c)|` is `p * c > |a| * b` for positive b and c. */
  lemma ScaledCompare(p: real, a: real, b: real, c: real)
    requires b > 0.0 && c > 0.0
    ensures p > AbsReal(a * (b / c)) <==> p * c > AbsReal(a) * b
  {
    var q := b / c;
    assert q * c == b;
    assert q > 0.0;
    var m := AbsReal(a) * q;
    assert AbsReal(a * q) == m;
    assert m * c == AbsReal(a) * b;
    if p > m {
      assert p * c > m * c;
    } else {
      assert p * c <= m * c;
    }
  }

  /** `a / (b / c) == a * c / b` and `a * (b / c) == a * b / c`. */
  lemma RatioArith(a: real, b: real, c: real)
    requires b > 0.0 && c > 0.0
    ensures a / (b / c) == a * c / b
    ensures a * (b / c) == a * b / c
  {
    var q := b / c;
    assert q * c == b;
    assert (a * c / b) * q == a by {
      assert (a * c / b) * b == a * c;
      assert (a * c / b) * q * c == a * c;
    }
  }

  /** When the width leads, the locked size is the width change added and the
      height change derived by dividing it by the aspect ratio `sw / sh`. */
  lemma WidthLedSize(corner: bool, vertical: bool, sw: real, sh: real, dw: real, dh: real)
    requires sw > 0.0 && sh > 0.0 && WidthLeads(corner, vertical, sw, sh, dw, dh)
    ensures LockedSize(corner, vertical, sw, sh, dw, dh) == Size(sw + dw, sh + dw / (sw / sh))
  {
    RatioArith(dw, sw, sh);
    assert (sw + dw) * sh / sw == sh + dw * sh / sw;
  }

  /** When the height leads, the width change is the height change multiplied
      by the aspect ratio. */
  lemma HeightLedSize(corner: bool, vertical: bool, sw: real, sh: real, dw: real, dh: real)
    requires sw > 0.0 && sh > 0.0 && !WidthLeads(corner, vertical, sw, sh, dw, dh)
    ensures LockedSize(corner, vertical, sw, sh, dw, dh) == Size(sw + dh * (sw / sh), sh + dh)
  {
    RatioArith(dh, sw, sh);
    assert (sh + dh) * sw / sh == sw + dh * sw / sh;
  }

  /** On a start crop with a zero side the locked size is a line: the zero
      side stays zero and the other follows its own change. */
  lemma LockedLine(corner: bool, vertical: bool, sw: real, sh: real, dw: real, dh: real)
    requires LockDefined(corner, vertical, sw, sh, dw, dh) && (sw == 0.0 || sh == 0.0)
    ensures sw == 0.0 ==> LockedSize(corner, vertical, sw, sh, dw, dh) == Size(0.0, sh + dh)
    ensures sh == 0.0 ==> LockedSize(corner, vertical, sw, sh, dw, dh) == Size(sw + dw, 0.0)
  {
    if sw == 0.0 {
      assert !WidthLeads(corner, vertical, sw, sh, dw, dh);
    } else {
      assert WidthLeads(corner, vertical, sw, sh, dw, dh);
    }
  }

  /** The source's aspect-ratio adjustment of the deltas, with the aspect ratio
      `sw / sh` of the start crop. On a start crop with a zero side the
      program's aspect is 0 (zero width), which makes `dh * aspect` 0, or
      infinite (zero height), which makes `dw / aspect` 0. */
  method LockDeltas(corner: bool, vertical: bool, sw: real, sh: real, dw0: real, dh0: real)
    returns (dw: real, dh: real)
    requires LockDefined(corner, vertical, sw, sh, dw0, dh0)
    ensures Size(sw + dw, sh + dh) == LockedSize(corner, vertical, sw, sh, dw0, dh0)
  {
    if sw == 0.0 || sh == 0.0 {
      LockedLine(corner, vertical, sw, sh, dw0, dh0);
      if sw == 0.0 {
        dw, dh := 0.0, dh0;
      } else {
        dw, dh := dw0, 0.0;
      }
    } else {
      dw, dh := AspectDeltas(corner, vertical, sw, sh, dw0, dh0);
    }
  }

  /** The adjustment on a start crop with two positive sides: on a corner the
      larger change decides the other; on an edge the dragged side decides the
      other. */
  method AspectDeltas(corner: bool, vertical: bool, sw: real, sh: real, dw0: real, dh0: real)
    returns (dw: real, dh: real)
    requires sw > 0.0 && sh > 0.0
    ensures Size(sw + dw, sh + dh) == LockedSize(corner, vertical, sw, sh, dw0, dh0)
  {
    dw, dh := dw0, dh0;
    var aspect := sw / sh;
    var widthLeads := WidthLeads(corner, vertical, sw, sh, dw0, dh0);
    if corner {
      ScaledCompare(AbsReal(dw), dh, sw, sh);
      assert widthLeads == (AbsReal(dw) > AbsReal(dh * aspect));
      if AbsReal(dw) > AbsReal(dh * aspect) {
        dh := dw / aspect;
      } else {
        dw := dh * aspect;
      }
    } else {
      if vertical {
        dw := dh * aspect;
      } else {
        dh := dw / aspect;
      }
    }
    if widthLeads {
      WidthLedSize(corner, vertical, sw, sh, dw0, dh0);
    } else {
      HeightLedSize(corner, vertical, sw, sh, dw0, dh0);
    }
  }

  /** Handle resizing (`handleMove`, resizing branch): the deltas from the
      handle's letters, the aspect adjustment, then the placement. It agrees
      with `ResizeSpec`. */
  method ResizeGeometry(d: Direction, s: Crop, dx: real, dy: real, locked: bool) returns (r: Option<Crop>)
    requires NonNegativeSize(s)
    ensures r == ResizeSpec(d, s, dx, dy, locked)
  {
    if locked && !Lockable(d, s, dx, dy) {
      return None;
    }
    var size := ResizeDeltas(d, s, dx, dy, locked);
    var placed := PlaceResized(d, s, size.width, size.height, locked);
    r := Some(placed);
  }

  /** The deltas from the handle's letters: 'e' and 's' add the cursor's
      displacement, 'w' and 'n' subtract it. */
  method DragDeltas(d: Direction, dx: real, dy: real) returns (dw: real, dh: real)
    ensures dw == DragWidth(d, dx) && dh == DragHeight(d, dy)
  {
    dw, dh := 0.0, 0.0;
    if HasE(d) { dw := dx; }
    if HasW(d) { dw := -dx; }
    if HasS(d) { dh := dy; }
    if HasN(d) { dh := -dy; }
  }

  /** The signed size of a resize, step by step: the deltas from the handle's
      letters, then the aspect adjustment, added to the start size. */
  method ResizeDeltas(d: Direction, s: Crop, dx: real, dy: real, locked: bool) returns (size: Size)
    requires NonNegativeSize(s) && (locked ==> Lockable(d, s, dx, dy))
    ensures size == SignedSize(d, s, dx, dy, locked)
  {
    var dw, dh := DragDeltas(d, dx, dy);
    if locked {
      var corner, vertical := IsCorner(d), HasN(d) || HasS(d);
      var dw0, dh0 := dw, dh;
      dw, dh := LockDeltas(corner, vertical, s.width, s.height, dw0, dh0);
    }
    size := Size(s.width + dw, s.height + dh);
  }

  /** The placement steps of a resize, step by step as the editor does them:
      centring of locked edge drags, re-anchoring of north and west drags, and
      the flip of a negative side. The result is the rectangle between the
      fixed and the reached edges. */
  method PlaceResized(d: Direction, s: Crop, w: real, h: real, locked: bool) returns (r: Crop)
    requires NonNegativeSize(s)
    ensures var xs, ys := HorizontalEdges(d, s, w, locked), VerticalEdges(d, s, h, locked);
      r == Between(xs.first, xs.second, ys.first, ys.second)
  {
    var x, width := PlaceHorizontal(d, s, w, locked);
    var y, height := PlaceVertical(d, s, h, locked);
    r := Crop(x, y, width, height);
  }

  /** The horizontal half of `PlaceResized`: the left edge and the width. */
  method PlaceHorizontal(d: Direction, s: Crop, w: real, locked: bool) returns (x: real, width: real)
    ensures var xs := HorizontalEdges(d, s, w, locked);
      x == MinReal(xs.first, xs.second) && width == AbsReal(xs.second - xs.first)
  {
    x, width := s.x, w;
    var right := s.x + s.width;
    if locked && !IsCorner(d) && (HasN(d) || HasS(d)) {
      x := s.x + (s.width - width) / 2.0;
    }
    if HasW(d) { x := right - width; }
    assert x == HorizontalEdges(d, s, w, locked).first && x + width == HorizontalEdges(d, s, w, locked).second;
    if width < 0.0 {
      x := x + width;
      width := AbsReal(width);
    }
  }

  /** The vertical half of `PlaceResized`: the top edge and the height. */
  method PlaceVertical(d: Direction, s: Crop, h: real, locked: bool) returns (y: real, height: real)
    ensures var ys := VerticalEdges(d, s, h, locked);
      y == MinReal(ys.first, ys.second) && height == AbsReal(ys.second - ys.first)
  {
    y, height := s.y, h;
    var bottom := s.y + s.height;
    if locked && !IsCorner(d) && !(HasN(d) || HasS(d)) {
      y := s.y + (s.height - height) / 2.0;
    }
    if HasN(d) { y := bottom - height; }
    assert y == VerticalEdges(d, s, h, locked).first && y + height == VerticalEdges(d, s, h, locked).second;
    if height < 0.0 {
      y := y + height;
      height := AbsReal(height);
    }
  }

  // ---------------------------------------------------------------- properties of the resize

  /** Placing a signed size in the start proportion keeps that proportion. */
  lemma PlacedKeepsAspect(d: Direction, s: Crop, w: real, h: real, r: Crop)
    requires s.width > 0.0 && s.height > 0.0 && w * s.height == h * s.width
    requires var xs, ys := HorizontalEdges(d, s, w, true), VerticalEdges(d, s, h, true);
      r == Between(xs.first, xs.second, ys.first, ys.second)
    ensures r.width * s.height == r.height * s.width
  {
    BetweenEdgesSize(d, s, w, h, true);
    SidesKeepAspect(r.width, r.height, w, h, s.width, s.height);
  }

  /** Sides that are the absolute values of a size in the start proportion
      are in that proportion. */
  lemma SidesKeepAspect(rw: real, rh: real, w: real, h: real, sw: real, sh: real)
    requires rw == AbsReal(w) && rh == AbsReal(h)
    requires sw > 0.0 && sh > 0.0 && w * sh == h * sw
    ensures rw * sh == rh * sw
  {
    CrossAbs(w, h, sw, sh);
  }


  /** The placed rectangle's sides are the absolute signed sizes. */
  lemma BetweenEdgesSize(d: Direction, s: Crop, w: real, h: real, locked: bool)
    ensures var xs, ys := HorizontalEdges(d, s, w, locked), VerticalEdges(d, s, h, locked);
      var r := Between(xs.first, xs.second, ys.first, ys.second);
      r.width == AbsReal(w) && r.height == AbsReal(h)
  {
    EdgesSpan(d, s, w, h, locked);
  }


  /** Cross-multiplied equality with positive factors survives taking absolute values. */
  lemma CrossAbs(w: real, h: real, sw: real, sh: real)
    requires sw > 0.0 && sh > 0.0 && w * sh == h * sw
    ensures AbsReal(w) * sh == AbsReal(h) * sw
  {
    assert AbsReal(w) == w || AbsReal(w) == -w;
    if w < 0.0 {
      assert w * sh < 0.0;
      assert h < 0.0;
    } else {
      assert w * sh >= 0.0;
      assert h >= 0.0;
    }
  }



  /** Without the lock, the crop spans from the edge opposite the dragged one
      to where the cursor took the dragged edge; an axis the handle does not
      touch keeps its position and size. */
  lemma ResizeFollowsCursor(d: Direction, s: Crop, dx: real, dy: real)
    requires NonNegativeSize(s)
    ensures var r := ResizeSpec(d, s, dx, dy, false).value;
      && (HasE(d) ==> r.x == MinReal(s.x, s.x + s.width + dx) && r.x + r.width == MaxReal(s.x, s.x + s.width + dx))
      && (HasW(d) ==> r.x == MinReal(s.x + s.width, s.x + dx) && r.x + r.width == MaxReal(s.x + s.width, s.x + dx))
      && (!HasE(d) && !HasW(d) ==> r.x == s.x && r.width == s.width)
      && (HasS(d) ==> r.y == MinReal(s.y, s.y + s.height + dy) && r.y + r.height == MaxReal(s.y, s.y + s.height + dy))
      && (HasN(d) ==> r.y == MinReal(s.y + s.height, s.y + dy) && r.y + r.height == MaxReal(s.y + s.height, s.y + dy))
      && (!HasS(d) && !HasN(d) ==> r.y == s.y && r.height == s.height)
  {
    var wh := SignedSize(d, s, dx, dy, false);
    assert wh == Size(s.width + DragWidth(d, dx), s.height + DragHeight(d, dy));
    var xs, ys := HorizontalEdges(d, s, wh.width, false), VerticalEdges(d, s, wh.height, false);
    assert ResizeSpec(d, s, dx, dy, false) == Some(Between(xs.first, xs.second, ys.first, ys.second));
  }

  /** An aspect-locked edge drag keeps the crop centred on the other axis and
      its height (for 'n'/'s') or width (for 'e'/'w') follows the cursor. */
  lemma ResizeLockedEdgeCentred(d: Direction, s: Crop, dx: real, dy: real)
    requires s.width > 0.0 && s.height > 0.0 && !IsCorner(d)
    ensures var r := ResizeSpec(d, s, dx, dy, true).value;
      && ((HasN(d) || HasS(d)) ==> 2.0 * r.x + r.width == 2.0 * s.x + s.width
                                   && r.height == AbsReal(s.height + DragHeight(d, dy)))
      && ((HasE(d) || HasW(d)) ==> 2.0 * r.y + r.height == 2.0 * s.y + s.height
                                   && r.width == AbsReal(s.width + DragWidth(d, dx)))
  {
  }

  /** An aspect-locked corner drag keeps the opposite corner where it was, and
      the side the cursor moved more (in the start proportion) follows it. */
  lemma ResizeLockedCornerAnchored(d: Direction, s: Crop, dx: real, dy: real)
    requires s.width > 0.0 && s.height > 0.0 && IsCorner(d)
    ensures var r := ResizeSpec(d, s, dx, dy, true).value;
      var fixedX := if HasW(d) then s.x + s.width else s.x;
      var fixedY := if HasN(d) then s.y + s.height else s.y;
      var leads := WidthLeads(true, false, s.width, s.height, DragWidth(d, dx), DragHeight(d, dy));
      && (r.x == fixedX || r.x + r.width == fixedX)
      && (r.y == fixedY || r.y + r.height == fixedY)
      && (leads ==> r.width == AbsReal(s.width + DragWidth(d, dx)))
      && (!leads ==> r.height == AbsReal(s.height + DragHeight(d, dy)))
  {
  }

  /** An aspect-locked drag from a crop with one zero side is defined where
      the program's arithmetic stays finite, and then the crop stays a line:
      a zero-width crop dragged at an 'n'/'s' edge, or at a corner without
      horizontal movement, keeps its x and zero width while its height follows
      the cursor; a zero-height crop dragged at an 'e'/'w' edge keeps its y and
      zero height while its width follows the cursor. */
  lemma ResizeLockedDegenerate(d: Direction, s: Crop, dx: real, dy: real)
    ensures s.width == 0.0 && s.height > 0.0 && ((!IsCorner(d) && (HasN(d) || HasS(d))) || (IsCorner(d) && dx == 0.0)) ==>
      var r := ResizeSpec(d, s, dx, dy, true);
      r.Some? && r.value.x == s.x && r.value.width == 0.0 && r.value.height == AbsReal(s.height + DragHeight(d, dy))
    ensures s.height == 0.0 && s.width > 0.0 && !IsCorner(d) && (HasE(d) || HasW(d)) ==>
      var r := ResizeSpec(d, s, dx, dy, true);
      r.Some? && r.value.y == s.y && r.value.height == 0.0 && r.value.width == AbsReal(s.width + DragWidth(d, dx))
  {
  }

  /** Dragging the 'se' handle of (10, 10, 100x100) by (-150, -150) flips the
      crop to (-40, -40, 50x50); clamped to a 1000x1000 image it is
      (0, 0, 50x50). */
  lemma ResizeFlipExample()
    ensures ResizeSpec(SE, Crop(10.0, 10.0, 100.0, 100.0), -150.0, -150.0, false)
            == Some(Crop(-40.0, -40.0, 50.0, 50.0))
    ensures Clamped(Crop(-40.0, -40.0, 50.0, 50.0), 1000.0, 1000.0) == Crop(0.0, 0.0, 50.0, 50.0)
  {
  }

  /** The crop a gesture produces from its start crop, before the clamp. */
  function Gesture(a: Action, s: Crop, dx: real, dy: real, locked: bool): (r: Option<Crop>)
    requires a != Idle && NonNegativeSize(s)
    ensures a == Moving ==> r == Some(Crop(s.x + dx, s.y + dy, s.width, s.height))
    ensures a.Resizing? ==> r == ResizeSpec(a.direction, s, dx, dy, locked)
  {
    if a == Moving then Some(Crop(s.x + dx, s.y + dy, s.width, s.height))
    else ResizeSpec(a.direction, s, dx, dy, locked)
  }

  /** One move event of a gesture: the cursor's displacement since the
      gesture started, scaled to natural pixels, applied to the start
      snapshot. */
  method GestureStep(a: Action, s: Crop, startPos: Point, pos: Point, i: ImgInfo, locked: bool)
    returns (newCrop: Option<Crop>)
    requires a != Idle && NonNegativeSize(s) && Measured(i)
    ensures newCrop == Gesture(a, s, NaturalDelta(pos.x - startPos.x, i.boundsWidth, i.naturalWidth),
                               NaturalDelta(pos.y - startPos.y, i.boundsHeight, i.naturalHeight), locked)
  {
    var scaleX := i.naturalWidth / i.boundsWidth;
    var scaleY := i.naturalHeight / i.boundsHeight;
    var dx := (pos.x - startPos.x) * scaleX;
    var dy := (pos.y - startPos.y) * scaleY;
    assert dx == NaturalDelta(pos.x - startPos.x, i.boundsWidth, i.naturalWidth);
    assert dy == NaturalDelta(pos.y - startPos.y, i.boundsHeight, i.naturalHeight);
    if a == Moving {
      newCrop := Some(Crop(s.x + dx, s.y + dy, s.width, s.height));
    } else {
      newCrop := ResizeGeometry(a.direction, s, dx, dy, locked);
    }
  }

  // ---------------------------------------------------------------- debounced commit

  predicate IsInteger(v: real)
  {
    v == v.Floor as real
  }

  /** The crop with every field rounded to the nearest integer, an exact half
      upwards (`Math.round`). */
  function RoundCrop(c: Crop): (r: Crop)
    ensures IsInteger(r.x) && IsInteger(r.y) && IsInteger(r.width) && IsInteger(r.height)
    ensures c.x - 0.5 < r.x <= c.x + 0.5 && c.y - 0.5 < r.y <= c.y + 0.5
    ensures c.width - 0.5 < r.width <= c.width + 0.5 && c.height - 0.5 < r.height <= c.height + 0.5
  {
    Crop(Round(c.x) as real, Round(c.y) as real, Round(c.width) as real, Round(c.height) as real)
  }

  /** Exact halves round up, towards positive infinity, as `Math.round` does:
      2.5 gives 3 and -2.5 gives -2. */
  lemma RoundCropHalves()
    ensures RoundCrop(Crop(2.5, -2.5, 0.5, 1.5)) == Crop(3.0, -2.0, 1.0, 2.0)
  {
  }

  /** What the 500 ms timer reports to the parent: Some(Some(r)) for a new
      rounded crop r, Some(None) to clear, None to stay silent. */
  function CommitDecision(visual: Option<Crop>, crop: Option<Crop>): (e: Option<Option<Crop>>)
    ensures visual.Some? ==> (e.Some? <==> Some(RoundCrop(visual.value)) != crop)
    ensures visual.Some? && e.Some? ==> e.value == Some(RoundCrop(visual.value))
    ensures visual.None? ==> (e.Some? <==> crop.Some?) && (e.Some? ==> e.value.None?)
  {
    match visual
    case Some(v) =>
      var rounded := RoundCrop(v);
      if Some(rounded) != crop then Some(Some(rounded)) else None
    case None =>
      if crop.Some? then Some(None) else None
  }

  lemma {:induction false} RoundCropIdempotent(c: Crop)
    ensures RoundCrop(RoundCrop(c)) == RoundCrop(c)
  {
    RoundOfInteger(Round(c.x));
    RoundOfInteger(Round(c.y));
    RoundOfInteger(Round(c.width));
    RoundOfInteger(Round(c.height));
  }

  /** Once the parent adopts the committed crop and hands it back, the next
      timer reports nothing: the commit does not echo. */
  lemma {:induction false} CommitSettles(v: Crop)
    ensures var r := RoundCrop(v); CommitDecision(Some(r), Some(r)) == None
  {
    RoundCropIdempotent(v);
  }

  // ---------------------------------------------------------------- the component

  /** The editor's state: the gesture in progress, the measured image, the crop
      being shown, the crop the parent last passed in, the aspect-lock flag,
      the gesture's start snapshot and whether the commit timer is armed. */
  class CropEditor {
    var action: Action
    var info: Option<ImgInfo>
    var visual: Option<Crop>
    var crop: Option<Crop>
    var locked: bool
    var startPos: Point
    var startCrop: Crop
    var timerPending: bool

    ghost predicate Valid()
      reads this
    {
      && (info.Some? ==> Measured(info.value))
      && NonNegativeSize(startCrop)
      && (visual.Some? ==> NonNegativeSize(visual.value))
    }

    /** Mounting: the shown crop starts as the parent's, and the commit effect runs once. */
    constructor(initial: Option<Crop>, aspectLocked: bool)
      requires initial.Some? ==> NonNegativeSize(initial.value)
      ensures Valid()
      ensures action == Idle && info == None && visual == initial && crop == initial
      ensures locked == aspectLocked && timerPending
      ensures startPos == Point(0.0, 0.0) && startCrop == Crop(0.0, 0.0, 0.0, 0.0)
    {
      action := Idle;
      info := None;
      visual := initial;
      crop := initial;
      locked := aspectLocked;
      startPos := Point(0.0, 0.0);
      startCrop := Crop(0.0, 0.0, 0.0, 0.0);
      timerPending := true;
    }

    /** The image loaded or the window resized: the bounds are measured again. */
    method Measure(i: ImgInfo)
      requires Valid() && Measured(i)
      modifies this
      ensures Valid() && info == Some(i)
      ensures action == old(action) && visual == old(visual) && crop == old(crop) && locked == old(locked)
      ensures startPos == old(startPos) && startCrop == old(startCrop) && timerPending == old(timerPending)
    {
      info := Some(i);
    }

    /** The parent passes a new crop: it replaces the shown crop and re-arms the timer. */
    method ReceiveCrop(c: Option<Crop>)
      requires Valid() && (c.Some? ==> NonNegativeSize(c.value))
      modifies this
      ensures Valid() && crop == c && visual == c && timerPending
      ensures action == old(action) && info == old(info) && locked == old(locked)
      ensures startPos == old(startPos) && startCrop == old(startCrop)
    {
      crop := c;
      visual := c;
      timerPending := true;
    }

    /** The parent changes the aspect-lock flag. */
    method ReceiveLock(b: bool)
      requires Valid()
      modifies this
      ensures Valid() && locked == b
      ensures action == old(action) && info == old(info) && visual == old(visual) && crop == old(crop)
      ensures startPos == old(startPos) && startCrop == old(startCrop) && timerPending == old(timerPending)
    {
      locked := b;
    }

    /** `handleInteractionStart`: a press with a non-primary mouse button, with
        no crop shown, or without a position is ignored; otherwise the gesture
        starts from a snapshot of the cursor and the shown crop. */
    method InteractionStart(button: Option<int>, pos: Option<Point>, newAction: Action)
      requires Valid() && newAction != Idle
      modifies this
      ensures Valid()
      ensures var ignored := (button.Some? && button.value != 0) || old(visual).None? || pos.None?;
        && (ignored ==> action == old(action) && startPos == old(startPos) && startCrop == old(startCrop))
        && (!ignored ==> action == newAction && startPos == pos.value && startCrop == old(visual).value)
      ensures info == old(info) && visual == old(visual) && crop == old(crop) && locked == old(locked)
      ensures timerPending == old(timerPending)
    {
      if button.Some? && button.value != 0 {
        return;
      }
      if visual.None? {
        return;
      }
      if pos.None? {
        return;
      }
      action := newAction;
      startPos := pos.value;
      startCrop := visual.value;
    }

    /** `updateVisualCrop`: constrain the crop to the image and show it. */
    method UpdateVisualCrop(newCrop: Crop)
      requires Valid()
      modifies this
      ensures Valid()
      ensures old(info).None? ==> visual == old(visual) && timerPending == old(timerPending)
      ensures old(info).Some? ==>
        visual == Some(Clamped(newCrop, old(info).value.naturalWidth, old(info).value.naturalHeight)) && timerPending
      ensures action == old(action) && info == old(info) && crop == old(crop) && locked == old(locked)
      ensures startPos == old(startPos) && startCrop == old(startCrop)
    {
      if info.None? {
        return;
      }
      var nw, nh := info.value.naturalWidth, info.value.naturalHeight;
      var x, y, width, height := newCrop.x, newCrop.y, newCrop.width, newCrop.height;
      x := MaxReal(0.0, x);
      y := MaxReal(0.0, y);
      if x + width > nw {
        width := nw - x;
      }
      if y + height > nh {
        height := nh - y;
      }
      visual := Some(Crop(x, y, MaxReal(0.0, width), MaxReal(0.0, height)));
      timerPending := true;
    }

    /** `handleMove`: ignored while idle, before the image is measured, or
        without a position; otherwise the cursor's displacement since the
        gesture started is scaled to natural pixels and the gesture's crop,
        computed from the start snapshot alone, is clamped and shown. */
    method Move(pos: Option<Point>)
      requires Valid()
      modifies this
      ensures Valid()
      ensures old(action) == Idle || old(info).None? || pos.None? ==>
        visual == old(visual) && timerPending == old(timerPending)
      ensures old(action) != Idle && old(info).Some? && pos.Some? ==>
        var i := old(info).value;
        var g := Gesture(old(action), old(startCrop),
                         NaturalDelta(pos.value.x - old(startPos).x, i.boundsWidth, i.naturalWidth),
                         NaturalDelta(pos.value.y - old(startPos).y, i.boundsHeight, i.naturalHeight), old(locked));
        && (g.None? ==> visual == old(visual) && timerPending == old(timerPending))
        && (g.Some? ==> visual == Some(Clamped(g.value, i.naturalWidth, i.naturalHeight)) && timerPending)
      ensures action == old(action) && info == old(info) && crop == old(crop) && locked == old(locked)
      ensures startPos == old(startPos) && startCrop == old(startCrop)
    {
      if action == Idle || info.None? {
        return;
      }
      if pos.None? {
        return;
      }
      var newCrop := GestureStep(action, startCrop, startPos, pos.value, info.value, locked);
      if newCrop.Some? {
        UpdateVisualCrop(newCrop.value);
      }
    }

    /** `handleUp`: the gesture ends. */
    method Up()
      requires Valid()
      modifies this
      ensures Valid() && action == Idle
      ensures info == old(info) && visual == old(visual) && crop == old(crop) && locked == old(locked)
      ensures startPos == old(startPos) && startCrop == old(startCrop) && timerPending == old(timerPending)
    {
      action := Idle;
    }

    /** The commit timer fires: report `CommitDecision` of the shown crop and
        the parent's crop. A timer that is not armed does nothing. */
    method Fire() returns (emitted: Option<Option<Crop>>)
      requires Valid()
      modifies this
      ensures Valid() && !timerPending
      ensures emitted == (if old(timerPending) then CommitDecision(visual, crop) else None)
      ensures action == old(action) && info == old(info) && visual == old(visual) && crop == old(crop)
      ensures locked == old(locked) && startPos == old(startPos) && startCrop == old(startCrop)
    {
      if !timerPending {
        return None;
      }
      timerPending := false;
      if visual.Some? {
        var v := visual.value;
        var rounded := Crop(Round(v.x) as real, Round(v.y) as real, Round(v.width) as real, Round(v.height) as real);
        if Some(rounded) != crop {
          emitted := Some(Some(rounded));
        } else {
          emitted := None;
        }
      } else if crop != None {
        emitted := Some(None);
      } else {
        emitted := None;
      }
    }

    /** Unmounting clears the timer. */
    method Teardown()
      requires Valid()
      modifies this
      ensures Valid() && !timerPending
      ensures action == old(action) && info == old(info) && visual == old(visual) && crop == old(crop)
      ensures locked == old(locked) && startPos == old(startPos) && startCrop == old(startCrop)
    {
      timerPending := false;
    }
  }

  /** A start crop with two positive sides can always be resized under the
      lock. */
  lemma LockablePositive(d: Direction, s: Crop, dx: real, dy: real)
    requires s.width > 0.0 && s.height > 0.0
    ensures Lockable(d, s, dx, dy)
  {
  }

  /** A move, wherever the cursor goes, leaves the gesture's snapshot (its
      action, start crop, start position, image box and lock) as it was. */
  method MoveKeepsSnapshot(e: CropEditor, pos: Option<Point>)
    requires e.Valid()
    modifies e
    ensures e.Valid()
    ensures e.action == old(e.action) && e.info == old(e.info) && e.locked == old(e.locked)
    ensures e.startPos == old(e.startPos) && e.startCrop == old(e.startCrop) && e.crop == old(e.crop)
  {
    e.Move(pos);
  }

  /** A drag replayed to the same cursor position after any other position
      shows the same crop: each move works from the gesture's snapshot. Only a
      locked drag from a start crop with a zero side is excepted, where a
      position whose locked step is undefined keeps the crop shown before. */
  method ReplayScenario(e: CropEditor, p: Point, q: Point) returns (atFirst: Option<Crop>, atReplay: Option<Crop>)
    requires e.Valid()
    modifies e
    ensures e.Valid() && atReplay == e.visual
    ensures (e.locked && (e.startCrop.width == 0.0 || e.startCrop.height == 0.0)) || atReplay == atFirst
  {
    if e.action == Idle || e.info.None? || (e.locked && (e.startCrop.width == 0.0 || e.startCrop.height == 0.0)) {
      e.Move(Some(p));
      atFirst := e.visual;
      e.Move(Some(q));
      e.Move(Some(p));
      atReplay := e.visual;
    } else {
      atFirst, atReplay := ReplayDefined(e, p, q);
    }
  }

  /** The replay of a gesture whose every step is defined: a move, or a resize
      that is unlocked or starts from a crop with two positive sides. */
  method ReplayDefined(e: CropEditor, p: Point, q: Point) returns (atFirst: Option<Crop>, atReplay: Option<Crop>)
    requires e.Valid() && e.action != Idle && e.info.Some?
    requires e.locked ==> e.startCrop.width > 0.0 && e.startCrop.height > 0.0
    modifies e
    ensures e.Valid() && atReplay == e.visual && atReplay == atFirst
    ensures e.locked == old(e.locked) && e.startCrop == old(e.startCrop)
  {
    ghost var i, a, s, start, locked := e.info.value, e.action, e.startCrop, e.startPos, e.locked;
    ghost var dx := NaturalDelta(p.x - start.x, i.boundsWidth, i.naturalWidth);
    ghost var dy := NaturalDelta(p.y - start.y, i.boundsHeight, i.naturalHeight);
    if locked && a.Resizing? {
      LockablePositive(a.direction, s, dx, dy);
    }
    ghost var g := Gesture(a, s, dx, dy, locked);
    assert g.Some?;
    e.Move(Some(p));
    atFirst := e.visual;
    assert atFirst == Some(Clamped(g.value, i.naturalWidth, i.naturalHeight));
    MoveKeepsSnapshot(e, Some(q));
    assert e.action == a && e.info == Some(i) && e.startCrop == s && e.startPos == start && e.locked == locked;
    e.Move(Some(p));
    atReplay := e.visual;
  }
}
