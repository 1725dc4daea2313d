/** The converter's crop editor (components/ConverterEditor.tsx): the image
    sits behind a fixed frame; it is fitted to cover the frame, panned and
    zoomed with the cursor and kept over the frame, and the part under the
    frame is exported at the size typed into two fields that can be tied to an
    aspect ratio. The canvas library's image object is modelled by its centre,
    its scale and its intrinsic size; the frame, measured on the page, is given
    relative to the canvas. */
module ConverterEditor {
  import opened Util
  import opened Types
  import opened Compositor
  import ImageEditor

  /** The aspect-ratio buttons. */
  datatype RatioMode = Square | Portrait | Free

  /** The frame's rectangle on the canvas. */
  datatype Frame = Frame(left: real, top: real, width: real, height: real)

  predicate ValidFrame(f: Frame)
  {
    f.width > 0.0 && f.height > 0.0
  }

  /** `getAspectRatio`: 1 for '1:1', 4/5 for '4:5', and for 'free' the ratio of
      the two fields when both parse to positive integers. */
  function AspectRatio(mode: RatioMode, outputWidth: string, outputHeight: string): (r: Option<real>)
    ensures mode == Square ==> r == Some(1.0)
    ensures mode == Portrait ==> r == Some(0.8)
    ensures r.Some? ==> r.value > 0.0
  {
    match mode
    case Square => Some(1.0)
    case Portrait => Some(4.0 / 5.0)
    case Free =>
      match ParseOutputSize(outputWidth, outputHeight)
      case Some(size) => Some(Quotient(size.width as real, size.height as real))
      case None => None
  }

  /** `a / b` for positive operands. */
  function Quotient(a: real, b: real): (q: real)
    requires a > 0.0 && b > 0.0
    ensures q > 0.0
  {
    a / b
  }

  /** A length on the canvas measured in image pixels at a zoom. */
  function Unscale(a: real, zoom: real): (r: real)
    requires zoom > 0.0
    ensures a > 0.0 ==> r > 0.0
  {
    a / zoom
  }

  lemma UnscaleTimes(a: real, zoom: real)
    requires zoom > 0.0
    ensures Unscale(a, zoom) * zoom == a
  {
  }

  /** In 'free' mode the ratio exists exactly when both fields hold positive
      integers, and it is their quotient. */
  lemma FreeAspectRatio(outputWidth: string, outputHeight: string)
    ensures var r := AspectRatio(Free, outputWidth, outputHeight);
      var w, h := ParseInt(outputWidth), ParseInt(outputHeight);
      && (r.Some? <==> w.Some? && h.Some? && w.value > 0 && h.value > 0)
      && (r.Some? ==> r.value == w.value as real / h.value as real)
  {
  }

  /** The ratio a button fixes: none for 'free', else the fixed mode's ratio. */
  function ButtonRatio(mode: RatioMode): (r: Option<real>)
    ensures r.Some? <==> mode != Free
    ensures mode != Free ==> r == AspectRatio(mode, "", "")
  {
    match mode
    case Square => Some(1.0)
    case Portrait => Some(4.0 / 5.0)
    case Free => None
  }

  /** `-m/2 < d * m <= m/2` when `-1/2 < d <= 1/2` and m is positive. */
  lemma ScaleHalf(d: real, m: real)
    requires m > 0.0 && -0.5 < d <= 0.5
    ensures AbsReal(d * m) <= m / 2.0
  {
    assert d * m <= 0.5 * m;
    assert d * m > -0.5 * m;
  }

  /** The height that goes with a width at a ratio, rounded: within half a
      pixel of the exact `width / ratio`. */
  function PartnerHeight(width: int, ratio: real): int
    requires ratio > 0.0
  {
    Round(width as real / ratio)
  }

  /** The partner height times the ratio is the width to within half a ratio. */
  lemma PartnerHeightClose(width: int, ratio: real)
    requires ratio > 0.0
    ensures AbsReal(PartnerHeight(width, ratio) as real * ratio - width as real) <= ratio / 2.0
  {
    var q := width as real / ratio;
    var h := PartnerHeight(width, ratio);
    assert q * ratio == width as real;
    ScaleHalf(h as real - q, ratio);
    assert (h as real - q) * ratio == h as real * ratio - width as real;
  }

  /** The width that goes with a height, rounded: within half a pixel of
      `height * ratio`. */
  function PartnerWidth(height: int, ratio: real): (w: int)
    requires ratio > 0.0
  {
    Round(height as real * ratio)
  }

  lemma PartnerWidthClose(height: int, ratio: real)
    requires ratio > 0.0
    ensures AbsReal(PartnerWidth(height, ratio) as real - height as real * ratio) <= 0.5
  {
  }

  /** The height field after `handleSetAspectRatioMode` chose `mode`. */
  function HeightForMode(mode: RatioMode, outputWidth: string, outputHeight: string): string
  {
    var ratio := ButtonRatio(mode);
    var currentW := ParseInt(outputWidth);
    if ratio.Some? && currentW.Some? && currentW.value > 0 then
      IntToString(PartnerHeight(currentW.value, ratio.value))
    else outputHeight
  }

  /** A fixed ratio recomputes the height from a width that parses to a
      positive integer, and the new height then parses back to the partner of
      that width; otherwise the height is kept. */
  lemma HeightForModeSpec(mode: RatioMode, outputWidth: string, outputHeight: string)
    ensures var w := ParseInt(outputWidth);
      var h := HeightForMode(mode, outputWidth, outputHeight);
      && (mode != Free && w.Some? && w.value > 0 ==>
            ParseInt(h) == Some(PartnerHeight(w.value, ButtonRatio(mode).value)))
      && (mode == Free || w.None? || w.value <= 0 ==> h == outputHeight)
  {
    var w := ParseInt(outputWidth);
    if mode != Free && w.Some? && w.value > 0 {
      var k := PartnerHeight(w.value, ButtonRatio(mode).value);
      assert HeightForMode(mode, outputWidth, outputHeight) == IntToString(k);
      ParseIntToString(k);
    }
  }

  /** The partner field after the other one was typed: with a ratio, the
      positive value's partner, or empty for an empty value; otherwise kept.
      `widthTyped` tells `handleWidthChange` (the height follows the width)
      from `handleHeightChange`. */
  function PartnerAfterEdit(ratio: Option<real>, value: string, partner: string, widthTyped: bool): string
    requires ratio.Some? ==> ratio.value > 0.0
  {
    if ratio.None? then partner
    else
      var n := ParseInt(value);
      if n.Some? && n.value > 0 then
        IntToString(if widthTyped then PartnerHeight(n.value, ratio.value)
                    else PartnerWidth(n.value, ratio.value))
      else if value == "" then ""
      else partner
  }

  /** The cases of an edit: a positive value sets the partner to its rounded
      counterpart (which parses back), an empty value clears it, anything else
      and a missing ratio leave it. */
  lemma PartnerAfterEditSpec(ratio: Option<real>, value: string, partner: string, widthTyped: bool)
    requires ratio.Some? ==> ratio.value > 0.0
    ensures var n := ParseInt(value);
      var p := PartnerAfterEdit(ratio, value, partner, widthTyped);
      && (ratio.Some? && n.Some? && n.value > 0 ==>
            ParseInt(p) == Some(if widthTyped then PartnerHeight(n.value, ratio.value)
                                else PartnerWidth(n.value, ratio.value)))
      && (ratio.Some? && !(n.Some? && n.value > 0) && value == "" ==> p == "")
      && (ratio.None? || (!(n.Some? && n.value > 0) && value != "") ==> p == partner)
  {
    var n := ParseInt(value);
    if ratio.Some? && n.Some? && n.value > 0 {
      var k := if widthTyped then PartnerHeight(n.value, ratio.value) else PartnerWidth(n.value, ratio.value);
      assert PartnerAfterEdit(ratio, value, partner, widthTyped) == IntToString(k);
      ParseIntToString(k);
    }
  }

  /** The partner field of an edit, with the ratio read from the fields
      before the change. */
  method EditedPartner(mode: RatioMode, outputWidth: string, outputHeight: string, value: string,
                       partner: string, widthTyped: bool) returns (p: string)
    ensures p == PartnerAfterEdit(AspectRatio(mode, outputWidth, outputHeight), value, partner, widthTyped)
  {
    var ratio := AspectRatio(mode, outputWidth, outputHeight);
    p := PartnerAfterEdit(ratio, value, partner, widthTyped);
  }

  // ---------------------------------------------------------------- position helpers

  /** One axis of `constrainImageBounds`, on the bounds read before any
      change: an image edge that moved inside the frame is pushed back to the
      frame's edge, the far edge winning when both did. `centre` and `size` are
      the image's centre and scaled size on that axis. */
  function ConstrainAxis(centre: real, size: real, frameStart: real, frameSize: real): real
  {
    var start := centre - size / 2.0;
    var c1 := if start > frameStart then frameStart + size / 2.0 else centre;
    if start + size < frameStart + frameSize then frameStart + frameSize - size / 2.0 else c1
  }

  /** An image at least as large as the frame on an axis ends up covering the
      frame on that axis. */
  lemma ConstrainAxisCovers(centre: real, size: real, frameStart: real, frameSize: real)
    requires size >= frameSize
    ensures var c := ConstrainAxis(centre, size, frameStart, frameSize);
      c - size / 2.0 <= frameStart && c + size / 2.0 >= frameStart + frameSize
  {
  }

  /** An image that already covers the frame on an axis is not moved on it. */
  lemma ConstrainAxisKeepsCovering(centre: real, size: real, frameStart: real, frameSize: real)
    requires centre - size / 2.0 <= frameStart && centre + size / 2.0 >= frameStart + frameSize
    ensures ConstrainAxis(centre, size, frameStart, frameSize) == centre
  {
  }

  /** An intrinsic length at a scale. */
  function Extent(size: real, zoom: real): real
  {
    size * zoom
  }

  /** The image (centre, scaled width and height) covers the frame. */
  predicate CoversFrame(left: real, top: real, w: real, h: real, f: Frame)
  {
    && left - w / 2.0 <= f.left && left + w / 2.0 >= f.left + f.width
    && top - h / 2.0 <= f.top && top + h / 2.0 >= f.top + f.height
  }

  /** The guard of `constrainImageBounds` as written: the scaled image is
      strictly larger than the frame on some axis. */
  predicate ExceedsAsWritten(w: real, h: real, f: Frame)
  {
    w > f.width || h > f.height
  }

  /** The guard as evidently intended: at least as large on some axis, so an
      image exactly the frame's size is held in place too. */
  predicate Exceeds(w: real, h: real, f: Frame)
  {
    w >= f.width || h >= f.height
  }

  /** One axis of a pan step: move by `d`, then constrain when `guard` holds. */
  function PanAxis(centre: real, d: real, size: real, frameStart: real, frameSize: real, guard: bool): real
  {
    if guard then ConstrainAxis(centre + d, size, frameStart, frameSize) else centre + d
  }

  /** As written, an image fitted exactly to the frame (a square image in the
      '1:1' frame) is not held: a 10-pixel pan uncovers a strip of the frame,
      which the export then fills with the background. */
  lemma PanUncoversAsWritten()
    ensures var f := Frame(0.0, 0.0, 400.0, 400.0);
      && CoversFrame(200.0, 200.0, 400.0, 400.0, f)
      && !ExceedsAsWritten(400.0, 400.0, f)
      && var x := PanAxis(200.0, 10.0, 400.0, 0.0, 400.0, ExceedsAsWritten(400.0, 400.0, f));
         !CoversFrame(x, 200.0, 400.0, 400.0, f)
  {
  }

  /** With the intended guard, an image at least as large as the frame on both
      axes covers it after every pan step, however far the cursor moves. */
  lemma PanKeepsCovering(left: real, top: real, dx: real, dy: real, w: real, h: real, f: Frame)
    requires w >= f.width && h >= f.height
    ensures Exceeds(w, h, f)
    ensures CoversFrame(PanAxis(left, dx, w, f.left, f.width, Exceeds(w, h, f)),
                        PanAxis(top, dy, h, f.top, f.height, Exceeds(w, h, f)), w, h, f)
  {
    ConstrainAxisCovers(left + dx, w, f.left, f.width);
    ConstrainAxisCovers(top + dy, h, f.top, f.height);
  }

  /** `fitImageToFrame`'s scale: fit to the frame's height when the image is
      relatively wider than the frame, else to its width. */
  lemma FitCovers(imageWidth: real, imageHeight: real, frameWidth: real, frameHeight: real, scale: real)
    requires imageWidth > 0.0 && imageHeight > 0.0 && frameWidth > 0.0 && frameHeight > 0.0
    requires imageWidth / imageHeight > frameWidth / frameHeight ==> scale == frameHeight / imageHeight
    requires imageWidth / imageHeight <= frameWidth / frameHeight ==> scale == frameWidth / imageWidth
    ensures scale > 0.0
    ensures imageWidth * scale >= frameWidth && imageHeight * scale >= frameHeight
    ensures imageWidth * scale == frameWidth || imageHeight * scale == frameHeight
  {
    RatioCompare(imageWidth, imageHeight, frameWidth, frameHeight);
    if imageWidth / imageHeight > frameWidth / frameHeight {
      assert scale * imageHeight == frameHeight;
      assert imageWidth * scale * imageHeight > frameWidth * imageHeight;
    } else {
      assert scale * imageWidth == frameWidth;
      assert imageHeight * scale * imageWidth >= frameHeight * imageWidth;
    }
  }

  /** The image's left (or top) edge on the canvas, from its centre, its
      intrinsic extent and its scale. */
  function Corner(centre: real, extent: real, zoom: real): real
  {
    centre - extent * zoom / 2.0
  }

  /** The source rectangle of an export: the frame mapped back into image
      pixels through the image's top-left corner and scale. */
  function SourceRect(f: Frame, imageLeft: real, imageTop: real, zoom: real): (c: Crop)
    requires ValidFrame(f) && zoom > 0.0
    ensures c.width > 0.0 && c.height > 0.0
  {
    Crop(Unscale(f.left - imageLeft, zoom), Unscale(f.top - imageTop, zoom),
         Unscale(f.width, zoom), Unscale(f.height, zoom))
  }

  /** Scaled back to the canvas, the source rectangle is the frame. */
  lemma SourceRectIsFrame(f: Frame, imageLeft: real, imageTop: real, zoom: real, c: Crop)
    requires ValidFrame(f) && zoom > 0.0 && c == SourceRect(f, imageLeft, imageTop, zoom)
    ensures imageLeft + c.x * zoom == f.left && imageTop + c.y * zoom == f.top
    ensures c.width * zoom == f.width && c.height * zoom == f.height
  {
    UnscaleTimes(f.left - imageLeft, zoom);
    UnscaleTimes(f.top - imageTop, zoom);
    UnscaleTimes(f.width, zoom);
    UnscaleTimes(f.height, zoom);
  }

  // ---------------------------------------------------------------- the editor

  class Editor {
    const initialMode: Option<RatioMode>
    var mode: RatioMode
    var outputWidth: string
    var outputHeight: string
    var loaded: bool
    var imageWidth: real
    var imageHeight: real
    var left: real
    var top: real
    var scale: real
    var isPanning: bool
    var lastPan: ImageEditor.Point

    ghost predicate Valid()
      reads this
    {
      scale > 0.0 && (loaded ==> imageWidth > 0.0 && imageHeight > 0.0)
    }

    /** The image's placement and the cursor state are as before. */
    twostate predicate ViewKept()
      reads this
    {
      && loaded == old(loaded) && imageWidth == old(imageWidth) && imageHeight == old(imageHeight)
      && left == old(left) && top == old(top) && scale == old(scale)
      && isPanning == old(isPanning) && lastPan == old(lastPan)
    }

    /** The three size controls are as before. */
    twostate predicate FieldsKept()
      reads this
    {
      mode == old(mode) && outputWidth == old(outputWidth) && outputHeight == old(outputHeight)
    }

    /** Mounting: the mode starts as the requested one, or 'free'. */
    constructor(initialAspectRatio: Option<RatioMode>)
      ensures Valid() && initialMode == initialAspectRatio && !loaded && !isPanning
      ensures mode == (if initialAspectRatio.Some? then initialAspectRatio.value else Free)
      ensures outputWidth == "" && outputHeight == ""
    {
      initialMode := initialAspectRatio;
      mode := if initialAspectRatio.Some? then initialAspectRatio.value else Free;
      outputWidth := "";
      outputHeight := "";
      loaded := false;
      imageWidth, imageHeight := 1.0, 1.0;
      left, top, scale := 0.0, 0.0, 1.0;
      isPanning := false;
      lastPan := ImageEditor.Point(0.0, 0.0);
    }

    /** `fitImageToFrame`: scale the loaded image so that it covers the frame,
        touching it on one axis, and centre it on the canvas. */
    method FitImageToFrame(canvasWidth: real, canvasHeight: real, f: Frame)
      requires Valid() && ValidFrame(f)
      modifies this
      ensures Valid() && FieldsKept()
      ensures !old(loaded) ==> ViewKept()
      ensures old(loaded) ==>
        && Extent(imageWidth, scale) >= f.width && Extent(imageHeight, scale) >= f.height
        && (Extent(imageWidth, scale) == f.width || Extent(imageHeight, scale) == f.height)
        && left == canvasWidth / 2.0 && top == canvasHeight / 2.0
      ensures loaded == old(loaded) && imageWidth == old(imageWidth) && imageHeight == old(imageHeight)
      ensures isPanning == old(isPanning) && lastPan == old(lastPan)
    {
      if !loaded {
        return;
      }
      var imgAspect := imageWidth / imageHeight;
      var frameAspect := f.width / f.height;
      var s;
      if imgAspect > frameAspect {
        s := f.height / imageHeight;
      } else {
        s := f.width / imageWidth;
      }
      FitCovers(imageWidth, imageHeight, f.width, f.height, s);
      scale := s;
      left := canvasWidth / 2.0;
      top := canvasHeight / 2.0;
    }

    /** The image finished loading: record its size, fill the fields when no
        ratio was requested (the image's size) or '1:1' was (the shorter side
        twice), then fit. */
    method Load(width: nat, height: nat, canvasWidth: real, canvasHeight: real, f: Frame)
      requires Valid() && width > 0 && height > 0 && ValidFrame(f)
      modifies this
      ensures Valid() && loaded && imageWidth == width as real && imageHeight == height as real
      ensures var side := if width <= height then width else height;
        && (initialMode.None? ==> outputWidth == IntToString(width) && outputHeight == IntToString(height))
        && (initialMode == Some(Square) ==> outputWidth == IntToString(side) && outputHeight == IntToString(side))
        && (initialMode == Some(Portrait) ==> outputWidth == old(outputWidth) && outputHeight == old(outputHeight))
      ensures Extent(imageWidth, scale) >= f.width && Extent(imageHeight, scale) >= f.height
      ensures left == canvasWidth / 2.0 && top == canvasHeight / 2.0
      ensures mode == old(mode) && isPanning == old(isPanning) && lastPan == old(lastPan)
    {
      loaded := true;
      imageWidth, imageHeight := width as real, height as real;
      if initialMode.None? {
        outputWidth := IntToString(width);
        outputHeight := IntToString(height);
      } else if initialMode.value == Square {
        var size := if width <= height then width else height;
        outputWidth := IntToString(size);
        outputHeight := IntToString(size);
      }
      FitImageToFrame(canvasWidth, canvasHeight, f);
    }

    /** `constrainImageBounds`: only when the scaled image is strictly larger
        than the frame on some axis (`ExceedsAsWritten`, the program's guard),
        each axis as `ConstrainAxis` says. */
    method ConstrainImageBounds(f: Frame)
      requires Valid() && ValidFrame(f)
      modifies this
      ensures Valid() && FieldsKept()
      ensures var w, h := Extent(imageWidth, scale), Extent(imageHeight, scale);
        && left == PanAxis(old(left), 0.0, w, f.left, f.width, ExceedsAsWritten(w, h, f))
        && top == PanAxis(old(top), 0.0, h, f.top, f.height, ExceedsAsWritten(w, h, f))
      ensures loaded == old(loaded) && imageWidth == old(imageWidth) && imageHeight == old(imageHeight)
      ensures scale == old(scale) && isPanning == old(isPanning) && lastPan == old(lastPan)
    {
      var scaledWidth := Extent(imageWidth, scale);
      var scaledHeight := Extent(imageHeight, scale);
      if scaledWidth > f.width || scaledHeight > f.height {
        var l, t := ConstrainSteps(left, top, scaledWidth, scaledHeight, f);
        left, top := l, t;
      }
    }

    /** `mouse:down`: a press on the image starts panning from that point. */
    method MouseDown(onImage: bool, p: ImageEditor.Point)
      requires Valid()
      modifies this
      ensures Valid() && FieldsKept()
      ensures onImage ==> isPanning && lastPan == p
      ensures !onImage ==> isPanning == old(isPanning) && lastPan == old(lastPan)
      ensures loaded == old(loaded) && imageWidth == old(imageWidth) && imageHeight == old(imageHeight)
      ensures left == old(left) && top == old(top) && scale == old(scale)
    {
      if onImage {
        isPanning := true;
        lastPan := p;
      }
    }

    /** `mouse:move`: while panning, move the image by the cursor's step,
        constrain it and remember the point. An image at least the frame's
        size on both axes and larger on one stays over the whole frame; one
        exactly the frame's size is not held (`PanUncoversAsWritten`). */
    method MouseMove(p: ImageEditor.Point, f: Frame)
      requires Valid() && ValidFrame(f)
      modifies this
      ensures Valid() && FieldsKept()
      ensures !old(isPanning) ==> ViewKept()
      ensures old(isPanning) ==>
        var w, h := Extent(imageWidth, scale), Extent(imageHeight, scale);
        && left == PanAxis(old(left), p.x - old(lastPan).x, w, f.left, f.width, ExceedsAsWritten(w, h, f))
        && top == PanAxis(old(top), p.y - old(lastPan).y, h, f.top, f.height, ExceedsAsWritten(w, h, f))
        && lastPan == p
      ensures old(isPanning) && Extent(imageWidth, scale) >= f.width && Extent(imageHeight, scale) >= f.height
              && ExceedsAsWritten(Extent(imageWidth, scale), Extent(imageHeight, scale), f) ==>
        CoversFrame(left, top, Extent(imageWidth, scale), Extent(imageHeight, scale), f)
      ensures loaded == old(loaded) && imageWidth == old(imageWidth) && imageHeight == old(imageHeight)
      ensures scale == old(scale) && isPanning == old(isPanning)
    {
      if !isPanning {
        return;
      }
      ghost var l0, t0, d0 := left, top, lastPan;
      left := left + (p.x - lastPan.x);
      top := top + (p.y - lastPan.y);
      ConstrainImageBounds(f);
      lastPan := p;
      var w, h := Extent(imageWidth, scale), Extent(imageHeight, scale);
      if w >= f.width && h >= f.height && ExceedsAsWritten(w, h, f) {
        ConstrainAxisCovers(l0 + (p.x - d0.x), w, f.left, f.width);
        ConstrainAxisCovers(t0 + (p.y - d0.y), h, f.top, f.height);
      }
    }

    /** `mouse:up`. */
    method MouseUp()
      requires Valid()
      modifies this
      ensures Valid() && FieldsKept() && !isPanning
      ensures loaded == old(loaded) && imageWidth == old(imageWidth) && imageHeight == old(imageHeight)
      ensures left == old(left) && top == old(top) && scale == old(scale) && lastPan == old(lastPan)
    {
      isPanning := false;
    }

    /** `mouse:wheel`: the scale changes by -deltaY / 1000 unless that would
        take it below 0.01; then the image is constrained. The scale never
        drops below 0.01 by zooming. */
    method Wheel(deltaY: real, f: Frame)
      requires Valid() && ValidFrame(f)
      modifies this
      ensures Valid() && FieldsKept()
      ensures var newScale := old(scale) + -deltaY / 1000.0;
        && (newScale < 0.01 ==> ViewKept())
        && (newScale >= 0.01 ==> scale == newScale)
        && (newScale >= 0.01 ==>
             var w, h := Extent(imageWidth, newScale), Extent(imageHeight, newScale);
             && left == PanAxis(old(left), 0.0, w, f.left, f.width, ExceedsAsWritten(w, h, f))
             && top == PanAxis(old(top), 0.0, h, f.top, f.height, ExceedsAsWritten(w, h, f)))
      ensures scale >= 0.01 || scale == old(scale)
      ensures loaded == old(loaded) && imageWidth == old(imageWidth) && imageHeight == old(imageHeight)
      ensures isPanning == old(isPanning) && lastPan == old(lastPan)
    {
      var zoomAmount := -deltaY / 1000.0;
      var newScale := scale + zoomAmount;
      if newScale < 0.01 {
        return;
      }
      scale := newScale;
      ConstrainImageBounds(f);
    }

    /** `handleSetAspectRatioMode` (see `HeightForModeSpec`), followed by the
        effect that watches the mode: when the mode actually changes, the image
        is fitted again to `f`, the frame as laid out for the new mode on a
        canvas of the given size. */
    method SetAspectRatioMode(m: RatioMode, canvasWidth: real, canvasHeight: real, f: Frame)
      requires Valid() && ValidFrame(f)
      modifies this
      ensures Valid()
      ensures mode == m && outputWidth == old(outputWidth)
      ensures outputHeight == HeightForMode(m, old(outputWidth), old(outputHeight))
      ensures m == old(mode) || !old(loaded) ==> ViewKept()
      ensures m != old(mode) && old(loaded) ==>
        && Extent(imageWidth, scale) >= f.width && Extent(imageHeight, scale) >= f.height
        && (Extent(imageWidth, scale) == f.width || Extent(imageHeight, scale) == f.height)
        && left == canvasWidth / 2.0 && top == canvasHeight / 2.0
      ensures loaded == old(loaded) && imageWidth == old(imageWidth) && imageHeight == old(imageHeight)
      ensures isPanning == old(isPanning) && lastPan == old(lastPan)
    {
      var changed := m != mode;
      mode := m;
      outputHeight := HeightForMode(m, outputWidth, outputHeight);
      if changed {
        FitImageToFrame(canvasWidth, canvasHeight, f);
      }
    }

    /** `handleWidthChange`: the ratio is read from the fields before the
        change (see `PartnerAfterEditSpec`). */
    method WidthChange(value: string)
      requires Valid()
      modifies this
      ensures Valid() && ViewKept()
      ensures mode == old(mode) && outputWidth == value
      ensures outputHeight == PartnerAfterEdit(AspectRatio(old(mode), old(outputWidth), old(outputHeight)),
                                               value, old(outputHeight), true)
    {
      var height := EditedPartner(mode, outputWidth, outputHeight, value, outputHeight, true);
      outputWidth, outputHeight := value, height;
    }

    /** `handleHeightChange`, the mirror image. */
    method HeightChange(value: string)
      requires Valid()
      modifies this
      ensures Valid() && ViewKept()
      ensures mode == old(mode) && outputHeight == value
      ensures outputWidth == PartnerAfterEdit(AspectRatio(old(mode), old(outputWidth), old(outputHeight)),
                                              value, old(outputWidth), false)
    {
      var width := EditedPartner(mode, outputWidth, outputHeight, value, outputWidth, false);
      outputWidth, outputHeight := width, value;
    }

    /** `handleApply`: nothing before the image is loaded; the invalid-size
        alert unless both fields parse to positive integers; otherwise the
        frame mapped back into image pixels is exported at the typed size. */
    method Apply(f: Frame, hasContext: bool) returns (outcome: ApplyOutcome)
      requires Valid() && ValidFrame(f)
      ensures !loaded ==> outcome == Ignored
      ensures loaded ==>
        var size := ParseOutputSize(outputWidth, outputHeight);
        var source := SourceRect(f, Corner(left, imageWidth, scale), Corner(top, imageHeight, scale), scale);
        && (size.None? ==> outcome == InvalidSize)
        && (size.Some? && !hasContext ==> outcome == NoContext)
        && (size.Some? && hasContext ==> outcome == Exported(ExportOf(size.value, source)))
    {
      if !loaded {
        return Ignored;
      }
      var size := ParseOutputSize(outputWidth, outputHeight);
      if size.None? {
        return InvalidSize;
      }
      var zoom := scale;
      var imgLeftOnCanvas := Corner(left, imageWidth, scale);
      var imgTopOnCanvas := Corner(top, imageHeight, scale);
      var source := SourceSteps(f, imgLeftOnCanvas, imgTopOnCanvas, zoom);
      if !hasContext {
        return NoContext;
      }
      var e := ExportSteps(size.value, source);
      outcome := Exported(e);
    }
  }

  /** The four edge checks of `constrainImageBounds`, in order, on the bounds
      read once before them. */
  method ConstrainSteps(left: real, top: real, scaledWidth: real, scaledHeight: real, f: Frame)
    returns (l: real, t: real)
    ensures l == ConstrainAxis(left, scaledWidth, f.left, f.width)
    ensures t == ConstrainAxis(top, scaledHeight, f.top, f.height)
  {
    l, t := left, top;
    var boundsLeft, boundsTop := left - scaledWidth / 2.0, top - scaledHeight / 2.0;
    if boundsLeft > f.left {
      l := f.left + scaledWidth / 2.0;
    }
    if boundsTop > f.top {
      t := f.top + scaledHeight / 2.0;
    }
    if boundsLeft + scaledWidth < f.left + f.width {
      l := f.left + f.width - scaledWidth / 2.0;
    }
    if boundsTop + scaledHeight < f.top + f.height {
      t := f.top + f.height - scaledHeight / 2.0;
    }
  }

  /** `handleApply`'s source rectangle, computed as it writes it. */
  method SourceSteps(f: Frame, imgLeftOnCanvas: real, imgTopOnCanvas: real, zoom: real) returns (c: Crop)
    requires ValidFrame(f) && zoom > 0.0
    ensures c == SourceRect(f, imgLeftOnCanvas, imgTopOnCanvas, zoom)
  {
    var sx := (f.left - imgLeftOnCanvas) / zoom;
    var sy := (f.top - imgTopOnCanvas) / zoom;
    var sWidth := f.width / zoom;
    var sHeight := f.height / zoom;
    c := Crop(sx, sy, sWidth, sHeight);
  }
}
