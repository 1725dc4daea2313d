/** The move-only square cropper used for QR-code logos
    (components/qr/ImageCropperOverlay.tsx): a square of the image's shorter
    side starts centred, is dragged within the image and is cut out at its own
    size. The natural size of the image and its displayed size are inputs. */
module LogoCropper {
  import opened Util
  import opened Types
  import App
  import ImageEditor

  /** `initSquareCrop`: the largest square, centred. */
  function CentredSquare(naturalWidth: real, naturalHeight: real): (c: Crop)
    requires naturalWidth > 0.0 && naturalHeight > 0.0
    ensures c.width == c.height == MinReal(naturalWidth, naturalHeight)
    ensures 2.0 * c.x + c.width == naturalWidth && 2.0 * c.y + c.height == naturalHeight
  {
    var size := MinReal(naturalWidth, naturalHeight);
    Crop((naturalWidth - size) / 2.0, (naturalHeight - size) / 2.0, size, size)
  }

  /** The logo cropper's square is the same rectangle as the icon generator's
      centre-square crop, which compares aspect ratios instead of taking a
      minimum. */
  lemma CentredSquareIsSquareCrop(naturalWidth: real, naturalHeight: real)
    requires naturalWidth > 0.0 && naturalHeight > 0.0
    ensures CentredSquare(naturalWidth, naturalHeight) == App.SquareCrop(naturalWidth, naturalHeight)
  {
    var c, d := CentredSquare(naturalWidth, naturalHeight), App.SquareCrop(naturalWidth, naturalHeight);
    assert c.width == d.width && c.height == d.height;
    assert 2.0 * c.x == 2.0 * d.x && 2.0 * c.y == 2.0 * d.y;
  }

  /** `Math.max(0, Math.min(v, hi))`. */
  function Clamp(v: real, hi: real): (r: real)
    ensures hi >= 0.0 ==> 0.0 <= r <= hi
    ensures 0.0 <= v <= hi ==> r == v
    ensures hi < 0.0 ==> r == 0.0
  {
    MaxReal(0.0, MinReal(v, hi))
  }

  /** A cursor distance on the screen in natural-image pixels. */
  function NaturalOffset(pos: real, start: real, natural: real, displayed: real): real
    requires displayed > 0.0
  {
    (pos - start) * (natural / displayed)
  }

  /** The square while a drag is at `pos`: the drag-start square moved by the
      cursor's offset from the drag-start point, clamped into the image. */
  function Dragged(start: Crop, startPos: ImageEditor.Point, pos: ImageEditor.Point,
                   naturalWidth: real, naturalHeight: real, displayedWidth: real, displayedHeight: real): (c: Crop)
    requires displayedWidth > 0.0 && displayedHeight > 0.0
    ensures c.width == start.width && c.height == start.height
  {
    var newX := start.x + NaturalOffset(pos.x, startPos.x, naturalWidth, displayedWidth);
    var newY := start.y + NaturalOffset(pos.y, startPos.y, naturalHeight, displayedHeight);
    Crop(Clamp(newX, naturalWidth - start.width), Clamp(newY, naturalHeight - start.height),
         start.width, start.height)
  }

  /** A square no larger than the image stays inside it, and follows the
      cursor exactly while the unclamped position is inside. */
  lemma DraggedInside(start: Crop, startPos: ImageEditor.Point, pos: ImageEditor.Point,
                      naturalWidth: real, naturalHeight: real, displayedWidth: real, displayedHeight: real)
    requires displayedWidth > 0.0 && displayedHeight > 0.0
    requires start.width <= naturalWidth && start.height <= naturalHeight
    ensures var c := Dragged(start, startPos, pos, naturalWidth, naturalHeight, displayedWidth, displayedHeight);
      var x := start.x + NaturalOffset(pos.x, startPos.x, naturalWidth, displayedWidth);
      var y := start.y + NaturalOffset(pos.y, startPos.y, naturalHeight, displayedHeight);
      && 0.0 <= c.x && c.x + c.width <= naturalWidth
      && 0.0 <= c.y && c.y + c.height <= naturalHeight
      && (0.0 <= x <= naturalWidth - start.width ==> c.x == x)
      && (0.0 <= y <= naturalHeight - start.height ==> c.y == y)
  {
  }

  /** Returning the cursor to the drag-start point restores the drag-start
      square, wherever the cursor went in between. */
  lemma DraggedBackToStart(start: Crop, startPos: ImageEditor.Point,
                           naturalWidth: real, naturalHeight: real, displayedWidth: real, displayedHeight: real)
    requires displayedWidth > 0.0 && displayedHeight > 0.0
    requires 0.0 <= start.x <= naturalWidth - start.width && 0.0 <= start.y <= naturalHeight - start.height
    ensures Dragged(start, startPos, startPos, naturalWidth, naturalHeight, displayedWidth, displayedHeight) == start
  {
  }

  /** What `handleApply` hands back: nothing for want of a canvas context, or
      `onCropComplete` with no image (no square yet) or with the cut-out. */
  datatype ApplyResult = NoContext | Completed(image: Option<LogoImage>)

  /** The cut-out: a canvas of the square's size showing the square. */
  datatype LogoImage = LogoImage(width: real, height: real, source: Crop)

  class Cropper {
    const naturalWidth: real
    const naturalHeight: real
    var crop: Option<Crop>
    var isDragging: bool
    var dragStartPos: ImageEditor.Point
    var dragStartCrop: Option<Crop>

    /** A square of the shorter side that lies inside the image. */
    predicate Placed(c: Crop)
      reads this
    {
      && c.width == c.height == MinReal(naturalWidth, naturalHeight)
      && 0.0 <= c.x <= naturalWidth - c.width && 0.0 <= c.y <= naturalHeight - c.height
    }

    ghost predicate Valid()
      reads this
    {
      && naturalWidth > 0.0 && naturalHeight > 0.0
      && (crop.Some? ==> Placed(crop.value))
      && (dragStartCrop.Some? ==> Placed(dragStartCrop.value))
    }

    /** The overlay opens on an image of the given natural size, with no square
        until the image has loaded. */
    constructor(width: real, height: real)
      requires width > 0.0 && height > 0.0
      ensures Valid() && naturalWidth == width && naturalHeight == height
      ensures crop.None? && !isDragging && dragStartCrop.None?
    {
      naturalWidth, naturalHeight := width, height;
      crop := None;
      isDragging := false;
      dragStartPos := ImageEditor.Point(0.0, 0.0);
      dragStartCrop := None;
    }

    /** The image loaded: `initSquareCrop`. */
    method InitSquareCrop()
      requires Valid()
      modifies this
      ensures Valid() && crop == Some(CentredSquare(naturalWidth, naturalHeight))
      ensures isDragging == old(isDragging) && dragStartPos == old(dragStartPos)
      ensures dragStartCrop == old(dragStartCrop)
    {
      var size := MinReal(naturalWidth, naturalHeight);
      var x := (naturalWidth - size) / 2.0;
      var y := (naturalHeight - size) / 2.0;
      crop := Some(Crop(x, y, size, size));
    }

    /** `handleInteractionStart`: with a square and a cursor position, start
        dragging from there and snapshot the square. */
    method Start(pos: Option<ImageEditor.Point>)
      requires Valid()
      modifies this
      ensures Valid() && crop == old(crop)
      ensures old(crop).Some? && pos.Some? ==>
        isDragging && dragStartPos == pos.value && dragStartCrop == old(crop)
      ensures old(crop).None? || pos.None? ==>
        isDragging == old(isDragging) && dragStartPos == old(dragStartPos) && dragStartCrop == old(dragStartCrop)
    {
      if crop.None? {
        return;
      }
      if pos.None? {
        return;
      }
      isDragging := true;
      dragStartPos := pos.value;
      dragStartCrop := crop;
    }

    /** `handleMove`: while dragging, the square becomes the drag-start square
        moved by the cursor's offset and clamped (`Dragged`); it keeps its
        size, and it stays inside the image. */
    method Move(pos: Option<ImageEditor.Point>, displayedWidth: real, displayedHeight: real)
      requires Valid() && displayedWidth > 0.0 && displayedHeight > 0.0
      modifies this
      ensures Valid()
      ensures isDragging == old(isDragging) && dragStartPos == old(dragStartPos)
      ensures dragStartCrop == old(dragStartCrop)
      ensures old(isDragging) && dragStartCrop.Some? && pos.Some? && old(crop).Some? ==>
        crop == Some(Dragged(dragStartCrop.value, dragStartPos, pos.value,
                             naturalWidth, naturalHeight, displayedWidth, displayedHeight))
      ensures !(old(isDragging) && dragStartCrop.Some? && pos.Some?) || old(crop).None? ==> crop == old(crop)
      ensures crop.Some? <==> old(crop).Some?
    {
      if !isDragging || dragStartCrop.None? {
        return;
      }
      if pos.None? {
        return;
      }
      var p := pos.value;
      var start := dragStartCrop.value;
      var scaleX := naturalWidth / displayedWidth;
      var scaleY := naturalHeight / displayedHeight;
      var dx := (p.x - dragStartPos.x) * scaleX;
      var dy := (p.y - dragStartPos.y) * scaleY;
      var newX := start.x + dx;
      var newY := start.y + dy;
      newX := MaxReal(0.0, MinReal(newX, naturalWidth - start.width));
      newY := MaxReal(0.0, MinReal(newY, naturalHeight - start.height));
      if crop.Some? {
        assert Crop(newX, newY, start.width, start.height)
            == Dragged(start, dragStartPos, p, naturalWidth, naturalHeight, displayedWidth, displayedHeight);
        DraggedInside(start, dragStartPos, p, naturalWidth, naturalHeight, displayedWidth, displayedHeight);
        crop := Some(crop.value.(x := newX, y := newY));
      }
    }

    /** `handleUp`. */
    method Up()
      requires Valid()
      modifies this
      ensures Valid() && !isDragging && crop == old(crop)
      ensures dragStartPos == old(dragStartPos) && dragStartCrop == old(dragStartCrop)
    {
      isDragging := false;
    }

    /** `handleApply`: no square reports no image; otherwise the cut-out is
        exactly the square's size and inside the image. */
    method Apply(hasContext: bool) returns (r: ApplyResult)
      requires Valid()
      ensures crop.None? ==> r == Completed(None)
      ensures crop.Some? && !hasContext ==> r == NoContext
      ensures crop.Some? && hasContext ==>
        && r == Completed(Some(LogoImage(crop.value.width, crop.value.height, crop.value)))
        && 0.0 <= r.image.value.source.x && r.image.value.source.x + r.image.value.width <= naturalWidth
        && 0.0 <= r.image.value.source.y && r.image.value.source.y + r.image.value.height <= naturalHeight
    {
      if crop.None? {
        return Completed(None);
      }
      var c := crop.value;
      if !hasContext {
        return NoContext;
      }
      r := Completed(Some(LogoImage(c.width, c.height, c)));
    }
  }
}
