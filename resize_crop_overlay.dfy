/** The resize-and-crop dialog of the image editor
    (components/EditorResizeAndCropOverlay.tsx): a crop over the whole image,
    two output-size fields that follow the crop, and the export that letterboxes
    the crop into the typed size. */
module ResizeCropOverlay {
  import opened Util
  import opened Types
  import opened Compositor
  import App

  class Overlay {
    const sourceDataUrl: string
    var crop: Option<Crop>
    var outputWidth: string
    var outputHeight: string

    ghost predicate Valid()
      reads this
    {
      crop.Some? ==> NonNegativeSize(crop.value)
    }

    constructor(src: string)
      ensures Valid() && sourceDataUrl == src && crop == None && outputWidth == "" && outputHeight == ""
    {
      sourceDataUrl := src;
      crop := None;
      outputWidth := "";
      outputHeight := "";
    }

    /** The image loaded: the crop is the whole image and the fields show its
        natural size. */
    method Load(naturalWidth: nat, naturalHeight: nat)
      requires Valid()
      modifies this
      ensures Valid()
      ensures crop == Some(App.FullCrop(naturalWidth as real, naturalHeight as real))
      ensures outputWidth == IntToString(naturalWidth) && outputHeight == IntToString(naturalHeight)
      ensures naturalWidth > 0 && naturalHeight > 0 ==>
        ParseOutputSize(outputWidth, outputHeight) == Some(OutputSize(naturalWidth, naturalHeight))
    {
      var w, h := IntToString(naturalWidth), IntToString(naturalHeight);
      if naturalWidth > 0 && naturalHeight > 0 {
        ParseOutputSizeOfIntegers(naturalWidth, naturalHeight);
      }
      crop := Some(Crop(0.0, 0.0, naturalWidth as real, naturalHeight as real));
      outputWidth := w;
      outputHeight := h;
    }

    /** `handleCropChange`: a cleared crop is ignored; otherwise the crop is
        taken and the fields show its rounded size. */
    method CropChange(newCrop: Option<Crop>)
      requires Valid() && (newCrop.Some? ==> NonNegativeSize(newCrop.value))
      modifies this
      ensures Valid()
      ensures newCrop.None? ==> crop == old(crop) && outputWidth == old(outputWidth) && outputHeight == old(outputHeight)
      ensures newCrop.Some? ==>
        && crop == newCrop
        && ParseInt(outputWidth) == Some(Round(newCrop.value.width))
        && ParseInt(outputHeight) == Some(Round(newCrop.value.height))
        && outputWidth == IntToString(Round(newCrop.value.width))
        && outputHeight == IntToString(Round(newCrop.value.height))
    {
      if newCrop.None? {
        return;
      }
      crop := newCrop;
      outputWidth := IntToString(Round(newCrop.value.width));
      outputHeight := IntToString(Round(newCrop.value.height));
      ParseIntToString(Round(newCrop.value.width));
      ParseIntToString(Round(newCrop.value.height));
    }

    /** Typing into the width field. */
    method EditWidth(value: string)
      requires Valid()
      modifies this
      ensures Valid() && outputWidth == value && outputHeight == old(outputHeight) && crop == old(crop)
    {
      outputWidth := value;
    }

    /** Typing into the height field. */
    method EditHeight(value: string)
      requires Valid()
      modifies this
      ensures Valid() && outputHeight == value && outputWidth == old(outputWidth) && crop == old(crop)
    {
      outputHeight := value;
    }

    /** `handleApply`. `hasContext` says whether the export canvas yields a 2-D
        context. */
    method Apply(hasContext: bool) returns (outcome: ApplyOutcome)
      requires Valid()
      ensures crop.None? || sourceDataUrl == "" ==> outcome == Ignored
      ensures crop.Some? && sourceDataUrl != "" ==>
        var size := ParseOutputSize(outputWidth, outputHeight);
        && (size.None? ==> outcome == InvalidSize)
        && (size.Some? && !hasContext ==> outcome == NoContext)
        && (size.Some? && hasContext ==> outcome == Exported(ExportOf(size.value, crop.value)))
    {
      if crop.None? || sourceDataUrl == "" {
        return Ignored;
      }
      var finalWidth := ParseInt(outputWidth);
      var finalHeight := ParseInt(outputHeight);
      if finalWidth.None? || finalHeight.None? || finalWidth.value <= 0 || finalHeight.value <= 0 {
        return InvalidSize;
      }
      if !hasContext {
        return NoContext;
      }
      var e := ExportSteps(OutputSize(finalWidth.value, finalHeight.value), crop.value);
      outcome := Exported(e);
    }
  }

  /** Applying straight after the image loaded exports the whole image at its
      natural size, filling the canvas. */
  method ApplyAfterLoad(o: Overlay, naturalWidth: nat, naturalHeight: nat) returns (outcome: ApplyOutcome)
    requires o.Valid() && o.sourceDataUrl != "" && naturalWidth > 0 && naturalHeight > 0
    modifies o
    ensures outcome.Exported?
    ensures outcome.image.width == naturalWidth && outcome.image.height == naturalHeight
    ensures outcome.image.dest == Some(Placement(0.0, 0.0, naturalWidth as real, naturalHeight as real))
  {
    o.Load(naturalWidth, naturalHeight);
    outcome := o.Apply(true);
    LetterboxSameSize(naturalWidth as real, naturalHeight as real);
  }
}
