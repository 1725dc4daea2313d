/** The fit-and-letterbox arithmetic that places a source region on an output
    canvas: the icon generator, the editor's resize-and-crop overlay and the
    converter editor each compute it inline; here it is defined once. */
module Compositor {
  import opened Util
  import opened Types

  /** Where the source region is drawn on the output canvas. */
  datatype Placement = Placement(x: real, y: real, width: real, height: real)

  /** The letterbox as the program computes it: compare the two aspect ratios;
      a relatively wider source spans the full output width and is centred
      vertically, otherwise it spans the full height and is centred
      horizontally. */
  function Letterbox(srcW: real, srcH: real, outW: real, outH: real): (p: Placement)
    requires srcW > 0.0 && srcH > 0.0 && outW > 0.0 && outH > 0.0
  {
    var sourceAspect := srcW / srcH;
    var outputAspect := outW / outH;
    if sourceAspect > outputAspect then
      var destHeight := outW / sourceAspect;
      Placement(0.0, (outH - destHeight) / 2.0, outW, destHeight)
    else
      var destWidth := outH * sourceAspect;
      Placement((outW - destWidth) / 2.0, 0.0, destWidth, outH)
  }

  /** The letterbox as each call site writes it, step by step on `let`
      locals; it is the function above. */
  method LetterboxSteps(srcW: real, srcH: real, outW: real, outH: real) returns (p: Placement)
    requires srcW > 0.0 && srcH > 0.0 && outW > 0.0 && outH > 0.0
    ensures p == Letterbox(srcW, srcH, outW, outH)
  {
    var sourceAspectRatio := srcW / srcH;
    var finalAspectRatio := outW / outH;
    var destWidth, destHeight, destX, destY;
    if sourceAspectRatio > finalAspectRatio {
      destWidth := outW;
      destHeight := destWidth / sourceAspectRatio;
      destX := 0.0;
      destY := (outH - destHeight) / 2.0;
    } else {
      destHeight := outH;
      destWidth := destHeight * sourceAspectRatio;
      destY := 0.0;
      destX := (outW - destWidth) / 2.0;
    }
    p := Placement(destX, destY, destWidth, destHeight);
  }

  /** `a / (b / c) == a * c / b` for positive b and c. */
  lemma DivByRatio(a: real, b: real, c: real)
    requires b > 0.0 && c > 0.0
    ensures a / (b / c) == a * c / b
  {
    var q := b / c;
    assert q * c == b;
    assert (a * c / b) * q == a by {
      calc {
        (a * c / b) * q;
        == (a * c / b) * (b / c);
        == a;
      }
    }
  }

  /** The ratio comparison the program makes is the cross-multiplied one. */
  lemma RatioCompare(srcW: real, srcH: real, outW: real, outH: real)
    requires srcW > 0.0 && srcH > 0.0 && outW > 0.0 && outH > 0.0
    ensures (srcW / srcH > outW / outH) <==> (srcW * outH > outW * srcH)
  {
    var a := srcW / srcH;
    var b := outW / outH;
    assert a * srcH == srcW;
    assert b * outH == outW;
    if a > b {
      assert a * srcH * outH > b * srcH * outH;
    }
    if srcW * outH > outW * srcH {
      assert a * srcH * outH > b * outH * srcH;
      if a <= b {
        assert false;
      }
    }
  }

  /** The drawn region fits inside the output, touches two opposite sides, keeps
      the source's aspect ratio and is centred on both axes. */
  lemma {:induction false} LetterboxFits(srcW: real, srcH: real, outW: real, outH: real)
    requires srcW > 0.0 && srcH > 0.0 && outW > 0.0 && outH > 0.0
    ensures var p := Letterbox(srcW, srcH, outW, outH);
      && 0.0 <= p.x && 0.0 <= p.y
      && p.x + p.width <= outW && p.y + p.height <= outH
      && p.width > 0.0 && p.height > 0.0
      && (p.width == outW || p.height == outH)
      && p.width * srcH == p.height * srcW
      && 2.0 * p.x + p.width == outW
      && 2.0 * p.y + p.height == outH
  {
    var p := Letterbox(srcW, srcH, outW, outH);
    RatioCompare(srcW, srcH, outW, outH);
    var a := srcW / srcH;
    if a > outW / outH {
      DivByRatio(outW, srcW, srcH);
      assert p.height == outW * srcH / srcW;
      assert p.height * srcW == outW * srcH;
      assert p.height * srcW < outH * srcW;
    } else {
      assert p.width == outH * srcW / srcH;
      assert p.width * srcH == outH * srcW;
      assert p.width * srcH <= outW * srcH;
    }
  }

  /** No larger region with the source's aspect ratio fits in the output: the
      letterbox is the largest one. */
  lemma {:induction false} LetterboxIsLargest(srcW: real, srcH: real, outW: real, outH: real, w: real, h: real)
    requires srcW > 0.0 && srcH > 0.0 && outW > 0.0 && outH > 0.0
    requires 0.0 < w <= outW && 0.0 < h <= outH && w * srcH == h * srcW
    ensures w <= Letterbox(srcW, srcH, outW, outH).width
    ensures h <= Letterbox(srcW, srcH, outW, outH).height
  {
    var p := Letterbox(srcW, srcH, outW, outH);
    LetterboxFits(srcW, srcH, outW, outH);
    if p.width == outW {
      // p.height * srcW == outW * srcH >= w * srcH == h * srcW
      assert p.height * srcW == outW * srcH;
      assert w * srcH <= outW * srcH;
      assert h * srcW <= p.height * srcW;
    } else {
      assert p.height == outH;
      assert p.width * srcH == outH * srcW;
      assert h * srcW <= outH * srcW;
      assert w * srcH <= p.width * srcH;
    }
  }

  /** The documented example: a 100x50 region into 200x200 is drawn at
      (0, 50) with size 200x100; a 50x100 region at (50, 0) with size 100x200. */
  lemma LetterboxExamples()
    ensures Letterbox(100.0, 50.0, 200.0, 200.0) == Placement(0.0, 50.0, 200.0, 100.0)
    ensures Letterbox(50.0, 100.0, 200.0, 200.0) == Placement(50.0, 0.0, 100.0, 200.0)
  {
  }

  /** Fitting a region into a canvas of its own size fills the canvas. */
  lemma LetterboxSameSize(w: real, h: real)
    requires w > 0.0 && h > 0.0
    ensures Letterbox(w, h, w, h) == Placement(0.0, 0.0, w, h)
  {
    assert w / h * h == w;
  }

  // ---------------------------------------------------------------- exported images

  /** The output size typed into the two fields. */
  datatype OutputSize = OutputSize(width: int, height: int)

  /** The output fields as `handleApply` validates them: both must parse
      (`parseInt`) to positive integers. */
  function ParseOutputSize(width: string, height: string): (r: Option<OutputSize>)
    ensures r.Some? <==> ParseInt(width).Some? && ParseInt(height).Some?
                         && ParseInt(width).value > 0 && ParseInt(height).value > 0
    ensures r.Some? ==> r.value == OutputSize(ParseInt(width).value, ParseInt(height).value)
  {
    match (ParseInt(width), ParseInt(height))
    case (Some(w), Some(h)) => if w > 0 && h > 0 then Some(OutputSize(w, h)) else None
    case _ => None
  }

  /** Fields written from positive integers validate to those integers. */
  lemma ParseOutputSizeOfIntegers(w: int, h: int)
    requires w > 0 && h > 0
    ensures ParseOutputSize(IntToString(w), IntToString(h)) == Some(OutputSize(w, h))
  {
    ParseIntToString(w);
    ParseIntToString(h);
  }

  /** An exported image: a canvas of the output size filled with `background`,
      the source rectangle it reads and where it draws it. `dest` is None when
      the source has a zero side: `drawImage` paints nothing then. */
  datatype Export = Export(width: int, height: int, background: string, source: Crop, dest: Option<Placement>)

  /** What an editor's `handleApply` does: nothing (nothing to export), the
      invalid-size alert, nothing for want of a canvas context, or the export. */
  datatype ApplyOutcome = Ignored | InvalidSize | NoContext | Exported(image: Export)

  /** The export of a source rectangle at an output size. */
  function ExportOf(size: OutputSize, source: Crop): (e: Export)
    requires size.width > 0 && size.height > 0 && NonNegativeSize(source)
    ensures e.width == size.width && e.height == size.height && e.background == "white" && e.source == source
    ensures e.dest.Some? <==> source.width > 0.0 && source.height > 0.0
  {
    var dest :=
      if source.width > 0.0 && source.height > 0.0 then
        Some(Letterbox(source.width, source.height, size.width as real, size.height as real))
      else None;
    Export(size.width, size.height, "white", source, dest)
  }

  /** The drawn region lies inside the canvas, keeps the source's proportion and
      is centred. */
  lemma ExportFits(size: OutputSize, source: Crop)
    requires size.width > 0 && size.height > 0 && NonNegativeSize(source)
    requires source.width > 0.0 && source.height > 0.0
    ensures var p := ExportOf(size, source).dest.value;
      && 0.0 <= p.x && 0.0 <= p.y
      && p.x + p.width <= size.width as real && p.y + p.height <= size.height as real
      && p.width * source.height == p.height * source.width
      && 2.0 * p.x + p.width == size.width as real
      && 2.0 * p.y + p.height == size.height as real
  {
    LetterboxFits(source.width, source.height, size.width as real, size.height as real);
  }

  /** The drawing steps shared by the two editors' `handleApply`: size the
      canvas, fill it white and draw the source letterboxed. */
  method ExportSteps(size: OutputSize, source: Crop) returns (e: Export)
    requires size.width > 0 && size.height > 0 && NonNegativeSize(source)
    ensures e == ExportOf(size, source)
  {
    var dest: Option<Placement> := None;
    if source.width > 0.0 && source.height > 0.0 {
      var p := LetterboxSteps(source.width, source.height, size.width as real, size.height as real);
      dest := Some(p);
    }
    e := Export(size.width, size.height, "white", source, dest);
  }
}
