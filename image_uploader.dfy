/** The upload filter (components/ImageUploader.tsx): at most 30 files;
    images and PDFs are kept in order, except that PDFs are dropped, with a
    warning, from a batch of several files; an error when nothing usable is
    left. The timers that clear the messages are left out. */
module ImageUploader {
  import opened Util
  import opened Types

  /** The most files one upload takes. */
  const UploadLimit: nat := 30

  predicate IsPdf(f: FileInfo)
  {
    f.mimeType == "application/pdf"
  }

  /** `type.startsWith('image/')`. */
  predicate IsImage(f: FileInfo)
  {
    "image/" <= f.mimeType
  }

  /** Whether the filter keeps one file of an upload. */
  predicate Keeps(f: FileInfo, isBatch: bool)
  {
    !(isBatch && IsPdf(f)) && (IsImage(f) || IsPdf(f))
  }

  /** The kept files, in input order. */
  function Kept(files: seq<FileInfo>, isBatch: bool): (r: seq<FileInfo>)
    ensures |r| <= |files|
  {
    if |files| == 0 then []
    else
      var last := files[|files| - 1];
      Kept(files[..|files| - 1], isBatch) + (if Keeps(last, isBatch) then [last] else [])
  }

  /** The kept files are exactly the input files the filter keeps. */
  lemma {:induction false} KeptMembers(files: seq<FileInfo>, isBatch: bool)
    ensures forall f :: f in Kept(files, isBatch) <==> f in files && Keeps(f, isBatch)
  {
    if |files| > 0 {
      var init := files[..|files| - 1];
      KeptMembers(init, isBatch);
      assert files == init + [files[|files| - 1]];
    }
  }

  /** Whether some PDF of a batch was dropped. */
  predicate PdfSkipped(files: seq<FileInfo>, isBatch: bool)
  {
    isBatch && exists k :: 0 <= k < |files| && IsPdf(files[k])
  }

  /** Filtering keeps the order: the kept files of a concatenation are the
      kept files of each part. */
  lemma {:induction false} KeptConcat(a: seq<FileInfo>, b: seq<FileInfo>, isBatch: bool)
    ensures Kept(a + b, isBatch) == Kept(a, isBatch) + Kept(b, isBatch)
    decreases |b|
  {
    if |b| == 0 {
      assert a + b == a;
    } else {
      var ab := a + b;
      var last := b[|b| - 1];
      var tail := if Keeps(last, isBatch) then [last] else [];
      assert ab[..|ab| - 1] == a + b[..|b| - 1];
      assert ab[|ab| - 1] == last;
      assert Kept(ab, isBatch) == Kept(a + b[..|b| - 1], isBatch) + tail;
      assert Kept(b, isBatch) == Kept(b[..|b| - 1], isBatch) + tail;
      KeptConcat(a, b[..|b| - 1], isBatch);
    }
  }

  /** The errors the uploader shows. */
  datatype UploadError = TooManyFiles | NoImage

  class Uploader {
    var error: Option<UploadError>
    var pdfWarning: bool

    constructor()
      ensures error.None? && !pdfWarning
    {
      error := None;
      pdfWarning := false;
    }

    /** `processFiles`: more than 30 files is an error and uploads nothing;
        otherwise the kept files are uploaded when there are any, the PDF
        warning is set when a batch PDF was dropped, and the no-image error
        is set exactly when nothing was kept and no PDF was dropped. Returns
        what `onImageUpload` receives (None when it is not called). */
    method ProcessFiles(files: seq<FileInfo>) returns (uploaded: Option<seq<FileInfo>>)
      modifies this
      ensures |files| > UploadLimit ==> error == Some(TooManyFiles) && !pdfWarning && uploaded.None?
      ensures |files| <= UploadLimit ==>
        var isBatch := |files| > 1;
        var kept := Kept(files, isBatch);
        && pdfWarning == PdfSkipped(files, isBatch)
        && (uploaded.Some? <==> |kept| > 0)
        && (uploaded.Some? ==> uploaded.value == kept)
        && (error == Some(NoImage) <==> |kept| == 0 && !PdfSkipped(files, isBatch))
        && (error != Some(NoImage) ==> error.None?)
    {
      error := None;
      pdfWarning := false;
      if |files| > UploadLimit {
        error := Some(TooManyFiles);
        return None;
      }
      var isBatch := |files| > 1;
      var validFiles: seq<FileInfo> := [];
      var pdfSkipped := false;
      for i := 0 to |files|
        invariant validFiles == Kept(files[..i], isBatch)
        invariant pdfSkipped <==> isBatch && exists k :: 0 <= k < i && IsPdf(files[k])
      {
        assert files[..i + 1][..i] == files[..i];
        var file := files[i];
        var isPdf := file.mimeType == "application/pdf";
        var isImage := "image/" <= file.mimeType;
        if isBatch && isPdf {
          pdfSkipped := true;
          continue;
        }
        if isImage || isPdf {
          validFiles := validFiles + [file];
        }
      }
      assert files[..|files|] == files;
      if pdfSkipped {
        pdfWarning := true;
      }
      if |validFiles| > 0 {
        uploaded := Some(validFiles);
      } else {
        uploaded := None;
        if !pdfSkipped {
          error := Some(NoImage);
        }
      }
    }
  }

  /** Exactly 30 files are accepted: only more is refused. */
  lemma ThirtyAccepted(files: seq<FileInfo>)
    requires |files| == UploadLimit && forall k :: 0 <= k < |files| ==> IsImage(files[k])
    ensures Kept(files, true) == files
  {
    KeptAll(files, true);
  }

  lemma {:induction false} KeptAll(files: seq<FileInfo>, isBatch: bool)
    requires forall k :: 0 <= k < |files| ==> Keeps(files[k], isBatch)
    ensures Kept(files, isBatch) == files
  {
    if |files| > 0 {
      KeptAll(files[..|files| - 1], isBatch);
    }
  }

  /** A single PDF is kept; in a batch it is dropped and reported. */
  lemma PdfAloneOrInBatch(pdf: FileInfo, other: FileInfo)
    requires IsPdf(pdf) && IsImage(other)
    ensures Kept([pdf], false) == [pdf]
    ensures Kept([pdf, other], true) == [other] && PdfSkipped([pdf, other], true)
  {
    assert [pdf, other][..1] == [pdf];
    assert [pdf][..0] == [];
    assert other.mimeType[0] == 'i';
    assert !Keeps(pdf, true) && Keeps(other, true);
    assert Kept([pdf], true) == [];
    assert [pdf, other][0] == pdf;
  }
}
