/** The converter screen's bookkeeping (components/ImageConverter.tsx): the
    output format each input starts with, the PDF page buttons, the output
    names of a single conversion and of a batch archive, and the files that
    may still be appended to a batch. Decoding, drawing, pdf.js, jsPDF, JSZip
    and the saver are left out. */
module ImageConverter {
  import opened Util
  import opened Types

  /** A batch holds at most this many files. */
  const FileLimit: nat := 30

  datatype OutputFormat = PngFormat | JpegFormat | WebpFormat | GifFormat | PdfFormat

  function FormatId(f: OutputFormat): (id: string)
    ensures |id| > 0 && '.' !in id
  {
    match f
    case PngFormat => "png"
    case JpegFormat => "jpeg"
    case WebpFormat => "webp"
    case GifFormat => "gif"
    case PdfFormat => "pdf"
  }

  predicate IsPdfFile(f: FileInfo)
  {
    f.mimeType == "application/pdf"
  }

  /** `type.startsWith('image/')`. */
  predicate IsImageFile(f: FileInfo)
  {
    "image/" <= f.mimeType
  }

  /** More than one file is a batch. */
  predicate IsBatch(files: seq<FileInfo>)
  {
    |files| > 1
  }

  /** The file a single conversion works on. */
  function SingleImageFile(files: seq<FileInfo>): (f: Option<FileInfo>)
    ensures f.Some? <==> |files| == 1
    ensures f.Some? ==> f.value == files[0]
  {
    if IsBatch(files) || |files| == 0 then None else Some(files[0])
  }

  // ---------------------------------------------------------------- names

  /** `name.substring(0, name.lastIndexOf('.')) || name`: the text before the
      last dot, or the whole name when there is no dot or nothing before it. */
  function BaseName(name: string): (b: string)
    ensures '.' !in name ==> b == name
    ensures LastIndexOf(name, '.') == 0 ==> b == name
    ensures LastIndexOf(name, '.') > 0 ==>
      && 0 < |b| < |name| && name[..|b|] == b && name[|b|] == '.' && '.' !in name[|b| + 1..]
  {
    var i := LastIndexOf(name, '.');
    if i <= 0 then name else name[..i]
  }

  /** Naming a file `<stem>.<extension>` and taking its base name gives the
      stem back. */
  lemma BaseNameOfName(stem: string, extension: string)
    requires |stem| > 0 && '.' !in extension
    ensures BaseName(stem + "." + extension) == stem
  {
    var name := stem + "." + extension;
    var i := LastIndexOf(name, '.');
    assert name[|stem|] == '.';
    assert name[|stem| + 1..] == extension;
  }

  /** `[prefix, model].filter(Boolean)`. */
  function NonEmpty(parts: seq<string>): (r: seq<string>)
    ensures forall k :: 0 <= k < |r| ==> r[k] != ""
    ensures |r| <= |parts|
  {
    if |parts| == 0 then [] else (if parts[0] == "" then [] else [parts[0]]) + NonEmpty(parts[1..])
  }

  /** The joined non-empty parts of a pair. */
  lemma {:induction false} JoinedPair(p: string, m: string)
    ensures Join(NonEmpty([p, m]), "-") == if p != "" && m != "" then p + "-" + m else if p == "" then m else p
  {
    assert [p, m][1..] == [m] && [m][1..] == [];
    assert NonEmpty([m]) == if m == "" then [] else [m];
  }

  /** `generateFinalFilename` without its extension: a single non-PDF file
      with a trimmed prefix or model is named by the non-empty ones joined
      with `-`; otherwise by its original base name. */
  function Stem(filenamePrefix: string, filenameModel: string, isBatch: bool, isPdf: bool,
                originalFilename: string): (r: string)
    ensures var p, m := Trim(filenamePrefix), Trim(filenameModel);
      var custom := !isBatch && !isPdf && (p != "" || m != "");
      && (custom && p != "" && m != "" ==> r == p + "-" + m)
      && (custom && p == "" ==> r == m)
      && (custom && m == "" ==> r == p)
      && (!custom ==> r == originalFilename)
  {
    var prefix := Trim(filenamePrefix);
    var model := Trim(filenameModel);
    if !isBatch && !isPdf && (prefix != "" || model != "") then
      JoinedPair(prefix, model);
      Join(NonEmpty([prefix, model]), "-")
    else originalFilename
  }

  /** `generateFinalFilename`. */
  function FinalFilename(filenamePrefix: string, filenameModel: string, isBatch: bool, isPdf: bool,
                         originalFilename: string, extension: string): string
  {
    Stem(filenamePrefix, filenameModel, isBatch, isPdf, originalFilename) + "." + extension
  }

  /** A single-file name's base name is its stem: the extension is the only
      thing after its last dot. */
  lemma FinalFilenameBase(filenamePrefix: string, filenameModel: string, isPdf: bool,
                          originalFilename: string, extension: string)
    requires '.' !in extension && |originalFilename| > 0
    ensures BaseName(FinalFilename(filenamePrefix, filenameModel, false, isPdf, originalFilename, extension))
            == Stem(filenamePrefix, filenameModel, false, isPdf, originalFilename)
  {
    var stem := Stem(filenamePrefix, filenameModel, false, isPdf, originalFilename);
    assert |stem| > 0;
    BaseNameOfName(stem, extension);
  }

  /** `file.name.split('.')[0]`: the text before the first dot. */
  lemma {:induction false} SplitFirst(s: string, c: char)
    ensures Split(s, c)[0] == BeforeFirst(s, c)
  {
    if c in s {
      var i := IndexOf(s, c);
      var b := BeforeFirst(s, c);
      assert |b| == i;
    }
  }

  /** A batch archive entry: the name up to its first dot, then the format. */
  function BatchEntryName(name: string, format: OutputFormat): (r: string)
    ensures var stem := BeforeFirst(name, '.');
      r == stem + "." + FormatId(format) && '.' !in stem && stem <= name
    ensures '.' !in name ==> r == name + "." + FormatId(format)
  {
    SplitFirst(name, '.');
    Split(name, '.')[0] + "." + FormatId(format)
  }

  // ---------------------------------------------------------------- appending

  /** `filter(f => f.type.startsWith('image/'))`. */
  function ImagesOnly(files: seq<FileInfo>): (r: seq<FileInfo>)
    ensures |r| <= |files|
    ensures forall f :: f in r <==> f in files && IsImageFile(f)
  {
    if |files| == 0 then [] else (if IsImageFile(files[0]) then [files[0]] else []) + ImagesOnly(files[1..])
  }

  /** The filter keeps the order: filtering a concatenation concatenates the
      filtered parts. */
  lemma {:induction false} ImagesOnlyConcat(a: seq<FileInfo>, b: seq<FileInfo>)
    ensures ImagesOnly(a + b) == ImagesOnly(a) + ImagesOnly(b)
  {
    if |a| > 0 {
      assert (a + b)[1..] == a[1..] + b;
      ImagesOnlyConcat(a[1..], b);
    } else {
      assert a + b == b;
    }
  }

  /** What `processAppendedFiles` does: the limit-reached error, the
      partial-append warning with the number of places left, and the files
      handed to `onAppendFiles` (none means it is not called). */
  datatype AppendResult = AppendResult(error: bool, warning: Option<nat>, appended: seq<FileInfo>)

  /** The append rule, as a function of the number of files already there. */
  function AppendOf(current: nat, incoming: seq<FileInfo>): (r: AppendResult)
    ensures r.error <==> current >= FileLimit
    ensures r.error ==> r.warning.None? && r.appended == []
    ensures !r.error ==> (r.warning.Some? <==> |incoming| > FileLimit - current)
    ensures r.warning.Some? ==> r.warning.value == FileLimit - current
    ensures !r.error ==> current + |r.appended| <= FileLimit
    ensures forall f :: f in r.appended ==> f in incoming && IsImageFile(f)
  {
    if current >= FileLimit then AppendResult(true, None, [])
    else
      var room := FileLimit - current;
      var filesToAdd := if |incoming| <= room then incoming else incoming[..room];
      AppendResult(false, if |incoming| > room then Some(room) else None, ImagesOnly(filesToAdd))
  }

  /** Incoming files that fit are all filtered, without a warning. */
  lemma AppendWithinRoom(current: nat, incoming: seq<FileInfo>)
    requires current < FileLimit && current + |incoming| <= FileLimit
    ensures AppendOf(current, incoming) == AppendResult(false, None, ImagesOnly(incoming))
  {
  }

  /** The room is counted before filtering: of more files than fit, only
      the images among the first `30 - current` are appended, whatever
      follows them, and the warning names the room. */
  lemma AppendBeyondRoom(current: nat, first: seq<FileInfo>, rest: seq<FileInfo>)
    requires current < FileLimit && |first| == FileLimit - current && |rest| > 0
    ensures AppendOf(current, first + rest) == AppendResult(false, Some(|first|), ImagesOnly(first))
  {
    var incoming := first + rest;
    var room := FileLimit - current;
    assert |incoming| > room && incoming[..room] == first;
    assert AppendOf(current, incoming) == AppendResult(false, Some(room), ImagesOnly(incoming[..room]));
  }

  // ---------------------------------------------------------------- the screen

  class Converter {
    var imageFiles: seq<FileInfo>
    var outputFormat: OutputFormat
    var isPdf: bool
    var totalPages: nat
    var currentPage: int
    var filenamePrefix: string
    var filenameModel: string
    var originalFilename: string
    var appendError: bool
    var appendWarning: Option<nat>

    /** The page shown is a page of the document; before the document has
        loaded it is the first. */
    ghost predicate Valid()
      reads this
    {
      && 1 <= currentPage
      && (totalPages == 0 ==> currentPage == 1)
      && (totalPages > 0 ==> currentPage <= totalPages)
      && (totalPages > 0 ==> isPdf)
    }

    /** The screen opens on the uploaded files, before its effects run. */
    constructor(files: seq<FileInfo>)
      ensures Valid() && imageFiles == files
      ensures outputFormat == WebpFormat && !isPdf && totalPages == 0 && currentPage == 1
      ensures filenamePrefix == "" && filenameModel == "" && originalFilename == ""
      ensures !appendError && appendWarning.None?
    {
      imageFiles := files;
      outputFormat := WebpFormat;
      isPdf := false;
      totalPages := 0;
      currentPage := 1;
      filenamePrefix := "";
      filenameModel := "";
      originalFilename := "";
      appendError := false;
      appendWarning := None;
    }

    /** The effects on a new single file: its base name becomes the original
        name and the model field; the PDF state and the page reset; the
        format becomes `jpeg` for a PDF and `webp` otherwise. */
    method SingleFileChanged()
      requires Valid()
      modifies this
      ensures Valid()
      ensures var single := SingleImageFile(imageFiles);
        && outputFormat == (if single.Some? && IsPdfFile(single.value) then JpegFormat else WebpFormat)
        && isPdf == (single.Some? && IsPdfFile(single.value))
        && totalPages == 0 && currentPage == 1
        && (single.Some? ==> originalFilename == filenameModel == BaseName(single.value.name))
        && (single.None? ==> originalFilename == old(originalFilename) && filenameModel == old(filenameModel))
      ensures imageFiles == old(imageFiles) && filenamePrefix == old(filenamePrefix)
      ensures appendError == old(appendError) && appendWarning == old(appendWarning)
    {
      var single := SingleImageFile(imageFiles);
      if single.Some? {
        var base := BaseName(single.value.name);
        originalFilename := base;
        filenameModel := base;
      }
      isPdf := false;
      totalPages := 0;
      currentPage := 1;
      outputFormat := WebpFormat;
      if single.Some? && IsPdfFile(single.value) {
        isPdf := true;
        outputFormat := JpegFormat;
      }
    }

    /** pdf.js reports the page count of the loaded document. */
    method PdfLoaded(numPages: nat)
      requires Valid() && isPdf && totalPages == 0 && numPages >= 1
      modifies this
      ensures Valid() && totalPages == numPages && currentPage == 1
      ensures imageFiles == old(imageFiles) && outputFormat == old(outputFormat) && isPdf
      ensures filenamePrefix == old(filenamePrefix) && filenameModel == old(filenameModel)
      ensures originalFilename == old(originalFilename)
      ensures appendError == old(appendError) && appendWarning == old(appendWarning)
    {
      totalPages := numPages;
    }

    /** The `<` button, shown for documents of more than one page. */
    method PreviousPage()
      requires Valid() && isPdf && totalPages > 1
      modifies this
      ensures Valid() && currentPage == if old(currentPage) - 1 > 1 then old(currentPage) - 1 else 1
      ensures 1 <= currentPage <= totalPages
      ensures imageFiles == old(imageFiles) && outputFormat == old(outputFormat) && isPdf == old(isPdf)
      ensures totalPages == old(totalPages)
      ensures filenamePrefix == old(filenamePrefix) && filenameModel == old(filenameModel)
      ensures originalFilename == old(originalFilename)
      ensures appendError == old(appendError) && appendWarning == old(appendWarning)
    {
      var p := currentPage - 1;
      currentPage := if 1 > p then 1 else p;
    }

    /** The `>` button. */
    method NextPage()
      requires Valid() && isPdf && totalPages > 1
      modifies this
      ensures Valid() && currentPage == if old(currentPage) + 1 < totalPages then old(currentPage) + 1 else totalPages
      ensures 1 <= currentPage <= totalPages
      ensures imageFiles == old(imageFiles) && outputFormat == old(outputFormat) && isPdf == old(isPdf)
      ensures totalPages == old(totalPages)
      ensures filenamePrefix == old(filenamePrefix) && filenameModel == old(filenameModel)
      ensures originalFilename == old(originalFilename)
      ensures appendError == old(appendError) && appendWarning == old(appendWarning)
    {
      var p := currentPage + 1;
      currentPage := if totalPages < p then totalPages else p;
    }

    /** The name a single conversion is saved under. */
    function GenerateFinalFilename(extension: string): string
      reads this
    {
      FinalFilename(filenamePrefix, filenameModel, IsBatch(imageFiles), isPdf, originalFilename, extension)
    }

    /** `processAppendedFiles`: clears the messages, then applies the append
        rule to the current number of files; returns what `onAppendFiles`
        receives. The parent appends it, so the batch never grows past 30. */
    method ProcessAppendedFiles(incoming: seq<FileInfo>) returns (appended: seq<FileInfo>)
      requires Valid()
      modifies this
      ensures var r := AppendOf(|old(imageFiles)|, incoming);
        && appended == r.appended && appendError == r.error && appendWarning == r.warning
      ensures Valid()
      ensures |imageFiles| + |appended| <= FileLimit || (|imageFiles| >= FileLimit && appended == [])
      ensures imageFiles == old(imageFiles) && outputFormat == old(outputFormat) && isPdf == old(isPdf)
      ensures totalPages == old(totalPages) && currentPage == old(currentPage)
      ensures filenamePrefix == old(filenamePrefix) && filenameModel == old(filenameModel)
      ensures originalFilename == old(originalFilename)
    {
      appendError := false;
      appendWarning := None;
      var limit := FileLimit;
      var current := |imageFiles|;
      if current >= limit {
        appendError := true;
        return [];
      }
      var filesToAdd := if |incoming| <= limit - current then incoming else incoming[..limit - current];
      if |incoming| > limit - current {
        appendWarning := Some(limit - current);
      }
      appended := ImagesOnly(filesToAdd);
    }
  }
}
