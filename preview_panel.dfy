/** The QR preview's arithmetic and names (components/qr/PreviewPanel.tsx):
    the display canvas with its caption band, the size of the PNG download,
    the refusal of an SVG download with a caption, and the download file
    name built from the caption or from the payload. The URL parser's
    hostname is a parameter (None when `new URL` throws). */
module PreviewPanel {
  import opened Util
  import QrFormatter

  // ---------------------------------------------------------------- canvas

  /** The fixed side of the drawn QR code. */
  const QrSize: int := 1000

  /** The download sizes offered. */
  const DownloadSizes: seq<nat> := [256, 512, 1024, 2000]

  /** `captionText.trim().length > 0`. */
  predicate HasCaption(captionText: string)
  {
    |Trim(captionText)| > 0
  }

  /** The caption band: font size plus margin, each a percentage of the QR
      side; no band without a caption. */
  function CaptionHeight(hasCaption: bool, captionSize: int, captionMargin: int): real
  {
    if hasCaption then
      (captionSize as real / 100.0) * QrSize as real + (captionMargin as real / 100.0) * QrSize as real
    else 0.0
  }

  /** The display canvas is the QR side wide and the QR side plus the band
      high: 1000 x 1000 without a caption, 1000 + (size + margin) * 10 high
      with one. */
  lemma CanvasHeight(hasCaption: bool, captionSize: int, captionMargin: int)
    ensures !hasCaption ==> QrSize as real + CaptionHeight(hasCaption, captionSize, captionMargin) == 1000.0
    ensures hasCaption ==> QrSize as real + CaptionHeight(hasCaption, captionSize, captionMargin)
                           == (1000 + (captionSize + captionMargin) * 10) as real
  {
  }

  /** A canvas dimension assigned a non-negative number keeps its integer part. */
  function CanvasDimension(x: real): (n: int)
    requires x >= 0.0
    ensures 0 <= n && n as real <= x < n as real + 1.0
  {
    x.Floor
  }

  /** What a download button does. */
  datatype Download = PngFile(name: string, width: int, height: int) | SvgFile(name: string) | NoDownload

  /** `downloadSize * (sourceHeight / sourceWidth)`. */
  function Scaled(downloadSize: real, sourceWidth: real, sourceHeight: real): real
    requires sourceWidth > 0.0
  {
    downloadSize * (sourceHeight / sourceWidth)
  }

  /** `handleDownload`: nothing without the QR instance and the saver, and
      for a PNG nothing without the source canvas and a drawing context
      (`ready` stands for these guards; the SVG branch needs no canvas); the
      PNG is the display
      canvas scaled to the chosen width, keeping its proportion up to the
      canvas's truncation to whole pixels; the SVG is refused when there is a
      caption, since the caption exists only on the canvas. */
  function DownloadOf(extension: Extension, name: string, ready: bool, captionText: string,
                      downloadSize: nat, sourceWidth: int, sourceHeight: int): (r: Download)
    requires sourceWidth > 0 && sourceHeight > 0
    ensures !ready ==> r == NoDownload
    ensures ready && extension == Png ==>
      && r.PngFile? && r.name == name && r.width == downloadSize && r.height >= 0
      && r.height as real <= Scaled(downloadSize as real, sourceWidth as real, sourceHeight as real)
         < r.height as real + 1.0
    ensures ready && extension == Svg ==> (r == SvgFile(name) <==> !HasCaption(captionText))
    ensures ready && extension == Svg && HasCaption(captionText) ==> r == NoDownload
  {
    if !ready then NoDownload
    else if extension == Png then
      PngFile(name, downloadSize, CanvasDimension(Scaled(downloadSize as real, sourceWidth as real, sourceHeight as real)))
    else if !HasCaption(captionText) then SvgFile(name)
    else NoDownload
  }

  /** The PNG of a square display canvas is square. */
  lemma SquareDownload(name: string, captionText: string, downloadSize: nat, side: int)
    requires side > 0
    ensures DownloadOf(Png, name, true, captionText, downloadSize, side, side) == PngFile(name, downloadSize, downloadSize)
  {
    assert Scaled(downloadSize as real, side as real, side as real) == downloadSize as real;
  }

  /** A captioned PNG is taller than wide by the caption band's share:
      its height is the chosen size times (1000 + band) / 1000, truncated. */
  lemma CaptionedDownload(name: string, captionText: string, downloadSize: nat, captionSize: int, captionMargin: int)
    requires captionSize >= 0 && captionMargin >= 0
    ensures var h := 1000 + (captionSize + captionMargin) * 10;
      var r := DownloadOf(Png, name, true, captionText, downloadSize, QrSize, h);
      r.height as real <= downloadSize as real * h as real / 1000.0 < r.height as real + 1.0
      && r.height >= downloadSize
  {
    var h := 1000 + (captionSize + captionMargin) * 10;
    var x := Scaled(downloadSize as real, QrSize as real, h as real);
    assert x == downloadSize as real * h as real / 1000.0;
    assert x >= downloadSize as real by {
      assert h as real / 1000.0 >= 1.0;
    }
  }

  // ---------------------------------------------------------------- names

  datatype Extension = Png | Svg

  function ExtensionText(e: Extension): string
  {
    if e == Png then "png" else "svg"
  }

  /** The characters removed from names: `\\ / : * ? " < > |`. */
  predicate Invalid(c: char)
  {
    c == '\\' || c == '/' || c == ':' || c == '*' || c == '?' || c == '"' || c == '<' || c == '>' || c == '|'
  }

  /** No character of `s` is one of the removed ones. */
  predicate NoInvalid(s: string)
  {
    forall i :: 0 <= i < |s| ==> !Invalid(s[i])
  }

  /** `replace(/[\\/:*?"<>|]/g, '')`: every removed character is dropped and
      every other one kept. */
  function RemoveInvalid(s: string): (r: string)
    ensures |r| <= |s| && NoInvalid(r)
    ensures forall c :: c in r <==> c in s && !Invalid(c)
    ensures NoInvalid(s) ==> r == s
  {
    if |s| == 0 then "" else (if Invalid(s[0]) then "" else [s[0]]) + RemoveInvalid(s[1..])
  }

  /** One character is dropped exactly when it is a removed one. */
  lemma RemoveInvalidChar(c: char)
    ensures RemoveInvalid([c]) == if Invalid(c) then "" else [c]
  {
    assert [c][1..] == "";
  }

  /** The removal works character by character, so it keeps the order of
      what it keeps: it distributes over concatenation. */
  lemma {:induction false} RemoveInvalidConcat(a: string, b: string)
    ensures RemoveInvalid(a + b) == RemoveInvalid(a) + RemoveInvalid(b)
  {
    if |a| > 0 {
      var ab := a + b;
      var head := if Invalid(a[0]) then "" else [a[0]];
      assert ab[0] == a[0] && ab[1..] == a[1..] + b;
      assert RemoveInvalid(ab) == head + RemoveInvalid(a[1..] + b);
      assert RemoveInvalid(a) == head + RemoveInvalid(a[1..]);
      RemoveInvalidConcat(a[1..], b);
    } else {
      assert a + b == b;
    }
  }

  /** `replace(/\s+/g, '_')`: each run of white space becomes one `_`. */
  function CollapseWhitespace(s: string): (r: string)
    ensures forall i :: 0 <= i < |r| ==> !IsWhitespace(r[i])
    ensures NoInvalid(s) ==> NoInvalid(r)
    decreases |s|
  {
    if |s| == 0 then ""
    else if IsWhitespace(s[0]) then "_" + CollapseWhitespace(SkipWhitespace(s))
    else [s[0]] + CollapseWhitespace(s[1..])
  }

  /** A non-space character is kept as it is. */
  lemma CollapseNonSpace(c: char, rest: string)
    requires !IsWhitespace(c)
    ensures CollapseWhitespace([c] + rest) == [c] + CollapseWhitespace(rest)
  {
    assert ([c] + rest)[0] == c && ([c] + rest)[1..] == rest;
  }

  /** A whole run of white space, up to the next non-space character or the
      end, becomes a single `_`. */
  lemma CollapseRun(run: string, rest: string)
    requires |run| > 0 && forall i :: 0 <= i < |run| ==> IsWhitespace(run[i])
    requires |rest| == 0 || !IsWhitespace(rest[0])
    ensures CollapseWhitespace(run + rest) == "_" + CollapseWhitespace(rest)
  {
    SkipRun(run, rest);
  }

  lemma {:induction false} SkipRun(run: string, rest: string)
    requires forall i :: 0 <= i < |run| ==> IsWhitespace(run[i])
    requires |rest| == 0 || !IsWhitespace(rest[0])
    ensures SkipWhitespace(run + rest) == rest
  {
    if |run| > 0 {
      assert (run + rest)[0] == run[0] && (run + rest)[1..] == run[1..] + rest;
      SkipRun(run[1..], rest);
    } else {
      assert run + rest == rest;
    }
  }

  function SkipWhitespace(s: string): (r: string)
    ensures |r| <= |s| && r == s[|s| - |r|..]
    ensures |s| > 0 && IsWhitespace(s[0]) ==> |r| < |s|
    ensures |r| > 0 ==> !IsWhitespace(r[0])
  {
    if |s| > 0 && IsWhitespace(s[0]) then SkipWhitespace(s[1..]) else s
  }

  /** A slice keeps the property. */
  lemma SliceNoInvalid(s: string, a: nat, b: nat)
    requires NoInvalid(s) && a <= b <= |s|
    ensures NoInvalid(s[a..b])
  {
    assert forall i :: 0 <= i < b - a ==> s[a..b][i] == s[a + i];
  }

  /** Trimming removes characters only. */
  lemma TrimKeepsNoInvalid(s: string)
    requires NoInvalid(s)
    ensures NoInvalid(Trim(s))
  {
    var t := TrimStart(s);
    SliceNoInvalid(s, |s| - |t|, |s|);
    SliceNoInvalid(t, 0, |TrimEnd(t)|);
  }

  /** The name chain: invalid characters removed, trimmed, white-space runs
      replaced by `_`, cut to 60 characters. */
  function Sanitize(baseName: string): (r: string)
    ensures |r| <= 60
    ensures forall i :: 0 <= i < |r| ==> !IsWhitespace(r[i]) && !Invalid(r[i])
  {
    var removed := RemoveInvalid(baseName);
    TrimKeepsNoInvalid(removed);
    var collapsed := CollapseWhitespace(Trim(removed));
    var r := Take(collapsed, 60);
    assert forall i :: 0 <= i < |r| ==> r[i] == collapsed[i];
    r
  }

  /** A base name that holds neither a removed character nor white space
      passes the first three steps unchanged and is only cut to 60
      characters. */
  lemma SanitizeOfClean(b: string)
    requires NoInvalid(b) && forall i :: 0 <= i < |b| ==> !IsWhitespace(b[i])
    ensures Sanitize(b) == Take(b, 60)
  {
    assert RemoveInvalid(b) == b;
    if |b| > 0 {
      TrimStartNoop(b);
      TrimEndNoWhitespaceEnd(b);
    }
    assert Trim(b) == b;
    CollapseWithoutWhitespace(b);
  }

  /** Sanitising a sanitised name changes nothing. */
  lemma SanitizeIdempotent(b: string)
    ensures Sanitize(Sanitize(b)) == Sanitize(b)
  {
    var r := Sanitize(b);
    assert NoInvalid(r);
    SanitizeOfClean(r);
  }

  /** Two clean words separated by a space, such as `QR-Hello World`, are
      joined by `_`, every other character staying in place. */
  lemma SanitizeTwoWords(a: string, b: string)
    requires |a| > 0 && |b| > 0 && |a| + 1 + |b| <= 60
    requires NoInvalid(a) && forall i :: 0 <= i < |a| ==> !IsWhitespace(a[i])
    requires NoInvalid(b) && forall i :: 0 <= i < |b| ==> !IsWhitespace(b[i])
    ensures Sanitize(a + " " + b) == a + "_" + b
  {
    var phrase, joined := a + (" " + b), a + ("_" + b);
    assert a + " " + b == phrase;
    assert a + "_" + b == joined;
    PhraseTrimmed(a, b);
    PhraseCollapsed(a, b);
    assert Sanitize(phrase) == Take(joined, 60);
  }

  lemma PhraseTrimmed(a: string, b: string)
    requires |a| > 0 && |b| > 0 && !IsWhitespace(a[0]) && !IsWhitespace(b[|b| - 1])
    requires NoInvalid(a) && NoInvalid(b)
    ensures Trim(RemoveInvalid(a + (" " + b))) == a + (" " + b)
  {
    var s := a + (" " + b);
    PhraseClean(a, b);
    assert s[0] == a[0] && s[|s| - 1] == b[|b| - 1];
    TrimStartNoop(s);
    TrimEndNoWhitespaceEnd(s);
  }

  lemma PhraseClean(a: string, b: string)
    requires NoInvalid(a) && NoInvalid(b)
    ensures RemoveInvalid(a + (" " + b)) == a + (" " + b)
  {
    RemoveInvalidConcat(a, " " + b);
    RemoveInvalidConcat(" ", b);
    RemoveInvalidChar(' ');
  }

  lemma PhraseCollapsed(a: string, b: string)
    requires |b| > 0
    requires forall i :: 0 <= i < |a| ==> !IsWhitespace(a[i])
    requires forall i :: 0 <= i < |b| ==> !IsWhitespace(b[i])
    ensures CollapseWhitespace(a + (" " + b)) == a + ("_" + b)
  {
    CollapseWithoutWhitespace(b);
    CollapseRun(" ", b);
    Prepend(a, " " + b, "_" + b);
  }

  /** A name without white space is left unchanged. */
  lemma CollapseWithoutWhitespace(s: string)
    requires forall i :: 0 <= i < |s| ==> !IsWhitespace(s[i])
    ensures CollapseWhitespace(s) == s
  {
    Prepend(s, "", "");
    assert s + "" == s;
  }

  /** Non-space characters in front are kept in front. */
  lemma {:induction false} Prepend(p: string, rest: string, collapsed: string)
    requires forall i :: 0 <= i < |p| ==> !IsWhitespace(p[i])
    requires CollapseWhitespace(rest) == collapsed
    ensures CollapseWhitespace(p + rest) == p + collapsed
  {
    if |p| > 0 {
      var c, q := p[0], p[1..];
      HeadTail(p, rest, collapsed);
      forall i | 0 <= i < |q|
        ensures !IsWhitespace(q[i])
      {
        assert q[i] == p[i + 1];
      }
      Prepend(q, rest, collapsed);
      calc {
        CollapseWhitespace(p + rest);
        CollapseWhitespace([c] + (q + rest));
        { CollapseNonSpace(c, q + rest); }
        [c] + CollapseWhitespace(q + rest);
        [c] + (q + collapsed);
        p + collapsed;
      }
    } else {
      assert p + rest == rest;
    }
  }

  /** Splitting off the first character commutes with appending. */
  lemma HeadTail(p: string, rest: string, collapsed: string)
    requires |p| > 0
    ensures p + rest == [p[0]] + (p[1..] + rest)
    ensures p + collapsed == [p[0]] + (p[1..] + collapsed)
  {
    assert p == [p[0]] + p[1..];
  }

  lemma RemoveInvalidKeepsStart(a: char, b: char, rest: string)
    requires !Invalid(a) && !Invalid(b)
    ensures RemoveInvalid([a, b] + rest) == [a, b] + RemoveInvalid(rest)
  {
    assert NoInvalid([a, b]);
    RemoveInvalidConcat([a, b], rest);
  }

  lemma TrimKeepsStart(s: string)
    requires |s| >= 2 && !IsWhitespace(s[0]) && !IsWhitespace(s[1])
    ensures |Trim(s)| >= 2 && Trim(s)[..2] == s[..2]
  {
    TrimStartNoop(s);
    var t := TrimEnd(s);
    assert |t| >= 2;
  }

  lemma CollapseKeepsStart(s: string)
    requires |s| >= 2 && !IsWhitespace(s[0]) && !IsWhitespace(s[1])
    ensures |CollapseWhitespace(s)| >= 2 && CollapseWhitespace(s)[..2] == s[..2]
  {
    var s1 := s[1..];
    assert s1[0] == s[1] && s1[1..] == s[2..];
    assert CollapseWhitespace(s1) == [s[1]] + CollapseWhitespace(s[2..]);
    assert CollapseWhitespace(s) == [s[0]] + CollapseWhitespace(s1);
  }

  /** A name that starts with two valid non-space characters keeps them. */
  lemma {:induction false} SanitizeKeepsStart(a: char, b: char, rest: string)
    requires !Invalid(a) && !Invalid(b) && !IsWhitespace(a) && !IsWhitespace(b)
    ensures |Sanitize([a, b] + rest)| >= 2 && Sanitize([a, b] + rest)[..2] == [a, b]
  {
    RemoveInvalidKeepsStart(a, b, rest);
    var removed := RemoveInvalid([a, b] + rest);
    TrimKeepsStart(removed);
    var t := Trim(removed);
    CollapseKeepsStart(t);
    var c := CollapseWhitespace(t);
    assert c[..2] == [a, b];
    assert Take(c, 60)[..2] == c[..2];
  }

  /** `data.match(/(?:FN|N):([^;\n]+)/)`: the leftmost position where `FN:`
      or `N:` is followed by at least one character other than `;` and a line
      break, and the run of such characters there. */
  function NameMatchAsWritten(s: string, from: nat): (m: Option<string>)
    ensures m.Some? ==> |m.value| > 0 && ';' !in m.value && '\n' !in m.value
    decreases |s| - from
  {
    if from >= |s| then None
    else if "FN:" <= s[from..] && |Run(s[from + 3..])| > 0 then Some(Run(s[from + 3..]))
    else if "N:" <= s[from..] && |Run(s[from + 2..])| > 0 then Some(Run(s[from + 2..]))
    else NameMatchAsWritten(s, from + 1)
  }

  /** The same search anchored at line starts, as the card's own N and FN
      lines are. */
  function NameMatch(s: string, from: nat): (m: Option<string>)
    ensures m.Some? ==> |m.value| > 0 && ';' !in m.value && '\n' !in m.value
    decreases |s| - from
  {
    if from >= |s| then None
    else if (from == 0 || s[from - 1] == '\n') && "FN:" <= s[from..] && |Run(s[from + 3..])| > 0 then
      Some(Run(s[from + 3..]))
    else if (from == 0 || s[from - 1] == '\n') && "N:" <= s[from..] && |Run(s[from + 2..])| > 0 then
      Some(Run(s[from + 2..]))
    else NameMatch(s, from + 1)
  }

  /** `[^;\n]+` from the start: the longest prefix without `;` or a line break. */
  function Run(s: string): (r: string)
    ensures r <= s && ';' !in r && '\n' !in r
    ensures |r| < |s| ==> s[|r|] == ';' || s[|r|] == '\n'
  {
    if |s| == 0 || s[0] == ';' || s[0] == '\n' then "" else [s[0]] + Run(s[1..])
  }

  lemma {:induction false} RunStops(a: string, stop: char, rest: string)
    requires ';' !in a && '\n' !in a && (stop == ';' || stop == '\n')
    ensures Run(a + [stop] + rest) == a
  {
    if |a| > 0 {
      assert (a + [stop] + rest)[1..] == a[1..] + [stop] + rest;
      RunStops(a[1..], stop, rest);
    }
  }

  /** `replace(';', ' ')`: the first `;` becomes a space. */
  function ReplaceFirstSemicolon(s: string): string
  {
    if ';' in s then s[..IndexOf(s, ';')] + " " + s[IndexOf(s, ';') + 1..] else s
  }

  /** `url.hostname.replace(/^www\./, '')`. */
  function StripWww(host: string): (r: string)
    ensures "www." <= host ==> host == "www." + r
    ensures !("www." <= host) ==> r == host
  {
    if "www." <= host then host[4..] else host
  }

  /** The part of the name taken from the payload, by its scheme. `cardName`
      is the vCard's name search. */
  function ContentPartWith(data: string, hostname: Option<string>, cardName: Option<string>): string
  {
    var lower := LowerAscii(data);
    if "http" <= lower then (if hostname.Some? then StripWww(hostname.value) else "url")
    else if "tel:" <= lower then data[4..]
    else if "mailto:" <= lower then BeforeFirst(data[7..], '?')
    else if "begin:vcard" <= lower then
      (if cardName.Some? then ReplaceFirstSemicolon(cardName.value) else "vCard")
    else Take(data, 25)
  }

  /** A `tel:` payload is named by the number after the scheme. */
  lemma TelContentPart(data: string, hostname: Option<string>, cardName: Option<string>)
    requires "tel:" <= LowerAscii(data)
    ensures |data| >= 4 && ContentPartWith(data, hostname, cardName) == data[4..]
  {
    var l := LowerAscii(data);
    assert |l| == |data| >= 4;
    assert l[0] == "tel:"[0] == 't';
    assert !("http" <= l) by { assert "http"[0] == 'h'; }
  }

  /** A `mailto:` payload is named by the address up to the query. */
  lemma MailtoContentPart(data: string, hostname: Option<string>, cardName: Option<string>)
    requires "mailto:" <= LowerAscii(data)
    ensures |data| >= 7 && ContentPartWith(data, hostname, cardName) == BeforeFirst(data[7..], '?')
  {
    var l := LowerAscii(data);
    assert l[0] == "mailto:"[0] == 'm';
    assert !("http" <= l) by { assert "http"[0] == 'h'; }
    assert !("tel:" <= l) by { assert "tel:"[0] == 't'; }
  }

  /** A web address is named by its host without `www.`, or `url` when it
      does not parse. */
  lemma HttpContentPart(data: string, hostname: Option<string>, cardName: Option<string>)
    requires "http" <= LowerAscii(data)
    ensures ContentPartWith(data, hostname, cardName) == if hostname.Some? then StripWww(hostname.value) else "url"
  {
  }

  /** Upper-case schemes are recognised too: `TEL:+371` is named by
      `+371`, and so is every `TEL:` number. */
  lemma UpperTelContentPart(number: string, hostname: Option<string>, cardName: Option<string>)
    ensures ContentPartWith("TEL:" + number, hostname, cardName) == number
  {
    var data := "TEL:" + number;
    assert data[0] == 'T' && data[1] == 'E' && data[2] == 'L' && data[3] == ':';
    var l := LowerAscii(data);
    assert l[0] == 't' && l[1] == 'e' && l[2] == 'l' && l[3] == ':';
    assert "tel:" <= l;
    TelContentPart(data, hostname, cardName);
    assert data[4..] == number;
  }

  /** A payload of no known scheme, in any case, is named by its first 25
      characters. */
  lemma PlainContentPart(data: string, hostname: Option<string>, cardName: Option<string>)
    requires var l := LowerAscii(data);
      !("http" <= l) && !("tel:" <= l) && !("mailto:" <= l) && !("begin:vcard" <= l)
    ensures ContentPartWith(data, hostname, cardName) == Take(data, 25)
  {
  }

  /** `buy milk` matches no scheme and is named by itself. */
  lemma PlainContentPartExample(hostname: Option<string>, cardName: Option<string>)
    ensures ContentPartWith("buy milk", hostname, cardName) == "buy milk"
  {
    var l := LowerAscii("buy milk");
    assert l[0] == 'b' && l[1] == 'u';
    assert "begin:vcard"[1] == 'e';
    PlainContentPart("buy milk", hostname, cardName);
  }

  /** The base name: `QR-<caption>` for a non-blank caption, else
      `QR-<content part>` when the payload gives one, else `QR`. */
  function BaseNameWith(captionText: string, data: string, hostname: Option<string>,
                        cardName: Option<string>): (b: string)
    ensures |b| >= 2 && b[0] == 'Q' && b[1] == 'R'
    ensures HasCaption(captionText) ==> b == "QR-" + Trim(captionText)
    ensures !HasCaption(captionText) && (data == "" || ContentPartWith(data, hostname, cardName) == "") ==> b == "QR"
    ensures !HasCaption(captionText) && data != "" && ContentPartWith(data, hostname, cardName) != "" ==>
      b == "QR-" + ContentPartWith(data, hostname, cardName)
  {
    var caption := Trim(captionText);
    if caption != "" then "QR-" + caption
    else if data != "" && ContentPartWith(data, hostname, cardName) != "" then
      "QR-" + ContentPartWith(data, hostname, cardName)
    else "QR"
  }

  /** The size suffix of a PNG name, `_<S>x<S>px`; an SVG name has none. */
  function SizeSuffix(extension: Extension, downloadSize: nat): (r: string)
    ensures extension == Png ==> r == "_" + NatToString(downloadSize) + "x" + NatToString(downloadSize) + "px"
    ensures extension == Svg ==> r == ""
  {
    if extension == Png then "_" + NatToString(downloadSize) + "x" + NatToString(downloadSize) + "px" else ""
  }

  /** A download name from its base name: the sanitised stem, the size
      suffix and the extension. */
  function FilenameFrom(baseName: string, extension: Extension, downloadSize: nat): (r: string)
    ensures |r| == |Sanitize(baseName)| + |SizeSuffix(extension, downloadSize)| + 4
  {
    Sanitize(baseName) + SizeSuffix(extension, downloadSize) + "." + ExtensionText(extension)
  }

  /** `generateFilename` as written. */
  function FilenameAsWritten(extension: Extension, captionText: string, data: string,
                             hostname: Option<string>, downloadSize: nat): string
  {
    FilenameFrom(BaseNameWith(captionText, data, hostname, NameMatchAsWritten(data, 0)), extension, downloadSize)
  }

  /** `generateFilename` with the name search anchored at line starts. */
  function Filename(extension: Extension, captionText: string, data: string,
                    hostname: Option<string>, downloadSize: nat): string
  {
    FilenameFrom(BaseNameWith(captionText, data, hostname, NameMatch(data, 0)), extension, downloadSize)
  }

  /** Every name is a sanitised stem of at most 60 characters that starts
      with `QR` and holds no white space and no invalid character, then the
      PNG size suffix, then the extension. */
  lemma FilenameShape(baseName: string, extension: Extension, downloadSize: nat)
    requires |baseName| >= 2 && baseName[0] == 'Q' && baseName[1] == 'R'
    ensures var name := FilenameFrom(baseName, extension, downloadSize);
      var stem := Sanitize(baseName);
      && |stem| <= 60 && |stem| >= 2 && stem[0] == 'Q' && stem[1] == 'R'
      && |name| >= |stem| + 4 && name[..|stem|] == stem
      && (forall i :: 0 <= i < |stem| ==> !IsWhitespace(stem[i]) && !Invalid(stem[i]))
      && name[|stem|..|name| - 4] == SizeSuffix(extension, downloadSize)
      && name[|name| - 4..] == "." + ExtensionText(extension)
  {
    StemShape(baseName);
    var stem, tail := Sanitize(baseName), SizeSuffix(extension, downloadSize);
    var ext := "." + ExtensionText(extension);
    assert |ext| == 4;
    var name := stem + tail + ext;
    assert FilenameFrom(baseName, extension, downloadSize) == name;
    ThreeParts(stem, tail, ext);
  }

  /** A base name starting `QR` gives a stem starting `QR`. */
  lemma StemShape(baseName: string)
    requires |baseName| >= 2 && baseName[0] == 'Q' && baseName[1] == 'R'
    ensures var stem := Sanitize(baseName);
      |stem| >= 2 && stem[0] == 'Q' && stem[1] == 'R'
  {
    var rest := baseName[2..];
    assert baseName == ['Q', 'R'] + rest;
    SanitizeKeepsStart('Q', 'R', rest);
    var stem := Sanitize(baseName);
    assert stem[0] == stem[..2][0] && stem[1] == stem[..2][1];
  }

  /** The three parts of a concatenation read back by position. */
  lemma ThreeParts(a: string, b: string, c: string)
    requires |c| == 4
    ensures var n := a + b + c;
      && |n| == |a| + |b| + 4 && n[..|a|] == a && n[|a|..|n| - 4] == b && n[|n| - 4..] == c
  {
  }

  /** The size in a PNG name reads back: the digits after the `_` and the
      digits after the `x` both parse as the chosen size. */
  lemma SizeSuffixNamesSize(downloadSize: nat)
    ensures var r := SizeSuffix(Png, downloadSize);
      var n := |NatToString(downloadSize)|;
      && r[0] == '_' && r[n + 1] == 'x' && r[|r| - 2..] == "px"
      && ParseInt(r[1..n + 1]) == Some(downloadSize)
      && ParseInt(r[n + 2..2 * n + 2]) == Some(downloadSize)
  {
    var d := NatToString(downloadSize);
    SuffixParts(d);
    assert IntToString(downloadSize) == d;
    ParseIntToString(downloadSize);
  }

  /** The positions of the parts of `_<d>x<d>px`. */
  lemma SuffixParts(d: string)
    ensures var r := "_" + d + "x" + d + "px";
      var n := |d|;
      && |r| == 2 * n + 4 && r[0] == '_' && r[n + 1] == 'x' && r[|r| - 2..] == "px"
      && r[1..n + 1] == d && r[n + 2..2 * n + 2] == d
  {
    var r := "_" + d + "x" + d + "px";
    var n := |d|;
    assert r == ("_" + d) + ("x" + d + "px");
    assert r[1..n + 1] == d;
    assert r[n + 2..2 * n + 2] == d;
  }

  /** A non-blank caption names the file whatever the payload is. */
  lemma CaptionWins(extension: Extension, captionText: string, data: string, data2: string,
                    hostname: Option<string>, hostname2: Option<string>, downloadSize: nat)
    requires HasCaption(captionText)
    ensures Filename(extension, captionText, data, hostname, downloadSize)
            == Filename(extension, captionText, data2, hostname2, downloadSize)
  {
  }

  // ---------------------------------------------------------------- vCard names

  /** The matched name has no `;`, so the replacement never applies. */
  lemma ReplaceFindsNothing(s: string)
    requires ';' !in s
    ensures ReplaceFirstSemicolon(s) == s
  {
  }

  /** A position holding neither `F` nor `N` starts no match. */
  lemma SkipAsWritten(s: string, i: nat)
    requires i < |s| && s[i] != 'F' && s[i] != 'N'
    ensures NameMatchAsWritten(s, i) == NameMatchAsWritten(s, i + 1)
  {
  }

  /** The search at `N:` followed by a run. */
  lemma MatchAtN(s: string, i: nat, name: string)
    requires i + 2 <= |s| && s[i] == 'N' && s[i + 1] == ':' && Run(s[i + 2..]) == name && |name| > 0
    ensures NameMatchAsWritten(s, i) == Some(name)
  {
    assert s[i..][..2] == "N:";
  }

  /** After `BEGIN:N` comes the run `VCARD`. */
  lemma RunAfterBegin(s: string)
    requires |s| >= 12 && s[..12] == "BEGIN:VCARD\n"
    ensures Run(s[6..]) == "VCARD"
  {
    assert s[6..12] == s[..12][6..12] == "VCARD\n";
    assert s[6..] == "VCARD" + ['\n'] + s[12..];
    RunStops("VCARD", '\n', s[12..]);
  }

  /** As written, the search finds the `N:` inside `BEGIN:` of every vCard,
      so the name part is `VCARD`. */
  lemma {:induction false} CardNameAsWritten(s: string)
    requires |s| >= 12 && s[..12] == "BEGIN:VCARD\n"
    ensures NameMatchAsWritten(s, 0) == Some("VCARD")
  {
    BeginsCardOf(s);
    SkipAsWritten(s, 0);
    SkipAsWritten(s, 1);
    SkipAsWritten(s, 2);
    SkipAsWritten(s, 3);
    RunAfterBegin(s);
    MatchAtN(s, 4, "VCARD");
  }

  /** The characters of `BEGIN:VCARD` one by one. */
  predicate BeginsCard(s: string)
  {
    && |s| >= 12 && s[0] == 'B' && s[1] == 'E' && s[2] == 'G' && s[3] == 'I' && s[4] == 'N' && s[5] == ':'
    && s[6] == 'V' && s[7] == 'C' && s[8] == 'A' && s[9] == 'R' && s[10] == 'D' && s[11] == '\n'
  }

  lemma BeginsCardOf(s: string)
    requires |s| >= 12 && s[..12] == "BEGIN:VCARD\n"
    ensures BeginsCard(s)
  {
    var h := s[..12];
    assert s[0] == h[0] && s[1] == h[1] && s[2] == h[2] && s[3] == h[3] && s[4] == h[4] && s[5] == h[5];
    assert s[6] == h[6] && s[7] == h[7] && s[8] == h[8] && s[9] == h[9] && s[10] == h[10] && s[11] == h[11];
  }

  /** Lower-casing a vCard payload gives the `begin:vcard` scheme. */
  lemma VCardScheme(s: string)
    requires BeginsCard(s)
    ensures var l := LowerAscii(s);
      "begin:vcard" <= l && !("http" <= l) && !("tel:" <= l) && !("mailto:" <= l)
  {
    var l := LowerAscii(s);
    assert l[0] == 'b' && l[1] == 'e' && l[2] == 'g' && l[3] == 'i' && l[4] == 'n' && l[5] == ':';
    assert l[6] == 'v' && l[7] == 'c' && l[8] == 'a' && l[9] == 'r' && l[10] == 'd';
    assert l[..11] == "begin:vcard";
    assert "http"[0] == 'h' && "tel:"[0] == 't' && "mailto:"[0] == 'm';
  }

  /** The text the formatter writes for a vCard starts with its first two
      lines. */
  lemma VCardTextStart(d: QrFormatter.QrData)
    ensures var s := QrFormatter.VCardText(d);
      var ls := QrFormatter.VCardLines(d);
      && |s| >= 24 && s[..24] == "BEGIN:VCARD\nVERSION:3.0\n"
      && s[24..] == ls[2] + "\n" + Join(ls[3..], "\n")
  {
    var ls := QrFormatter.VCardLines(d);
    var s := QrFormatter.VCardText(d);
    assert ls[1..][0] == ls[1] && ls[1..][1..] == ls[2..];
    assert ls[2..][0] == ls[2] && ls[2..][1..] == ls[3..];
    var tail := ls[2] + "\n" + Join(ls[3..], "\n");
    assert Join(ls[2..], "\n") == tail;
    assert Join(ls[1..], "\n") == ls[1] + "\n" + tail;
    assert s == ls[0] + "\n" + (ls[1] + "\n" + tail);
    assert s == "BEGIN:VCARD\nVERSION:3.0\n" + tail;
  }

  /** So, as written, every vCard payload without a caption is named
      `QR-VCARD`. */
  lemma VCardNamedVCARD(d: QrFormatter.QrData, hostname: Option<string>)
    ensures BaseNameWith("", QrFormatter.VCardText(d), hostname,
                         NameMatchAsWritten(QrFormatter.VCardText(d), 0)) == "QR-" + "VCARD"
  {
    var s := QrFormatter.VCardText(d);
    VCardTextStart(d);
    assert s[..12] == s[..24][..12];
    CardNameAsWritten(s);
    BeginsCardOf(s);
    CardContentPart(s, hostname, Some("VCARD"));
    ReplaceFindsNothing("VCARD");
    assert ContentPartWith(s, hostname, Some("VCARD")) == "VCARD";
    assert Trim("") == "";
  }

  /** A vCard payload's content part is the name search's result, or
      `vCard` when the search finds nothing. */
  lemma CardContentPart(s: string, hostname: Option<string>, card: Option<string>)
    requires BeginsCard(s)
    ensures ContentPartWith(s, hostname, card) == if card.Some? then ReplaceFirstSemicolon(card.value) else "vCard"
  {
    VCardScheme(s);
  }

  /** Positions inside a line start no anchored match. */
  lemma {:induction false} SkipInsideLine(s: string, i: nat, j: nat)
    requires 0 < i <= j <= |s| && '\n' !in s[i - 1..j - 1]
    ensures NameMatch(s, i) == NameMatch(s, j)
    decreases j - i
  {
    if i < j {
      assert s[i - 1] == s[i - 1..j - 1][0];
      assert s[i..j - 1] == s[i - 1..j - 1][1..];
      SkipInsideLine(s, i + 1, j);
    }
  }

  /** A line start that is not `F` or `N` starts no anchored match. */
  lemma SkipLineStart(s: string, i: nat)
    requires i < |s| && s[i] != 'F' && s[i] != 'N'
    ensures NameMatch(s, i) == NameMatch(s, i + 1)
  {
  }

  /** No line of the vCard header starts a match. */
  lemma {:induction false} HeaderSkipped(s: string)
    requires |s| >= 24 && s[..24] == "BEGIN:VCARD\nVERSION:3.0\n"
    ensures NameMatch(s, 0) == NameMatch(s, 24)
  {
    var h := s[..24];
    assert s[0] == h[0] == 'B' && s[12] == h[12] == 'V';
    assert s[0..11] == h[0..11] && '\n' !in h[0..11];
    assert s[12..23] == h[12..23] && '\n' !in h[12..23];
    SkipLineStart(s, 0);
    SkipInsideLine(s, 1, 12);
    SkipLineStart(s, 12);
    SkipInsideLine(s, 13, 24);
  }

  /** The anchored search at the start of an `N:` line. */
  lemma MatchAtLine(s: string, i: nat, name: string)
    requires 0 < i && i + 2 <= |s| && s[i - 1] == '\n' && s[i] == 'N' && s[i + 1] == ':'
    requires Run(s[i + 2..]) == name && |name| > 0
    ensures NameMatch(s, i) == Some(name)
  {
    assert s[i..][..2] == "N:";
  }

  /** Anchored at line starts, the search skips the vCard's first two lines
      and finds its N line: a card whose last name is filled in and holds no
      `;` or line break is named after that last name. */
  lemma {:induction false} CardNameAnchored(s: string, last: string, tail: string)
    requires |last| > 0 && ';' !in last && '\n' !in last
    requires |s| >= 24 && s[..24] == "BEGIN:VCARD\nVERSION:3.0\n"
    requires s[24..] == "N:" + last + [';'] + tail
    ensures NameMatch(s, 0) == Some(last)
  {
    HeaderSkipped(s);
    HeaderEndsLine(s);
    NameLine(s, last, tail);
    RunStops(last, ';', tail);
    MatchAtLine(s, 24, last);
  }

  lemma HeaderEndsLine(s: string)
    requires |s| >= 24 && s[..24] == "BEGIN:VCARD\nVERSION:3.0\n"
    ensures s[23] == '\n'
  {
    assert s[23] == s[..24][23];
  }

  /** The positions of an `N:` line placed after the header. */
  lemma NameLine(s: string, last: string, tail: string)
    requires |s| >= 24 && s[24..] == "N:" + last + [';'] + tail
    ensures s[24] == 'N' && s[25] == ':' && s[26..] == last + [';'] + tail
  {
    assert s[24] == s[24..][0] && s[25] == s[24..][1];
    assert s[26..] == s[24..][2..];
  }

  /** So, corrected, a vCard from the formatter with such a last name is
      named after it. */
  lemma VCardNamedAfterLastName(d: QrFormatter.QrData)
    requires var last := QrFormatter.Field(d, "lastName"); |last| > 0 && ';' !in last && '\n' !in last
    ensures NameMatch(QrFormatter.VCardText(d), 0) == Some(QrFormatter.Field(d, "lastName"))
  {
    var ls := QrFormatter.VCardLines(d);
    var s := QrFormatter.VCardText(d);
    var last, first := QrFormatter.Field(d, "lastName"), QrFormatter.Field(d, "firstName");
    VCardTextStart(d);
    var tail := first + "\n" + Join(ls[3..], "\n");
    assert s[24..] == "N:" + last + [';'] + tail;
    CardNameAnchored(s, last, tail);
  }
}
