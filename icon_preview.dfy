/** The icon list's archive (components/IconPreview.tsx): each icon's
    base64 payload under its filename, and the web-app manifest that the
    favicon and PWA profiles add. The manifest is modelled as a record (its
    JSON text is not), and the icons' data URLs come from the canvas
    encoder, so they are a parameter beside the icons. */
module IconPreview {
  import opened Util
  import App

  // ---------------------------------------------------------------- payloads

  /** `dataUrl.split(',')[1]`, when it is a non-empty string: the text after
      the first comma, up to any second one. */
  function Payload(dataUrl: string): (p: Option<string>)
    ensures p.Some? ==> p.value != "" && ',' !in p.value
    ensures ',' !in dataUrl ==> p.None?
  {
    var parts := Split(dataUrl, ',');
    if |parts| >= 2 && parts[1] != "" then Some(parts[1]) else None
  }

  /** A data URL `<header>,<data>` yields its data. */
  lemma PayloadOfDataUrl(header: string, data: string)
    requires ',' !in header && ',' !in data && data != ""
    ensures Payload(header + "," + data) == Some(data)
  {
    SplitJoin([header, data], ',');
    assert [header, data][1..] == [data];
    assert Join([header, data], [',']) == header + "," + data;
  }

  /** An empty payload, as in `data:,`, is skipped. */
  lemma EmptyPayload(header: string)
    requires ',' !in header
    ensures Payload(header + ",") == None
  {
    SplitJoin([header, ""], ',');
    assert [header, ""][1..] == [""];
    assert Join([header, ""], [',']) == header + ",";
  }

  // ---------------------------------------------------------------- archive entries

  /** The archive's icon files, filename to base64 payload, as the loop adds
      them: an icon without a payload is skipped and a later icon with the
      same filename replaces an earlier one. */
  function EntriesOf(icons: seq<App.Icon>, dataUrls: seq<string>): map<string, string>
    requires |dataUrls| == |icons|
  {
    if |icons| == 0 then map[]
    else
      var n := |icons| - 1;
      var m := EntriesOf(icons[..n], dataUrls[..n]);
      match Payload(dataUrls[n])
      case None => m
      case Some(p) => m[icons[n].filename := p]
  }

  /** The archive holds a file exactly for each filename of an icon with a
      payload. */
  lemma {:induction false} EntriesKeys(icons: seq<App.Icon>, dataUrls: seq<string>, name: string)
    requires |dataUrls| == |icons|
    ensures name in EntriesOf(icons, dataUrls) <==>
      exists k :: 0 <= k < |icons| && icons[k].filename == name && Payload(dataUrls[k]).Some?
  {
    if |icons| > 0 {
      var n := |icons| - 1;
      EntriesKeys(icons[..n], dataUrls[..n], name);
      if name in EntriesOf(icons[..n], dataUrls[..n]) {
        var k :| 0 <= k < n && icons[..n][k].filename == name && Payload(dataUrls[..n][k]).Some?;
        assert icons[k].filename == name && Payload(dataUrls[k]).Some?;
      }
      if exists k :: 0 <= k < |icons| && icons[k].filename == name && Payload(dataUrls[k]).Some? {
        var k :| 0 <= k < |icons| && icons[k].filename == name && Payload(dataUrls[k]).Some?;
        if k < n {
          assert icons[..n][k] == icons[k] && dataUrls[..n][k] == dataUrls[k];
        }
      }
    }
  }

  /** With distinct filenames, each icon with a payload is stored with its
      own payload. */
  lemma {:induction false} EntriesValues(icons: seq<App.Icon>, dataUrls: seq<string>, k: nat)
    requires |dataUrls| == |icons| && k < |icons| && Payload(dataUrls[k]).Some?
    requires forall i, j :: 0 <= i < j < |icons| ==> icons[i].filename != icons[j].filename
    ensures icons[k].filename in EntriesOf(icons, dataUrls)
    ensures EntriesOf(icons, dataUrls)[icons[k].filename] == Payload(dataUrls[k]).value
  {
    var n := |icons| - 1;
    if k < n {
      assert icons[..n][k] == icons[k] && dataUrls[..n][k] == dataUrls[k];
      EntriesValues(icons[..n], dataUrls[..n], k);
      assert icons[n].filename != icons[k].filename;
    }
  }

  /** The loop of `handlePrepareZip` that adds the icon files. */
  method AddIconFiles(icons: seq<App.Icon>, dataUrls: seq<string>) returns (entries: map<string, string>)
    requires |dataUrls| == |icons|
    ensures entries == EntriesOf(icons, dataUrls)
  {
    entries := map[];
    for i := 0 to |icons|
      invariant entries == EntriesOf(icons[..i], dataUrls[..i])
    {
      assert icons[..i + 1][..i] == icons[..i] && dataUrls[..i + 1][..i] == dataUrls[..i];
      var base64Data := Payload(dataUrls[i]);
      if base64Data.Some? {
        entries := entries[icons[i].filename := base64Data.value];
      }
    }
    assert icons[..|icons|] == icons && dataUrls[..|icons|] == dataUrls;
  }

  // ---------------------------------------------------------------- manifests

  /** One icon entry of a web-app manifest. */
  datatype ManifestIcon = ManifestIcon(src: string, sizes: string, mimeType: string, purpose: Option<string>)

  /** A web-app manifest and the archive file it is written to. */
  datatype Manifest = Manifest(
    filename: string, name: string, shortName: string, icons: seq<ManifestIcon>,
    startUrl: Option<string>, display: string, themeColor: string, backgroundColor: string)

  /** The favicon profile's fixed manifest: the two Android icons. */
  const FaviconManifest: Manifest := Manifest(
    "site.webmanifest", "My Awesome App", "Awesome App",
    [ ManifestIcon("/android-chrome-192x192.png", "192x192", "image/png", None),
      ManifestIcon("/android-chrome-512x512.png", "512x512", "image/png", None) ],
    None, "standalone", "#ffffff", "#ffffff")

  /** A PWA icon entry: served from the root under its filename, sized
      `<w>x<h>`, maskable from 192 pixels wide. */
  function PwaIcon(icon: App.Icon): (e: ManifestIcon)
    ensures |e.src| > 0 && e.src[0] == '/' && e.src[1..] == icon.filename
    ensures e.sizes == IntToString(icon.width) + "x" + IntToString(icon.height)
    ensures e.mimeType == "image/png"
    ensures e.purpose.Some? <==> icon.width >= 192
    ensures e.purpose.Some? ==> e.purpose.value == "any maskable"
  {
    var details := ManifestIcon("/" + icon.filename, IntToString(icon.width) + "x" + IntToString(icon.height),
                                "image/png", None);
    if icon.width >= 192 then details.(purpose := Some("any maskable")) else details
  }

  /** `icons.map(...)`: one entry per icon, in order. */
  function PwaIcons(icons: seq<App.Icon>): (es: seq<ManifestIcon>)
    ensures |es| == |icons|
    ensures forall k :: 0 <= k < |icons| ==> es[k] == PwaIcon(icons[k])
  {
    if |icons| == 0 then [] else [PwaIcon(icons[0])] + PwaIcons(icons[1..])
  }

  /** The manifest the PWA profile adds. */
  function PwaManifest(icons: seq<App.Icon>): (m: Manifest)
    ensures m.filename == "manifest.webmanifest" && m.icons == PwaIcons(icons) && m.startUrl == Some(".")
  {
    Manifest("manifest.webmanifest", "My Progressive Web App", "My PWA", PwaIcons(icons),
             Some("."), "standalone", "#ffffff", "#ffffff")
  }

  /** Only the favicon and PWA profiles get a manifest. */
  function ManifestFor(profileId: string, icons: seq<App.Icon>): (m: Option<Manifest>)
    ensures m.Some? <==> profileId == "favicon" || profileId == "pwa"
    ensures profileId == "favicon" ==> m == Some(FaviconManifest)
    ensures profileId == "pwa" ==> m == Some(PwaManifest(icons))
  {
    if profileId == "favicon" then Some(FaviconManifest)
    else if profileId == "pwa" then Some(PwaManifest(icons))
    else None
  }

  /** The favicon manifest lists exactly the 192 and 512 pixel squares,
      whatever icons were generated. */
  lemma FaviconManifestSizes(icons: seq<App.Icon>)
    ensures var m := ManifestFor("favicon", icons).value;
      |m.icons| == 2 && m.icons[0].sizes == "192x192" && m.icons[1].sizes == "512x512"
  {
  }

  // ---------------------------------------------------------------- the panel

  /** A prepared archive. */
  datatype Zip = Zip(name: string, entries: map<string, string>, manifest: Option<Manifest>)

  /** The archive for a profile's icons. */
  function ZipOf(profileId: string, icons: seq<App.Icon>, dataUrls: seq<string>): (z: Zip)
    requires |dataUrls| == |icons|
    ensures z.name == "icons-" + profileId + ".zip"
    ensures z.manifest == ManifestFor(profileId, icons)
  {
    Zip("icons-" + profileId + ".zip", EntriesOf(icons, dataUrls), ManifestFor(profileId, icons))
  }

  /** What the prepare button does. */
  datatype PrepareOutcome = LibraryMissing | NothingToZip | Prepared

  class Panel {
    var icons: seq<App.Icon>
    var profileId: string
    var preparedZip: Option<Zip>
    var isPreparing: bool

    constructor(initial: seq<App.Icon>, profile: string)
      ensures icons == initial && profileId == profile && preparedZip.None? && !isPreparing
    {
      icons := initial;
      profileId := profile;
      preparedZip := None;
      isPreparing := false;
    }

    /** New icons discard the prepared archive. */
    method IconsChanged(newIcons: seq<App.Icon>)
      modifies this
      ensures icons == newIcons && preparedZip.None?
      ensures profileId == old(profileId) && isPreparing == old(isPreparing)
    {
      icons := newIcons;
      preparedZip := None;
    }

    /** `handlePrepareZip`: nothing without the archive library (which
        alerts) or without icons; otherwise the archive of the icons, with
        the profile's manifest, named after the profile. */
    method PrepareZip(zipAvailable: bool, dataUrls: seq<string>) returns (outcome: PrepareOutcome)
      requires |dataUrls| == |icons|
      modifies this
      ensures icons == old(icons) && profileId == old(profileId)
      ensures !zipAvailable ==> outcome == LibraryMissing
      ensures zipAvailable && |icons| == 0 ==> outcome == NothingToZip
      ensures outcome != Prepared ==> preparedZip == old(preparedZip) && isPreparing == old(isPreparing)
      ensures outcome == Prepared <==> zipAvailable && |icons| > 0
      ensures outcome == Prepared ==> preparedZip == Some(ZipOf(profileId, icons, dataUrls)) && !isPreparing
    {
      if !zipAvailable || |icons| == 0 {
        if !zipAvailable {
          return LibraryMissing;
        }
        return NothingToZip;
      }
      isPreparing := true;
      var entries := AddIconFiles(icons, dataUrls);
      var manifest := ManifestFor(profileId, icons);
      preparedZip := Some(Zip("icons-" + profileId + ".zip", entries, manifest));
      isPreparing := false;
      outcome := Prepared;
    }

    /** `handleDownloadZip`: the prepared archive goes to the saver when
        both exist. */
    method DownloadZip(saverAvailable: bool) returns (saved: Option<Zip>)
      ensures saved.Some? <==> preparedZip.Some? && saverAvailable
      ensures saved.Some? ==> saved == preparedZip
    {
      if preparedZip.None? || !saverAvailable {
        return None;
      }
      saved := preparedZip;
    }
  }
}
