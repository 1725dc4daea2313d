/** The top-level application state (App.tsx): the uploaded files, the crop and
    the aspect lock, the generated icons, the custom icon sizes and the mode,
    with the handlers that reset, crop, add or remove sizes and generate the
    icons of a profile. */
module App {
  import opened Util
  import opened Types
  import opened Compositor
  import ImageEditor

  // ---------------------------------------------------------------- profiles

  /** A profile: its id and the icons it generates. */
  datatype Profile = Profile(id: string, icons: seq<IconDefinition>)

  /** The built-in profiles, in order; 'custom' generates the user's sizes. */
  const Profiles: seq<Profile> := [
    Profile("favicon", [
      IconDefinition(16, 16, "favicon-16x16.png"),
      IconDefinition(32, 32, "favicon-32x32.png"),
      IconDefinition(48, 48, "favicon-48x48.png"),
      IconDefinition(180, 180, "apple-touch-icon.png"),
      IconDefinition(192, 192, "android-chrome-192x192.png"),
      IconDefinition(512, 512, "android-chrome-512x512.png")]),
    Profile("chrome-extension", [
      IconDefinition(16, 16, "icon16.png"),
      IconDefinition(48, 48, "icon48.png"),
      IconDefinition(128, 128, "icon128.png")]),
    Profile("pwa", [
      IconDefinition(72, 72, "icons/icon-72x72.png"),
      IconDefinition(96, 96, "icons/icon-96x96.png"),
      IconDefinition(128, 128, "icons/icon-128x128.png"),
      IconDefinition(144, 144, "icons/icon-144x144.png"),
      IconDefinition(152, 152, "icons/icon-152x152.png"),
      IconDefinition(192, 192, "icons/icon-192x192.png"),
      IconDefinition(384, 384, "icons/icon-384x384.png"),
      IconDefinition(512, 512, "icons/icon-512x512.png")]),
    Profile("custom", [])]

  predicate PositiveSizes(defs: seq<IconDefinition>)
  {
    forall k :: 0 <= k < |defs| ==> defs[k].width > 0 && defs[k].height > 0
  }

  /** The profile with the given id, or the first profile when there is none. */
  function SelectedProfile(id: string): (p: Profile)
    ensures p in Profiles && PositiveSizes(p.icons)
    ensures (exists k :: 0 <= k < |Profiles| && Profiles[k].id == id) ==> p.id == id
    ensures (forall k :: 0 <= k < |Profiles| ==> Profiles[k].id != id) ==> p == Profiles[0]
  {
    if id == "favicon" then Profiles[0]
    else if id == "chrome-extension" then Profiles[1]
    else if id == "pwa" then Profiles[2]
    else if id == "custom" then Profiles[3]
    else Profiles[0]
  }

  // ---------------------------------------------------------------- default crops

  /** The centred square crop of an image (`handleInitiateSquareCrop`). */
  function SquareCrop(naturalWidth: real, naturalHeight: real): (c: Crop)
    requires naturalWidth > 0.0 && naturalHeight > 0.0
    ensures c.width == c.height == MinReal(naturalWidth, naturalHeight)
    ensures 0.0 <= c.x && c.x + c.width <= naturalWidth
    ensures 0.0 <= c.y && c.y + c.height <= naturalHeight
    ensures 2.0 * c.x + c.width == naturalWidth && 2.0 * c.y + c.height == naturalHeight
  {
    var aspect := naturalWidth / naturalHeight;
    assert aspect > 1.0 <==> naturalWidth > naturalHeight by {
      RatioCompare(naturalWidth, naturalHeight, 1.0, 1.0);
    }
    if aspect > 1.0 then
      var side := naturalHeight;
      Crop((naturalWidth - side) / 2.0, 0.0, side, side)
    else
      var side := naturalWidth;
      Crop(0.0, (naturalHeight - side) / 2.0, side, side)
  }

  lemma SquareCropExample()
    ensures SquareCrop(1000.0, 500.0) == Crop(250.0, 0.0, 500.0, 500.0)
  {
  }

  /** The crop covering the whole image (`handleInitiateFullScreenCrop`). */
  function FullCrop(naturalWidth: real, naturalHeight: real): (c: Crop)
    ensures c.x == 0.0 && c.y == 0.0 && c.width == naturalWidth && c.height == naturalHeight
  {
    Crop(0.0, 0.0, naturalWidth, naturalHeight)
  }

  // ---------------------------------------------------------------- generated icons

  /** A generated icon: its size, its filename and where the crop is drawn on
      its canvas (the pixels are not modelled). */
  datatype Icon = Icon(width: int, height: int, filename: string, dest: Placement)

  /** The icon drawn for one definition: the crop letterboxed into it. */
  function IconOf(def: IconDefinition, c: Crop): (icon: Icon)
    requires def.width > 0 && def.height > 0 && c.width > 0.0 && c.height > 0.0
    ensures icon.width == def.width && icon.height == def.height && icon.filename == def.filename
    ensures icon.dest == Letterbox(c.width, c.height, def.width as real, def.height as real)
  {
    Icon(def.width, def.height, def.filename,
         Letterbox(c.width, c.height, def.width as real, def.height as real))
  }

  /** The icons generated for the definitions whose canvas context could be
      obtained (`contexts[k]`), in definition order. */
  function IconsFor(defs: seq<IconDefinition>, contexts: seq<bool>, c: Crop): (icons: seq<Icon>)
    requires |contexts| == |defs| && PositiveSizes(defs) && c.width > 0.0 && c.height > 0.0
    ensures |icons| <= |defs|
  {
    if |defs| == 0 then []
    else
      var n := |defs| - 1;
      IconsFor(defs[..n], contexts[..n], c) + (if contexts[n] then [IconOf(defs[n], c)] else [])
  }

  /** With every context available there is one icon per definition, in order,
      with the definition's size and filename and the crop letterboxed into it. */
  lemma {:induction false} IconsForAll(defs: seq<IconDefinition>, contexts: seq<bool>, c: Crop)
    requires |contexts| == |defs| && PositiveSizes(defs) && c.width > 0.0 && c.height > 0.0
    requires forall k :: 0 <= k < |contexts| ==> contexts[k]
    ensures var icons := IconsFor(defs, contexts, c);
      && |icons| == |defs|
      && forall k :: 0 <= k < |defs| ==> icons[k] == IconOf(defs[k], c)
  {
    if |defs| > 0 {
      var n := |defs| - 1;
      IconsForAll(defs[..n], contexts[..n], c);
    }
  }

  /** Every generated icon is the icon of a definition whose context was
      available. */
  lemma {:induction false} IconsForOrigin(defs: seq<IconDefinition>, contexts: seq<bool>, c: Crop, k: nat)
    requires |contexts| == |defs| && PositiveSizes(defs) && c.width > 0.0 && c.height > 0.0
    requires k < |IconsFor(defs, contexts, c)|
    ensures exists j :: 0 <= j < |defs| && contexts[j] && IconsFor(defs, contexts, c)[k] == IconOf(defs[j], c)
  {
    var n := |defs| - 1;
    var front := IconsFor(defs[..n], contexts[..n], c);
    if k < |front| {
      IconsForOrigin(defs[..n], contexts[..n], c, k);
      var j :| 0 <= j < n && contexts[..n][j] && front[k] == IconOf(defs[..n][j], c);
      assert contexts[j] && defs[j] == defs[..n][j];
    } else {
      assert IconsFor(defs, contexts, c)[k] == IconOf(defs[n], c);
    }
  }

  /** The number of definitions whose context was obtained. */
  function Obtained(contexts: seq<bool>): (n: nat)
    ensures n <= |contexts|
  {
    if |contexts| == 0 then 0
    else Obtained(contexts[..|contexts| - 1]) + (if contexts[|contexts| - 1] then 1 else 0)
  }

  /** A definition with an obtained context comes after every earlier one in
      the count: an obtained context at `i` is counted before `j`. */
  lemma {:induction false} ObtainedGrows(contexts: seq<bool>, i: nat, j: nat)
    requires i < j <= |contexts| && contexts[i]
    ensures Obtained(contexts[..i]) < Obtained(contexts[..j])
  {
    var cs := contexts[..j];
    assert cs[..j - 1] == contexts[..j - 1];
    if i == j - 1 {
      assert cs[j - 1] == contexts[i];
    } else {
      ObtainedGrows(contexts, i, j - 1);
    }
  }

  /** Each definition whose context was obtained yields exactly one icon, at
      the position given by the number of obtained contexts before it, so the
      icons keep definition order and the skipped definitions (`continue`) leave
      no gap; there are as many icons as obtained contexts. */
  lemma {:induction false} IconsForRank(defs: seq<IconDefinition>, contexts: seq<bool>, c: Crop)
    requires |contexts| == |defs| && PositiveSizes(defs) && c.width > 0.0 && c.height > 0.0
    ensures var icons := IconsFor(defs, contexts, c);
      && |icons| == Obtained(contexts)
      && forall j :: 0 <= j < |defs| && contexts[j] ==>
           Obtained(contexts[..j]) < |icons| && icons[Obtained(contexts[..j])] == IconOf(defs[j], c)
  {
    if |defs| > 0 {
      var n := |defs| - 1;
      var front := IconsFor(defs[..n], contexts[..n], c);
      var icons := IconsFor(defs, contexts, c);
      IconsForRank(defs[..n], contexts[..n], c);
      assert icons == front + (if contexts[n] then [IconOf(defs[n], c)] else []);
      assert contexts[..n] == contexts[..|contexts| - 1];
      forall j | 0 <= j < |defs| && contexts[j]
        ensures Obtained(contexts[..j]) < |icons| && icons[Obtained(contexts[..j])] == IconOf(defs[j], c)
      {
        if j < n {
          assert contexts[..n][..j] == contexts[..j];
          assert contexts[..n][j] == contexts[j] && defs[..n][j] == defs[j];
        } else {
          assert contexts[..j] == contexts[..n];
        }
      }
    }
  }

  /** An icon's drawn region fits the icon, keeps the crop's aspect ratio and
      is centred. */
  lemma IconOfFits(def: IconDefinition, c: Crop)
    requires def.width > 0 && def.height > 0 && c.width > 0.0 && c.height > 0.0
    ensures var icon := IconOf(def, c);
      && icon.dest.x >= 0.0 && icon.dest.y >= 0.0
      && icon.dest.x + icon.dest.width <= icon.width as real
      && icon.dest.y + icon.dest.height <= icon.height as real
      && icon.dest.width * c.height == icon.dest.height * c.width
      && 2.0 * icon.dest.x + icon.dest.width == icon.width as real
      && 2.0 * icon.dest.y + icon.dest.height == icon.height as real
  {
    LetterboxFits(c.width, c.height, def.width as real, def.height as real);
  }

  // ---------------------------------------------------------------- custom sizes

  /** The sort key of the custom sizes. */
  function Area(d: IconDefinition): int
  {
    d.width * d.height
  }

  predicate SameSize(d: IconDefinition, width: int, height: int)
  {
    d.width == width && d.height == height
  }

  /** A custom size list as the application keeps it: sorted by area, no size
      twice, every size positive. */
  predicate SizeList(s: seq<IconDefinition>)
  {
    SortedByArea(s) && DistinctSizes(s) && PositiveSizes(s)
  }

  /** Some entry has this width and height. */
  predicate HasSize(s: seq<IconDefinition>, width: int, height: int)
  {
    exists k :: 0 <= k < |s| && SameSize(s[k], width, height)
  }

  predicate SortedByArea(s: seq<IconDefinition>)
  {
    forall i, j :: 0 <= i < j < |s| ==> Area(s[i]) <= Area(s[j])
  }

  /** No two entries have the same width and height. */
  predicate DistinctSizes(s: seq<IconDefinition>)
  {
    forall i, j :: 0 <= i < j < |s| ==> !SameSize(s[j], s[i].width, s[i].height)
  }

  /** Places `x` after every entry whose area does not exceed its own, scanning
      from the end: the step of a stable insertion sort. */
  function InsertByArea(s: seq<IconDefinition>, x: IconDefinition): seq<IconDefinition>
  {
    if |s| == 0 || Area(s[|s| - 1]) <= Area(x) then s + [x]
    else InsertByArea(s[..|s| - 1], x) + [s[|s| - 1]]
  }

  /** `Array.prototype.sort` with the area comparator. The sort is stable, and
      a stable sort's result is determined by the comparator alone, so the
      stable insertion sort defines it. */
  function SortByArea(s: seq<IconDefinition>): seq<IconDefinition>
  {
    if |s| == 0 then []
    else InsertByArea(SortByArea(s[..|s| - 1]), s[|s| - 1])
  }

  /** Insertion adds exactly the one entry. */
  lemma {:induction false} InsertByAreaPermutes(s: seq<IconDefinition>, x: IconDefinition)
    ensures multiset(InsertByArea(s, x)) == multiset(s) + multiset{x}
  {
    if |s| > 0 && Area(s[|s| - 1]) > Area(x) {
      var n := |s| - 1;
      InsertByAreaPermutes(s[..n], x);
      assert s == s[..n] + [s[n]];
    }
  }

  lemma InsertByAreaMembers(s: seq<IconDefinition>, x: IconDefinition)
    ensures forall y :: y in InsertByArea(s, x) <==> y in s || y == x
  {
    InsertByAreaPermutes(s, x);
    forall y
      ensures y in InsertByArea(s, x) <==> y in s || y == x
    {
      assert y in InsertByArea(s, x) <==> y in multiset(InsertByArea(s, x));
      assert y in s <==> y in multiset(s);
    }
  }

  /** A sorted list stays sorted when an entry is appended that is no smaller
      than any of its entries. */
  lemma SortedSnoc(t: seq<IconDefinition>, y: IconDefinition)
    requires SortedByArea(t) && forall z :: z in t ==> Area(z) <= Area(y)
    ensures SortedByArea(t + [y])
  {
    forall i, j | 0 <= i < j < |t + [y]|
      ensures Area((t + [y])[i]) <= Area((t + [y])[j])
    {
      if j == |t| {
        assert (t + [y])[i] == t[i] && t[i] in t;
      }
    }
  }

  /** Insertion keeps a sorted list sorted. */
  lemma {:induction false} InsertByAreaSorted(s: seq<IconDefinition>, x: IconDefinition)
    requires SortedByArea(s)
    ensures SortedByArea(InsertByArea(s, x))
  {
    var n := |s| - 1;
    if |s| == 0 || Area(s[n]) <= Area(x) {
      forall z | z in s
        ensures Area(z) <= Area(x)
      {
        var i :| 0 <= i < |s| && s[i] == z;
        assert i == n || Area(s[i]) <= Area(s[n]);
      }
      SortedSnoc(s, x);
    } else {
      assert SortedByArea(s[..n]);
      InsertByAreaSorted(s[..n], x);
      InsertByAreaMembers(s[..n], x);
      forall z | z in InsertByArea(s[..n], x)
        ensures Area(z) <= Area(s[n])
      {
        if z != x {
          var i :| 0 <= i < n && s[..n][i] == z;
          assert s[i] == z;
        }
      }
      SortedSnoc(InsertByArea(s[..n], x), s[n]);
    }
  }

  /** The sort orders the list by area and permutes it. */
  lemma {:induction false} SortByAreaSpec(s: seq<IconDefinition>)
    ensures SortedByArea(SortByArea(s))
    ensures multiset(SortByArea(s)) == multiset(s)
  {
    if |s| > 0 {
      var n := |s| - 1;
      SortByAreaSpec(s[..n]);
      InsertByAreaSorted(SortByArea(s[..n]), s[n]);
      InsertByAreaPermutes(SortByArea(s[..n]), s[n]);
      assert s == s[..n] + [s[n]];
    }
  }

  /** Sorting a sorted list leaves it as it is. */
  lemma {:induction false} SortByAreaSorted(s: seq<IconDefinition>)
    requires SortedByArea(s)
    ensures SortByArea(s) == s
  {
    if |s| > 0 {
      var n := |s| - 1;
      var init := s[..n];
      assert SortedByArea(init) by {
        forall i, j | 0 <= i < j < |init|
          ensures Area(init[i]) <= Area(init[j])
        {
          assert init[i] == s[i] && init[j] == s[j];
        }
      }
      SortByAreaSorted(init);
      assert SortByArea(s) == InsertByArea(init, s[n]);
      if n > 0 {
        assert init[n - 1] == s[n - 1];
        assert Area(s[n - 1]) <= Area(s[n]);
      }
      assert InsertByArea(init, s[n]) == init + [s[n]];
      assert init + [s[n]] == s;
    }
  }

  /** Appending to a sorted list and sorting inserts the new entry after every
      entry of no greater area. */
  lemma {:induction false} SortAppended(s: seq<IconDefinition>, x: IconDefinition)
    requires SortedByArea(s)
    ensures SortByArea(s + [x]) == InsertByArea(s, x)
  {
    assert (s + [x])[..|s|] == s;
    SortByAreaSorted(s);
  }

  /** A list of distinct sizes stays so when an entry of yet another size is
      appended. */
  lemma DistinctSnoc(t: seq<IconDefinition>, y: IconDefinition)
    requires DistinctSizes(t) && forall z :: z in t ==> !SameSize(y, z.width, z.height)
    ensures DistinctSizes(t + [y])
  {
    forall i, j | 0 <= i < j < |t + [y]|
      ensures !SameSize((t + [y])[j], (t + [y])[i].width, (t + [y])[i].height)
    {
      if j == |t| {
        assert (t + [y])[i] == t[i] && t[i] in t;
      }
    }
  }

  /** Inserting an entry of a new size keeps the sizes distinct. */
  lemma {:induction false} InsertDistinct(s: seq<IconDefinition>, x: IconDefinition)
    requires DistinctSizes(s) && forall z :: z in s ==> !SameSize(x, z.width, z.height)
    ensures DistinctSizes(InsertByArea(s, x))
  {
    var n := |s| - 1;
    if |s| == 0 || Area(s[n]) <= Area(x) {
      DistinctSnoc(s, x);
    } else {
      assert DistinctSizes(s[..n]);
      InsertDistinct(s[..n], x);
      InsertByAreaMembers(s[..n], x);
      forall z | z in InsertByArea(s[..n], x)
        ensures !SameSize(s[n], z.width, z.height)
      {
        if z != x {
          var i :| 0 <= i < n && s[..n][i] == z;
          assert s[i] == z;
        } else {
          assert s[n] in s;
        }
      }
      DistinctSnoc(InsertByArea(s[..n], x), s[n]);
    }
  }

  /** Adding an entry of a new positive size to a sorted list of distinct
      positive sizes, then sorting, inserts it and keeps all three properties. */
  lemma AddKeepsSizes(s: seq<IconDefinition>, x: IconDefinition)
    requires SizeList(s) && x.width > 0 && x.height > 0 && !HasSize(s, x.width, x.height)
    ensures var r := SortByArea(s + [x]);
      r == InsertByArea(s, x) && SizeList(r)
      && multiset(r) == multiset(s) + multiset{x}
  {
    SortAppended(s, x);
    InsertByAreaSorted(s, x);
    InsertByAreaPermutes(s, x);
    InsertByAreaMembers(s, x);
    forall z | z in s
      ensures !SameSize(x, z.width, z.height)
    {
      var k :| 0 <= k < |s| && s[k] == z;
    }
    InsertDistinct(s, x);
    var r := InsertByArea(s, x);
    forall k | 0 <= k < |r|
      ensures r[k].width > 0 && r[k].height > 0
    {
      assert r[k] in r;
      if r[k] != x {
        var i :| 0 <= i < |s| && s[i] == r[k];
      }
    }
  }

  /** The list without the entries of one size, order kept
      (`prev.filter(...)`). */
  function WithoutSize(s: seq<IconDefinition>, width: int, height: int): seq<IconDefinition>
  {
    if |s| == 0 then []
    else (if SameSize(s[0], width, height) then [] else [s[0]]) + WithoutSize(s[1..], width, height)
  }

  /** The entries of one size, in order (what the filter drops). */
  function Matching(s: seq<IconDefinition>, width: int, height: int): seq<IconDefinition>
  {
    if |s| == 0 then []
    else (if SameSize(s[0], width, height) then [s[0]] else []) + Matching(s[1..], width, height)
  }

  /** The filter keeps exactly the entries of other sizes, and every entry is
      either kept or dropped. */
  lemma {:induction false} WithoutSizeSplits(s: seq<IconDefinition>, width: int, height: int)
    ensures forall y :: y in WithoutSize(s, width, height) <==> y in s && !SameSize(y, width, height)
    ensures forall y :: y in Matching(s, width, height) ==> SameSize(y, width, height)
    ensures multiset(s) == multiset(WithoutSize(s, width, height)) + multiset(Matching(s, width, height))
  {
    if |s| > 0 {
      WithoutSizeSplits(s[1..], width, height);
      assert s == [s[0]] + s[1..];
    }
  }

  /** Removing a size keeps the list sorted and its sizes distinct. */
  lemma {:induction false} WithoutSizeKeeps(s: seq<IconDefinition>, width: int, height: int)
    ensures SortedByArea(s) ==> SortedByArea(WithoutSize(s, width, height))
    ensures DistinctSizes(s) ==> DistinctSizes(WithoutSize(s, width, height))
  {
    if |s| > 0 {
      var rest := WithoutSize(s[1..], width, height);
      assert SortedByArea(s) ==> SortedByArea(s[1..]);
      assert DistinctSizes(s) ==> DistinctSizes(s[1..]);
      WithoutSizeKeeps(s[1..], width, height);
      WithoutSizeSplits(s[1..], width, height);
      if !SameSize(s[0], width, height) {
        forall y | y in rest
          ensures SortedByArea(s) ==> Area(s[0]) <= Area(y)
          ensures DistinctSizes(s) ==> !SameSize(y, s[0].width, s[0].height)
        {
          var i :| 0 <= i < |s[1..]| && s[1..][i] == y;
          assert s[i + 1] == y;
        }
        SortedCons(s[0], rest);
        DistinctCons(s[0], rest);
      }
    }
  }

  lemma SortedCons(y: IconDefinition, t: seq<IconDefinition>)
    ensures SortedByArea(t) && (forall z :: z in t ==> Area(y) <= Area(z)) ==> SortedByArea([y] + t)
  {
    if SortedByArea(t) && (forall z :: z in t ==> Area(y) <= Area(z)) {
      forall i, j | 0 <= i < j < |[y] + t|
        ensures Area(([y] + t)[i]) <= Area(([y] + t)[j])
      {
        if i == 0 {
          assert ([y] + t)[j] == t[j - 1] && t[j - 1] in t;
        }
      }
    }
  }

  lemma DistinctCons(y: IconDefinition, t: seq<IconDefinition>)
    ensures DistinctSizes(t) && (forall z :: z in t ==> !SameSize(z, y.width, y.height)) ==> DistinctSizes([y] + t)
  {
    if DistinctSizes(t) && (forall z :: z in t ==> !SameSize(z, y.width, y.height)) {
      forall i, j | 0 <= i < j < |[y] + t|
        ensures !SameSize(([y] + t)[j], ([y] + t)[i].width, ([y] + t)[i].height)
      {
        if i == 0 {
          assert ([y] + t)[j] == t[j - 1] && t[j - 1] in t;
        }
      }
    }
  }

  /** The filename of a custom size: `custom-<w>x<h>.png`. */
  function CustomFilename(width: int, height: int): string
  {
    "custom-" + IntToString(width) + "x" + IntToString(height) + ".png"
  }

  /** The custom filename names the size: the digits between the dash and the
      'x' read back as the width, and those between the 'x' and `.png` as the
      height. */
  lemma CustomFilenameNamesSize(width: nat, height: nat)
    ensures var f := CustomFilename(width, height);
      var n := 7 + |IntToString(width)|;
      && f[..7] == "custom-" && f[|f| - 4..] == ".png" && f[n] == 'x'
      && ParseInt(f[7..n]) == Some(width)
      && ParseInt(f[n + 1..|f| - 4]) == Some(height)
  {
    var f := CustomFilename(width, height);
    var w, h := IntToString(width), IntToString(height);
    var tail := "x" + h + ".png";
    var n := 7 + |w|;
    assert f == "custom-" + w + tail;
    assert f[..7] == "custom-";
    assert f[7..n] == w;
    assert f[n] == 'x';
    assert f[n + 1..|f| - 4] == h;
    assert f[|f| - 4..] == tail[|tail| - 4..] == ".png";
    ParseIntToString(width);
    ParseIntToString(height);
  }

  // ---------------------------------------------------------------- modes and URL parameters

  function ModeId(m: AppMode): string
  {
    match m
    case Generator => "generator"
    case Converter => "converter"
    case QrGenerator => "qrGenerator"
    case Editor => "editor"
  }

  /** The `mode` URL parameter: accepted only when it is one of the four ids. */
  function AcceptMode(s: string): (m: Option<AppMode>)
    ensures m.Some? ==> ModeId(m.value) == s
    ensures m.None? ==> forall x: AppMode :: ModeId(x) != s
  {
    if s == "generator" then Some(Generator)
    else if s == "converter" then Some(Converter)
    else if s == "qrGenerator" then Some(QrGenerator)
    else if s == "editor" then Some(Editor)
    else None
  }

  lemma AcceptModeId(m: AppMode)
    ensures AcceptMode(ModeId(m)) == Some(m)
  {
  }

  /** The mode after the URL parameters: an accepted `mode` wins; an image
      fetched without any `mode` opens the converter. */
  function ModeAfterUrl(current: AppMode, urlMode: Option<string>, imageFetched: bool): (m: AppMode)
    ensures urlMode.Some? && AcceptMode(urlMode.value).Some? ==> m == AcceptMode(urlMode.value).value
    ensures (urlMode.None? || urlMode.value == "") && imageFetched ==> m == Converter
    ensures (urlMode.None? || urlMode.value == "") && !imageFetched ==> m == current
    ensures urlMode.Some? && urlMode.value != "" && AcceptMode(urlMode.value).None? ==> m == current
  {
    var m1 := if urlMode.Some? && AcceptMode(urlMode.value).Some? then AcceptMode(urlMode.value).value else current;
    if imageFetched && (urlMode.None? || urlMode.value == "") then Converter else m1
  }

  /** The name of a fetched image: the URL without its query, after its last
      '/', or 'remote-image.jpg' when that is empty. */
  function RemoteFilename(url: string): (f: string)
    ensures f != ""
    ensures var clean := BeforeFirst(url, '?');
      (clean == "" || clean[|clean| - 1] == '/') ==> f == "remote-image.jpg"
    ensures var clean := BeforeFirst(url, '?');
      !(clean == "" || clean[|clean| - 1] == '/') ==>
        && '/' !in f && '?' !in f && |f| <= |clean| && f == clean[|clean| - |f|..]
        && (|f| == |clean| || clean[|clean| - |f| - 1] == '/')
  {
    var clean := BeforeFirst(url, '?');
    var name := AfterLast(clean, '/');
    if name == "" then "remote-image.jpg" else name
  }

  /** A URL whose path ends in a name is saved under that name, with or
      without a query. */
  lemma RemoteFilenameOfUrl(base: string, name: string, query: string)
    requires '?' !in base && '?' !in name && '/' !in name && name != ""
    ensures RemoteFilename(base + "/" + name + "?" + query) == name
    ensures RemoteFilename(base + "/" + name) == name
  {
    var clean := base + "/" + name;
    var url := clean + "?" + query;
    assert '?' !in clean;
    var r := BeforeFirst(url, '?');
    assert url[|clean|] == '?' && url[..|clean|] == clean;
    assert r == clean;
    assert BeforeFirst(clean, '?') == clean;
    AfterLastSlash(base, name);
  }

  /** The text after the last '/' of `base/name` is `name`. */
  lemma AfterLastSlash(base: string, name: string)
    requires '/' !in name
    ensures AfterLast(base + "/" + name, '/') == name
  {
    var clean := base + "/" + name;
    var i := LastIndexOf(clean, '/');
    assert clean[|base|] == '/';
    assert i == |base|;
    assert clean[|base| + 1..] == name;
  }

  lemma RemoteFilenameExamples()
    ensures RemoteFilename("h/a?v") == "a"
    ensures RemoteFilename("h/") == "remote-image.jpg"
  {
    assert BeforeFirst("h/a?v", '?') == "h/a" by {
      assert IndexOf("h/a?v", '?') == 3;
    }
    assert LastIndexOf("h/a", '/') == 1;
    assert LastIndexOf("h/", '/') == 1;
  }

  predicate Seamless(m: AppMode)
  {
    m == Converter || m == Editor || m == Generator
  }

  /** Whether a mode change discards the image: unless both modes share the
      image or the new mode is the QR generator. */
  predicate ModeChangeResets(from: AppMode, to: AppMode)
  {
    !(Seamless(from) && Seamless(to)) && to != QrGenerator
  }

  lemma ModeChangeResetsCases(from: AppMode, to: AppMode)
    ensures ModeChangeResets(from, to) <==> (from == QrGenerator && to != QrGenerator)
  {
  }

  /** One pass of the `processImage` loop: the letterbox of the crop into
      the icon, then the icon record. */
  method DrawIcon(def: IconDefinition, c: Crop) returns (icon: Icon)
    requires def.width > 0 && def.height > 0 && c.width > 0.0 && c.height > 0.0
    ensures icon == IconOf(def, c)
  {
    var dest := LetterboxSteps(c.width, c.height, def.width as real, def.height as real);
    icon := Icon(def.width, def.height, def.filename, dest);
  }

  /** The `processImage` loop: one icon per definition whose canvas context
      is available, pushed in order. */
  method GenerateIcons(defs: seq<IconDefinition>, contexts: seq<bool>, c: Crop) returns (icons: seq<Icon>)
    requires |contexts| == |defs| && PositiveSizes(defs) && c.width > 0.0 && c.height > 0.0
    ensures icons == IconsFor(defs, contexts, c)
  {
    icons := [];
    for k := 0 to |defs|
      invariant icons == IconsFor(defs[..k], contexts[..k], c)
    {
      assert defs[..k + 1][..k] == defs[..k] && contexts[..k + 1][..k] == contexts[..k];
      if contexts[k] {
        var icon := DrawIcon(defs[k], c);
        icons := icons + [icon];
      }
    }
    assert defs[..|defs|] == defs && contexts[..|defs|] == contexts;
  }

  // ---------------------------------------------------------------- the application state

  class AppState {
    var mode: AppMode
    var imageFiles: seq<FileInfo>
    var editedDataUrl: Option<string>
    var crop: Option<Crop>
    var selectedProfileId: string
    var generatedIcons: seq<Icon>
    var customIcons: seq<IconDefinition>
    var aspectLocked: bool
    var imgInfo: Option<ImageEditor.ImgInfo>
    var loadedFromUrl: bool

    ghost predicate Valid()
      reads this
    {
      && SizeList(customIcons)
      && (imgInfo.Some? ==> ImageEditor.Measured(imgInfo.value))
    }

    constructor()
      ensures Valid()
      ensures mode == Editor && imageFiles == [] && editedDataUrl == None && crop == None
      ensures selectedProfileId == "favicon" && generatedIcons == [] && customIcons == []
      ensures !aspectLocked && imgInfo == None && !loadedFromUrl
    {
      mode := Editor;
      imageFiles := [];
      editedDataUrl := None;
      crop := None;
      selectedProfileId := "favicon";
      generatedIcons := [];
      customIcons := [];
      aspectLocked := false;
      imgInfo := None;
      loadedFromUrl := false;
    }

    /** `handleImageUpload`: new files replace the old ones, and the crop, the
        icons, the measurement, the lock and the edited image are reset. */
    method ImageUpload(files: seq<FileInfo>, fromUrl: bool)
      requires Valid()
      modifies this
      ensures Valid()
      ensures imageFiles == files && crop == None && generatedIcons == [] && imgInfo == None
      ensures !aspectLocked && editedDataUrl == None
      ensures loadedFromUrl == (if fromUrl then old(loadedFromUrl) else false)
      ensures mode == old(mode) && selectedProfileId == old(selectedProfileId) && customIcons == old(customIcons)
    {
      imageFiles := files;
      crop := None;
      generatedIcons := [];
      imgInfo := None;
      aspectLocked := false;
      editedDataUrl := None;
      if !fromUrl {
        loadedFromUrl := false;
      }
    }

    /** `handleNewImage`: back to the upload screen. */
    method NewImage()
      requires Valid()
      modifies this
      ensures Valid()
      ensures imageFiles == [] && crop == None && generatedIcons == [] && imgInfo == None
      ensures editedDataUrl == None && !loadedFromUrl
      ensures mode == old(mode) && selectedProfileId == old(selectedProfileId)
      ensures customIcons == old(customIcons) && aspectLocked == old(aspectLocked)
    {
      imageFiles := [];
      crop := None;
      generatedIcons := [];
      imgInfo := None;
      editedDataUrl := None;
      loadedFromUrl := false;
    }

    /** `handleClearCrop`. */
    method ClearCrop()
      requires Valid()
      modifies this
      ensures Valid() && crop == None && generatedIcons == [] && !aspectLocked
      ensures mode == old(mode) && imageFiles == old(imageFiles) && editedDataUrl == old(editedDataUrl)
      ensures selectedProfileId == old(selectedProfileId) && customIcons == old(customIcons)
      ensures imgInfo == old(imgInfo) && loadedFromUrl == old(loadedFromUrl)
    {
      crop := None;
      generatedIcons := [];
      aspectLocked := false;
    }

    /** The editor reports the measured image. */
    method ReceiveImgInfo(i: ImageEditor.ImgInfo)
      requires Valid() && ImageEditor.Measured(i)
      modifies this
      ensures Valid() && imgInfo == Some(i)
      ensures mode == old(mode) && imageFiles == old(imageFiles) && editedDataUrl == old(editedDataUrl)
      ensures crop == old(crop) && selectedProfileId == old(selectedProfileId) && generatedIcons == old(generatedIcons)
      ensures customIcons == old(customIcons) && aspectLocked == old(aspectLocked) && loadedFromUrl == old(loadedFromUrl)
    {
      imgInfo := Some(i);
    }

    /** `handleInitiateSquareCrop`: nothing before the image is measured; then
        the centred square, with the aspect locked. */
    method InitiateSquareCrop()
      requires Valid()
      modifies this
      ensures Valid()
      ensures old(imgInfo).None? ==> crop == old(crop) && aspectLocked == old(aspectLocked)
      ensures old(imgInfo).Some? ==>
        crop == Some(SquareCrop(old(imgInfo).value.naturalWidth, old(imgInfo).value.naturalHeight)) && aspectLocked
      ensures mode == old(mode) && imageFiles == old(imageFiles) && editedDataUrl == old(editedDataUrl)
      ensures selectedProfileId == old(selectedProfileId) && generatedIcons == old(generatedIcons)
      ensures customIcons == old(customIcons) && imgInfo == old(imgInfo) && loadedFromUrl == old(loadedFromUrl)
    {
      if imgInfo.None? {
        return;
      }
      var nw, nh := imgInfo.value.naturalWidth, imgInfo.value.naturalHeight;
      var aspect := nw / nh;
      var sqWidth, sqHeight, sx, sy;
      if aspect > 1.0 {
        sqHeight := nh;
        sqWidth := sqHeight;
        sx := (nw - sqWidth) / 2.0;
        sy := 0.0;
      } else {
        sqWidth := nw;
        sqHeight := sqWidth;
        sx := 0.0;
        sy := (nh - sqHeight) / 2.0;
      }
      crop := Some(Crop(sx, sy, sqWidth, sqHeight));
      aspectLocked := true;
    }

    /** `handleInitiateFullScreenCrop`: the whole image, with the aspect unlocked. */
    method InitiateFullScreenCrop()
      requires Valid()
      modifies this
      ensures Valid()
      ensures old(imgInfo).None? ==> crop == old(crop) && aspectLocked == old(aspectLocked)
      ensures old(imgInfo).Some? ==>
        crop == Some(FullCrop(old(imgInfo).value.naturalWidth, old(imgInfo).value.naturalHeight)) && !aspectLocked
      ensures mode == old(mode) && imageFiles == old(imageFiles) && editedDataUrl == old(editedDataUrl)
      ensures selectedProfileId == old(selectedProfileId) && generatedIcons == old(generatedIcons)
      ensures customIcons == old(customIcons) && imgInfo == old(imgInfo) && loadedFromUrl == old(loadedFromUrl)
    {
      if imgInfo.None? {
        return;
      }
      crop := Some(Crop(0.0, 0.0, imgInfo.value.naturalWidth, imgInfo.value.naturalHeight));
      aspectLocked := false;
    }

    /** `handleModeChange`: the image is discarded as `ModeChangeResets` says,
        then the mode changes. */
    method ModeChange(newMode: AppMode)
      requires Valid()
      modifies this
      ensures Valid() && mode == newMode
      ensures ModeChangeResets(old(mode), newMode) ==>
        imageFiles == [] && crop == None && generatedIcons == [] && imgInfo == None
        && editedDataUrl == None && !loadedFromUrl
      ensures !ModeChangeResets(old(mode), newMode) ==>
        imageFiles == old(imageFiles) && crop == old(crop) && generatedIcons == old(generatedIcons)
        && imgInfo == old(imgInfo) && editedDataUrl == old(editedDataUrl) && loadedFromUrl == old(loadedFromUrl)
      ensures selectedProfileId == old(selectedProfileId) && customIcons == old(customIcons)
      ensures aspectLocked == old(aspectLocked)
    {
      var seamlessSwitch := Seamless(mode) && Seamless(newMode);
      if !seamlessSwitch && newMode != QrGenerator {
        NewImage();
      }
      mode := newMode;
    }

    /** `handleAddCustomIcon`: a size already in the list is ignored; otherwise
        the entry `custom-<w>x<h>.png` is appended and the list re-sorted by area. */
    method AddCustomIcon(width: int, height: int)
      requires Valid() && width > 0 && height > 0
      modifies this
      ensures Valid()
      ensures HasSize(old(customIcons), width, height) ==> customIcons == old(customIcons)
      ensures !HasSize(old(customIcons), width, height) ==> customIcons == SortByArea(old(customIcons) + [IconDefinition(width, height, CustomFilename(width, height))])
      ensures mode == old(mode) && imageFiles == old(imageFiles) && editedDataUrl == old(editedDataUrl)
      ensures crop == old(crop) && selectedProfileId == old(selectedProfileId) && generatedIcons == old(generatedIcons)
      ensures aspectLocked == old(aspectLocked) && imgInfo == old(imgInfo) && loadedFromUrl == old(loadedFromUrl)
    {
      var alreadyExists := exists k :: 0 <= k < |customIcons| && SameSize(customIcons[k], width, height);
      assert alreadyExists == HasSize(customIcons, width, height);
      if alreadyExists {
        return;
      }
      var newIcon := IconDefinition(width, height, CustomFilename(width, height));
      AddKeepsSizes(customIcons, newIcon);
      var sorted := SortByArea(customIcons + [newIcon]);
      customIcons := sorted;
    }

    /** `handleRemoveCustomIcon`: every entry of that size is dropped. */
    method RemoveCustomIcon(width: int, height: int)
      requires Valid()
      modifies this
      ensures Valid() && customIcons == WithoutSize(old(customIcons), width, height)
      ensures mode == old(mode) && imageFiles == old(imageFiles) && editedDataUrl == old(editedDataUrl)
      ensures crop == old(crop) && selectedProfileId == old(selectedProfileId) && generatedIcons == old(generatedIcons)
      ensures aspectLocked == old(aspectLocked) && imgInfo == old(imgInfo) && loadedFromUrl == old(loadedFromUrl)
    {
      WithoutSizeKeeps(customIcons, width, height);
      WithoutSizeSplits(customIcons, width, height);
      var kept := WithoutSize(customIcons, width, height);
      assert PositiveSizes(kept) by {
        forall k | 0 <= k < |kept|
          ensures kept[k].width > 0 && kept[k].height > 0
        {
          assert kept[k] in customIcons;
        }
      }
      customIcons := kept;
    }

    /** The definitions the selected profile generates. */
    function Definitions(): (defs: seq<IconDefinition>)
      reads this
      requires Valid()
      ensures PositiveSizes(defs)
    {
      var p := SelectedProfile(selectedProfileId);
      if p.id == "custom" then customIcons else p.icons
    }

    predicate HasActiveImage()
      reads this
    {
      (editedDataUrl.Some? && editedDataUrl.value != "") || |imageFiles| > 0
    }

    /** `processImage`: nothing without an image or a crop of positive size;
        otherwise one icon per definition whose canvas context is available
        (`contexts`), in order, the crop letterboxed into each. */
    method ProcessImage(contexts: seq<bool>)
      requires Valid() && |contexts| == |Definitions()|
      modifies this
      ensures Valid()
      ensures var c := old(crop);
        && (!old(HasActiveImage()) || c.None? || c.value.width <= 0.0 || c.value.height <= 0.0 ==>
              generatedIcons == old(generatedIcons))
        && (old(HasActiveImage()) && c.Some? && c.value.width > 0.0 && c.value.height > 0.0 ==>
              generatedIcons == IconsFor(old(Definitions()), contexts, c.value))
      ensures mode == old(mode) && imageFiles == old(imageFiles) && editedDataUrl == old(editedDataUrl)
      ensures crop == old(crop) && selectedProfileId == old(selectedProfileId) && customIcons == old(customIcons)
      ensures aspectLocked == old(aspectLocked) && imgInfo == old(imgInfo) && loadedFromUrl == old(loadedFromUrl)
    {
      if !HasActiveImage() || crop.None? || crop.value.width <= 0.0 || crop.value.height <= 0.0 {
        return;
      }
      var icons := GenerateIcons(Definitions(), contexts, crop.value);
      generatedIcons := icons;
    }
  }
}
