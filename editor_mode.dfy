/** The full image editor's own state (components/ImageEditorMode.tsx): the
    cancellable debounce, the undo history with its lock, the flips of the
    background image, zoom limits and the initial fit, the properties panel's
    opacity and colour mapping, and the tool bar. The canvas library's objects
    are reduced to the properties the editor reads and writes; a history entry
    is an opaque snapshot. */
module EditorMode {
  import opened Util
  import opened Types

  // ---------------------------------------------------------------- debounce

  /** The timers a `timeout` variable may name. */
  function Named(timeout: Option<nat>): set<nat>
  {
    if timeout.Some? then {timeout.value} else {}
  }

  /** A set inside a one-element (or empty) set has at most one element. */
  lemma AtMostOne(live: set<nat>, timeout: Option<nat>)
    requires live <= Named(timeout)
    ensures |live| <= 1
  {
    if timeout.Some? {
      if live != {} {
        assert live == {timeout.value};
      }
    } else {
      assert live == {};
    }
  }

  /** `debounce(func, wait)`: the `timeout` variable, the timers the browser
      still holds, the next timer id it hands out, and how often `func` was called. */
  class Debouncer {
    const wait: nat
    var timeout: Option<nat>
    var live: set<nat>
    var nextTimer: nat
    var runs: nat

    ghost predicate Valid()
      reads this
    {
      live <= Named(timeout) && (forall t :: t in live ==> t < nextTimer)
    }

    /** At most one invocation is ever pending. */
    lemma OnePending()
      requires Valid()
      ensures |live| <= 1
    {
      AtMostOne(live, timeout);
    }

    constructor(w: nat)
      ensures Valid() && wait == w && timeout.None? && live == {} && runs == 0
    {
      wait := w;
      timeout := None;
      live := {};
      nextTimer := 0;
      runs := 0;
    }

    /** Calling the debounced function clears the pending timer and sets a
        new one: exactly one invocation is pending afterwards. */
    method Call()
      requires Valid()
      modifies this
      ensures Valid() && live == {old(nextTimer)} && timeout == Some(old(nextTimer))
      ensures runs == old(runs)
    {
      if timeout.Some? {
        live := live - {timeout.value};
      }
      var t := nextTimer;
      nextTimer := nextTimer + 1;
      live := live + {t};
      timeout := Some(t);
    }

    /** `cancel`: the pending invocation, if any, never runs. The variable is
        left as it was. */
    method Cancel()
      requires Valid()
      modifies this
      ensures Valid() && live == {} && timeout == old(timeout) && runs == old(runs)
      ensures nextTimer == old(nextTimer)
    {
      if timeout.Some? {
        live := live - {timeout.value};
      }
      assert live == {};
    }

    /** The browser fires timer `t`: a pending one runs `func` once and clears
        the variable; a cleared one does nothing. */
    method Fire(t: nat)
      requires Valid()
      modifies this
      ensures Valid() && nextTimer == old(nextTimer)
      ensures t in old(live) ==> live == {} && timeout.None? && runs == old(runs) + 1
      ensures t !in old(live) ==> live == old(live) && timeout == old(timeout) && runs == old(runs)
    {
      if t in live {
        live := live - {t};
        assert live == {};
        timeout := None;
        runs := runs + 1;
      }
    }
  }

  // ---------------------------------------------------------------- history

  /** A serialised canvas (`toJSON(['backgroundImage'])`): the objects are
      opaque here, but the background image's flip flags are part of it, and
      loading the snapshot restores them. */
  datatype Snapshot = Snapshot(json: string, flipX: bool, flipY: bool)

  /** `updateHistory`'s new list: everything up to the current entry, then the
      new state. With index -1 (no history yet) only the new state. */
  function Pushed(history: seq<Snapshot>, index: int, s: Snapshot): (h: seq<Snapshot>)
    requires -1 <= index < |history|
    ensures |h| == index + 2 && h[index + 1] == s
  {
    history[..index + 1] + [s]
  }

  /** A push keeps every entry up to the current one and drops the redo tail;
      undoing it brings back the state that was current before it. */
  lemma PushedKeepsPast(history: seq<Snapshot>, index: int, s: Snapshot)
    requires -1 <= index < |history|
    ensures var h := Pushed(history, index, s);
      && h[..index + 1] == history[..index + 1]
      && (index >= 0 ==> h[index] == history[index])
      && |h| <= |history| + 1
  {
  }

  class History {
    var history: seq<Snapshot>
    var index: int
    var lock: bool
    var restoreTo: Option<int>
    var hasImage: bool
    var flipX: bool
    var flipY: bool

    /** The lock is held exactly while a restore runs, and outside a restore
        the current entry records the background's present flip flags. */
    ghost predicate Valid()
      reads this
    {
      && -1 <= index < |history|
      && (restoreTo.Some? <==> lock)
      && (restoreTo.Some? ==> 0 <= restoreTo.value < |history|)
      && (!lock && index >= 0 ==> history[index].flipX == flipX && history[index].flipY == flipY)
    }

    /** Before an image is loaded: no history, index -1. */
    constructor()
      ensures Valid() && history == [] && index == -1 && !lock && restoreTo.None? && !hasImage
      ensures !flipX && !flipY
    {
      history := [];
      index := -1;
      lock := false;
      restoreTo := None;
      hasImage := false;
      flipX, flipY := false, false;
    }

    /** `loadImageToCanvas` once the background is set: the canvas holds a new,
        unflipped image, and the history is its serialisation alone, current
        and unlocked. */
    method LoadImage(json: string)
      requires Valid() && restoreTo.None?
      modifies this
      ensures Valid() && history == [Snapshot(json, false, false)] && index == 0 && !lock && hasImage
      ensures restoreTo.None? && !flipX && !flipY
    {
      history := [];
      index := -1;
      flipX, flipY := false, false;
      history := [Snapshot(json, flipX, flipY)];
      index := 0;
      lock := false;
      hasImage := true;
    }

    /** `updateHistory`: nothing while the lock is held; otherwise the redo tail
        is dropped, the canvas serialised with its present flip flags, pushed
        and made current. */
    method UpdateHistory(json: string)
      requires Valid()
      modifies this
      ensures Valid() && lock == old(lock) && restoreTo == old(restoreTo) && hasImage == old(hasImage)
      ensures flipX == old(flipX) && flipY == old(flipY)
      ensures old(lock) ==> history == old(history) && index == old(index)
      ensures !old(lock) ==>
        history == Pushed(old(history), old(index), Snapshot(json, flipX, flipY)) && index == |history| - 1
    {
      if lock {
        return;
      }
      var newHistory := history[..index + 1];
      newHistory := newHistory + [Snapshot(json, flipX, flipY)];
      history := newHistory;
      index := |newHistory| - 1;
    }

    /** The undo button is disabled at the first entry. */
    predicate CanUndo()
      reads this
    {
      index > 0
    }

    /** `undo`: at index 0 or -1 nothing; otherwise the lock is taken and the
        previous entry starts loading. */
    method Undo()
      requires Valid()
      modifies this
      ensures Valid() && history == old(history) && index == old(index) && hasImage == old(hasImage)
      ensures flipX == old(flipX) && flipY == old(flipY)
      ensures !old(CanUndo()) ==> lock == old(lock) && restoreTo == old(restoreTo)
      ensures old(CanUndo()) ==> lock && restoreTo == Some(old(index) - 1)
    {
      if index <= 0 {
        return;
      }
      lock := true;
      var newIndex := index - 1;
      restoreTo := Some(newIndex);
    }

    /** The previous entry finished loading (`loadFromJSON`): the background
        takes the flip flags stored in it, the lock is released and it becomes
        current. The list is unchanged and the index is one less than before
        the undo. */
    method RestoreDone()
      requires Valid() && restoreTo.Some?
      modifies this
      ensures Valid() && history == old(history) && index == old(restoreTo).value
      ensures !lock && restoreTo.None? && hasImage == old(hasImage)
      ensures flipX == old(history)[old(restoreTo).value].flipX
      ensures flipY == old(history)[old(restoreTo).value].flipY
    {
      var restored := history[restoreTo.value];
      flipX, flipY := restored.flipX, restored.flipY;
      lock := false;
      index := restoreTo.value;
      restoreTo := None;
    }

    /** `transformCanvas`: with a background image, a flip negates its flag and
        records one history entry carrying the new flags; without one nothing
        happens. */
    method Flip(horizontal: bool, json: string)
      requires Valid()
      modifies this
      ensures Valid() && lock == old(lock) && restoreTo == old(restoreTo) && hasImage == old(hasImage)
      ensures !old(hasImage) ==>
        flipX == old(flipX) && flipY == old(flipY) && history == old(history) && index == old(index)
      ensures old(hasImage) ==>
        && flipX == (if horizontal then !old(flipX) else old(flipX))
        && flipY == (if horizontal then old(flipY) else !old(flipY))
        && (old(lock) ==> history == old(history) && index == old(index))
        && (!old(lock) ==>
              history == Pushed(old(history), old(index), Snapshot(json, flipX, flipY))
              && index == |history| - 1)
    {
      if !hasImage {
        return;
      }
      if horizontal {
        flipX := !flipX;
      } else {
        flipY := !flipY;
      }
      if lock {
        return;
      }
      var newHistory := history[..index + 1];
      newHistory := newHistory + [Snapshot(json, flipX, flipY)];
      history := newHistory;
      index := |newHistory| - 1;
    }
  }

  /** Flipping an image and undoing the flip gives back the flags it had: the
      flip's entry is pushed on top of the entry that recorded them, and the
      restore reads them back from it. */
  method FlipUndone(h: History, horizontal: bool, json: string)
    requires h.Valid() && h.hasImage && !h.lock && h.index >= 0
    modifies h
    ensures h.Valid() && !h.lock && h.hasImage
    ensures h.flipX == old(h.flipX) && h.flipY == old(h.flipY)
    ensures h.index == old(h.index) && h.history[..h.index + 1] == old(h.history[..h.index + 1])
  {
    h.Flip(horizontal, json);
    PushedKeepsPast(old(h.history), old(h.index), Snapshot(json, h.flipX, h.flipY));
    h.Undo();
    h.RestoreDone();
  }

  /** Two flips on the same axis give back the flags, and each pushes one
      entry, so the history grows by two. */
  method FlipTwice(h: History, horizontal: bool, json1: string, json2: string)
    requires h.Valid() && h.hasImage && !h.lock
    modifies h
    ensures h.Valid() && h.flipX == old(h.flipX) && h.flipY == old(h.flipY)
    ensures h.index == old(h.index) + 2 && |h.history| == old(h.index) + 3
    ensures h.history[..old(h.index) + 1] == old(h.history[..h.index + 1])
  {
    var start, past := h.index, h.history[..h.index + 1];
    h.Flip(horizontal, json1);
    PushedKeepsPast(old(h.history), start, h.history[start + 1]);
    var mid := h.history;
    assert mid[..start + 1] == past;
    h.Flip(horizontal, json2);
    PushedKeepsPast(mid, start + 1, h.history[start + 2]);
    assert h.history[..start + 1] == h.history[..start + 2][..start + 1] == mid[..start + 1];
  }

  // ---------------------------------------------------------------- zoom

  /** The zoom limits of the wheel and pinch handlers. */
  const MinZoom: real := 0.05
  const MaxZoom: real := 20.0

  /** Above 20 becomes 20, below 0.05 becomes 0.05. */
  function ClampZoom(z: real): (r: real)
    ensures MinZoom <= r <= MaxZoom
    ensures MinZoom <= z <= MaxZoom ==> r == z
  {
    var z1 := if z > MaxZoom then MaxZoom else z;
    if z1 < MinZoom then MinZoom else z1
  }

  /** A zoom factor applied to a zoom. */
  function Zoomed(zoom: real, factor: real): real
  {
    zoom * factor
  }

  /** The initial fit: 95% of the larger zoom at which the image still fits. */
  function FitZoom(canvasWidth: real, canvasHeight: real, imageWidth: real, imageHeight: real): real
    requires imageWidth > 0.0 && imageHeight > 0.0
  {
    MinReal(canvasWidth / imageWidth, canvasHeight / imageHeight) * 0.95
  }

  /** At the fit zoom the image takes at most 95% of the canvas on each axis. */
  lemma FitZoomFits(canvasWidth: real, canvasHeight: real, imageWidth: real, imageHeight: real)
    requires canvasWidth > 0.0 && canvasHeight > 0.0 && imageWidth > 0.0 && imageHeight > 0.0
    ensures var z := FitZoom(canvasWidth, canvasHeight, imageWidth, imageHeight);
      && z > 0.0
      && imageWidth * z <= 0.95 * canvasWidth && imageHeight * z <= 0.95 * canvasHeight
      && (imageWidth * z == 0.95 * canvasWidth || imageHeight * z == 0.95 * canvasHeight)
  {
    var zx, zy := canvasWidth / imageWidth, canvasHeight / imageHeight;
    var m := MinReal(zx, zy);
    assert zx * imageWidth == canvasWidth && zy * imageHeight == canvasHeight;
    assert imageWidth * (m * 0.95) == 0.95 * (imageWidth * m);
    assert imageHeight * (m * 0.95) == 0.95 * (imageHeight * m);
    assert imageWidth * m <= imageWidth * zx;
    assert imageHeight * m <= imageHeight * zy;
  }

  /** The offset that centres a length on the canvas. */
  function CentringOffset(canvas: real, extent: real): real
  {
    (canvas - extent) / 2.0
  }

  lemma CentringOffsetCentres(canvas: real, extent: real)
    ensures 2.0 * CentringOffset(canvas, extent) + extent == canvas
  {
  }

  /** The offset after zooming about a screen point: the point's canvas
      coordinate `(point - offset) / zoom` is scaled by the new zoom and the
      offset places it back under the point. */
  function ZoomAbout(offset: real, zoom: real, point: real, newZoom: real): real
    requires zoom > 0.0
  {
    point - Zoomed((point - offset) / zoom, newZoom)
  }

  /** Zooming about a point keeps the canvas point under it where it was. */
  lemma ZoomAboutFixesPoint(offset: real, zoom: real, point: real, newZoom: real)
    requires zoom > 0.0 && newZoom > 0.0
    ensures (point - ZoomAbout(offset, zoom, point, newZoom)) / newZoom == (point - offset) / zoom
    ensures newZoom == zoom ==> ZoomAbout(offset, zoom, point, newZoom) == offset
  {
    var c := (point - offset) / zoom;
    assert point - ZoomAbout(offset, zoom, point, newZoom) == c * newZoom;
    assert c * zoom == point - offset;
  }

  class View {
    var zoom: real
    var offsetX: real
    var offsetY: real
    var initialZoom: bool
    var pinching: bool
    var pinchStart: real

    ghost predicate Valid()
      reads this
    {
      zoom > 0.0 && pinchStart >= 0.0
    }

    constructor()
      ensures Valid() && zoom == 1.0 && !initialZoom && !pinching && pinchStart == 0.0
    {
      zoom := 1.0;
      offsetX, offsetY := 0.0, 0.0;
      initialZoom := false;
      pinching := false;
      pinchStart := 0.0;
    }

    /** A new image asks for the initial fit. */
    method ImageLoaded()
      requires Valid()
      modifies this
      ensures Valid() && initialZoom && zoom == old(zoom) && offsetX == old(offsetX) && offsetY == old(offsetY)
      ensures pinching == old(pinching) && pinchStart == old(pinchStart)
    {
      initialZoom := true;
    }

    /** The resize observer: on the first resize after loading, fit the image
        at 95% and centre it. */
    method Resized(canvasWidth: real, canvasHeight: real, hasImage: bool, imageWidth: real, imageHeight: real)
      requires Valid() && canvasWidth > 0.0 && canvasHeight > 0.0 && imageWidth > 0.0 && imageHeight > 0.0
      modifies this
      ensures Valid() && pinching == old(pinching) && pinchStart == old(pinchStart)
      ensures !(old(initialZoom) && hasImage) ==>
        zoom == old(zoom) && offsetX == old(offsetX) && offsetY == old(offsetY) && initialZoom == old(initialZoom)
      ensures old(initialZoom) && hasImage ==>
        && !initialZoom
        && zoom == FitZoom(canvasWidth, canvasHeight, imageWidth, imageHeight)
        && offsetX == CentringOffset(canvasWidth, Zoomed(imageWidth, zoom))
        && offsetY == CentringOffset(canvasHeight, Zoomed(imageHeight, zoom))
    {
      if initialZoom && hasImage {
        var zoomX := canvasWidth / imageWidth;
        var zoomY := canvasHeight / imageHeight;
        var z := MinReal(zoomX, zoomY) * 0.95;
        FitZoomFits(canvasWidth, canvasHeight, imageWidth, imageHeight);
        zoom := z;
        offsetX := (canvasWidth - Zoomed(imageWidth, z)) / 2.0;
        offsetY := (canvasHeight - Zoomed(imageHeight, z)) / 2.0;
        initialZoom := false;
      }
    }

    /** `mouse:wheel`: ignored while drawing or erasing; otherwise the zoom is
        multiplied by 1 - deltaY / 500, kept within [0.05, 20], and applied
        about the cursor. */
    method Wheel(deltaY: real, tool: EditorTool, cursorX: real, cursorY: real)
      requires Valid()
      modifies this
      ensures Valid() && initialZoom == old(initialZoom) && pinching == old(pinching)
      ensures pinchStart == old(pinchStart)
      ensures tool == Pen || tool == Eraser ==>
        zoom == old(zoom) && offsetX == old(offsetX) && offsetY == old(offsetY)
      ensures tool != Pen && tool != Eraser ==>
        && zoom == ClampZoom(Zoomed(old(zoom), 1.0 - deltaY / 500.0)) && MinZoom <= zoom <= MaxZoom
        && offsetX == ZoomAbout(old(offsetX), old(zoom), cursorX, zoom)
        && offsetY == ZoomAbout(old(offsetY), old(zoom), cursorY, zoom)
    {
      if tool == Pen || tool == Eraser {
        return;
      }
      var z := Zoomed(zoom, 1.0 - deltaY / 500.0);
      if z > 20.0 {
        z := 20.0;
      }
      if z < 0.05 {
        z := 0.05;
      }
      ZoomToPoint(cursorX, cursorY, z);
    }

    /** `zoomToPoint`: the new zoom, with the offsets moved so that the canvas
        point under the screen point stays under it. */
    method ZoomToPoint(pointX: real, pointY: real, newZoom: real)
      requires Valid() && newZoom > 0.0
      modifies this
      ensures Valid() && zoom == newZoom
      ensures offsetX == ZoomAbout(old(offsetX), old(zoom), pointX, newZoom)
      ensures offsetY == ZoomAbout(old(offsetY), old(zoom), pointY, newZoom)
      ensures initialZoom == old(initialZoom) && pinching == old(pinching) && pinchStart == old(pinchStart)
    {
      offsetX, offsetY, zoom :=
        ZoomAbout(offsetX, zoom, pointX, newZoom), ZoomAbout(offsetY, zoom, pointY, newZoom), newZoom;
    }

    /** A two-finger press starts a pinch at the fingers' distance. */
    method TouchStart(distance: real)
      requires Valid() && distance >= 0.0
      modifies this
      ensures Valid() && pinching && pinchStart == distance && zoom == old(zoom)
      ensures initialZoom == old(initialZoom) && offsetX == old(offsetX) && offsetY == old(offsetY)
    {
      pinching := true;
      pinchStart := distance;
    }

    /** A two-finger move: the zoom follows the change in distance since the
        last move, kept within [0.05, 20] and applied about the fingers'
        midpoint; a pinch from distance 0 does not zoom. */
    method PinchMove(distance: real, centreX: real, centreY: real)
      requires Valid() && distance >= 0.0
      modifies this
      ensures Valid() && pinching && pinchStart == distance && initialZoom == old(initialZoom)
      ensures var start := if old(pinching) then old(pinchStart) else distance;
        && (start > 0.0 ==>
             && zoom == ClampZoom(Zoomed(old(zoom), distance / start)) && MinZoom <= zoom <= MaxZoom
             && offsetX == ZoomAbout(old(offsetX), old(zoom), centreX, zoom)
             && offsetY == ZoomAbout(old(offsetY), old(zoom), centreY, zoom))
        && (start == 0.0 ==> zoom == old(zoom) && offsetX == old(offsetX) && offsetY == old(offsetY))
    {
      if !pinching {
        pinching := true;
        pinchStart := distance;
      }
      if pinchStart > 0.0 {
        var z := Zoomed(zoom, distance / pinchStart);
        if z > 20.0 {
          z := 20.0;
        }
        if z < 0.05 {
          z := 0.05;
        }
        ZoomToPoint(centreX, centreY, z);
      }
      pinchStart := distance;
    }

    /** Releasing ends the pinch. */
    method TouchEnd()
      requires Valid()
      modifies this
      ensures Valid() && !pinching && pinchStart == 0.0 && zoom == old(zoom)
      ensures initialZoom == old(initialZoom) && offsetX == old(offsetX) && offsetY == old(offsetY)
    {
      pinchStart := 0.0;
      pinching := false;
    }
  }

  // ---------------------------------------------------------------- properties

  /** What the properties panel shows (`CurrentProperties`); transparency is
      a slider position from 0 to 100. */
  datatype Properties = Properties(
    color: string, thickness: real, transparencyEnabled: bool, transparency: int,
    fontFamily: string, fontSize: real, fontWeight: string, fontStyle: string)

  /** A partial update of the panel; None is a field the update leaves out. */
  datatype Updates = Updates(
    color: Option<string>, thickness: Option<real>, transparencyEnabled: Option<bool>,
    transparency: Option<int>, fontFamily: Option<string>, fontSize: Option<real>,
    fontWeight: Option<string>, fontStyle: Option<string>)

  /** The properties of a canvas object the panel reads and writes; None is
      an unset property. */
  datatype ObjectProps = ObjectProps(
    fill: Option<string>, stroke: Option<string>, strokeWidth: Option<real>, opacity: Option<real>,
    fontFamily: Option<string>, fontSize: Option<real>, fontWeight: Option<string>, fontStyle: Option<string>)

  /** `activeObjectType`. */
  datatype ObjectKind = GroupObject | TextObject | ImageObject | SignatureObject | ShapeObject

  datatype ActiveObject = ActiveObject(kind: ObjectKind, props: ObjectProps)

  function Or<T>(o: Option<T>, d: T): T
  {
    if o.Some? then o.value else d
  }

  /** `{ ...currentProperties, ...updates }`. */
  function Merge(p: Properties, u: Updates): Properties
  {
    Properties(Or(u.color, p.color), Or(u.thickness, p.thickness),
               Or(u.transparencyEnabled, p.transparencyEnabled), Or(u.transparency, p.transparency),
               Or(u.fontFamily, p.fontFamily), Or(u.fontSize, p.fontSize),
               Or(u.fontWeight, p.fontWeight), Or(u.fontStyle, p.fontStyle))
  }

  /** The opacity a transparency setting gives an object. */
  function OpacityOf(enabled: bool, transparency: int): (o: real)
    ensures 0 <= transparency <= 100 ==> 0.0 <= o <= 1.0
    ensures !enabled ==> o == 1.0
  {
    if enabled then (100 - transparency) as real / 100.0 else 1.0
  }

  /** What `handlePropertyChange` sets on the object: the colour as the fill
      of text and the stroke of anything else, the width, the opacity when
      either transparency field is updated (from the merged panel), and the
      font fields. */
  function Apply(o: ObjectProps, u: Updates, merged: Properties, isText: bool): ObjectProps
  {
    var o1 := if u.color.Some? && isText then o.(fill := u.color)
              else if u.color.Some? then o.(stroke := u.color) else o;
    var o2 := if u.thickness.Some? then o1.(strokeWidth := u.thickness) else o1;
    var o3 :=
      if u.transparency.Some? || u.transparencyEnabled.Some? then
        var enabled := if u.transparencyEnabled.Some? then u.transparencyEnabled.value else merged.transparencyEnabled;
        var value := if u.transparency.Some? then u.transparency.value else merged.transparency;
        o2.(opacity := Some(OpacityOf(enabled, value)))
      else o2;
    o3.(fontFamily := if u.fontFamily.Some? then u.fontFamily else o3.fontFamily,
        fontSize := if u.fontSize.Some? then u.fontSize else o3.fontSize,
        fontWeight := if u.fontWeight.Some? then u.fontWeight else o3.fontWeight,
        fontStyle := if u.fontStyle.Some? then u.fontStyle else o3.fontStyle)
  }

  /** The colour goes to exactly one of fill and stroke, by the object's kind;
      a property the update leaves out is untouched. */
  lemma ApplyTargets(o: ObjectProps, u: Updates, merged: Properties, isText: bool)
    ensures var r := Apply(o, u, merged, isText);
      && (u.color.Some? && isText ==> r.fill == u.color && r.stroke == o.stroke)
      && (u.color.Some? && !isText ==> r.stroke == u.color && r.fill == o.fill)
      && (u.color.None? ==> r.fill == o.fill && r.stroke == o.stroke)
      && (u.thickness.None? ==> r.strokeWidth == o.strokeWidth)
      && (u.transparency.None? && u.transparencyEnabled.None? ==> r.opacity == o.opacity)
      && (u.fontFamily.None? ==> r.fontFamily == o.fontFamily)
      && (u.fontSize.None? ==> r.fontSize == o.fontSize)
  {
  }

  /** The read-back of transparency as written (`get('opacity') || 1`): an
      unset opacity and an opacity of 0 both read as 1. */
  function TransparencyAsWritten(opacity: Option<real>): int
  {
    var o := if opacity.None? || opacity.value == 0.0 then 1.0 else opacity.value;
    Round((1.0 - o) * 100.0)
  }

  /** The read-back as evidently intended: only an unset opacity reads as 1. */
  function TransparencyOf(opacity: Option<real>): int
  {
    var o := if opacity.None? then 1.0 else opacity.value;
    Round((1.0 - o) * 100.0)
  }

  /** Transparency survives the trip to the object and back, for every slider
      position, in both directions of the enabled switch. */
  lemma TransparencyRoundTrip(enabled: bool, t: int)
    requires 0 <= t <= 100
    ensures var back := TransparencyOf(Some(OpacityOf(enabled, t)));
      && (enabled ==> back == t && (back > 0 <==> t > 0))
      && (!enabled ==> back == 0)
  {
    if enabled {
      var o := (100 - t) as real / 100.0;
      assert (1.0 - o) * 100.0 == t as real;
      RoundOfInteger(t);
    } else {
      RoundOfInteger(0);
    }
  }

  /** As written, a fully transparent object (slider at 100) reads back as
      transparency 0 with the switch off. */
  lemma TransparencyAsWrittenLosesFull()
    ensures OpacityOf(true, 100) == 0.0
    ensures TransparencyAsWritten(Some(OpacityOf(true, 100))) == 0
    ensures TransparencyOf(Some(OpacityOf(true, 100))) == 100
  {
    RoundOfInteger(0);
    RoundOfInteger(100);
  }

  /** The panel after an object is selected: each property read from the
      object, with the program's defaults for unset or empty ones; the
      transparency is read back as written, so an opacity of 0 shows as
      transparency 0 with the switch off. */
  function PanelOf(prev: Properties, obj: ActiveObject): (p: Properties)
    ensures p.transparencyEnabled == (p.transparency > 0)
  {
    var isText := obj.kind == TextObject;
    var o := obj.props;
    var color := if isText then o.fill else o.stroke;
    var t := TransparencyAsWritten(o.opacity);
    Properties(
      if color.None? || color.value == "" then "#000000" else color.value,
      if o.strokeWidth.None? || o.strokeWidth.value == 0.0 then 0.0 else o.strokeWidth.value,
      t > 0, t,
      if o.fontFamily.None? || o.fontFamily.value == "" then "Arial" else o.fontFamily.value,
      if o.fontSize.None? || o.fontSize.value == 0.0 then 40.0 else o.fontSize.value,
      if o.fontWeight.None? || o.fontWeight.value == "" then "normal" else o.fontWeight.value,
      if o.fontStyle.None? || o.fontStyle.value == "" then "normal" else o.fontStyle.value)
  }

  /** Setting a colour and a transparency on a selected object and selecting
      it again shows the same colour and, below 100, the same transparency;
      at 100 the read-back shows 0 with the switch off. */
  lemma PanelOfApplied(prev: Properties, obj: ActiveObject, u: Updates, merged: Properties)
    requires obj.kind != GroupObject
    requires u.color.Some? && u.color.value != ""
    requires u.transparency.Some? && 0 <= u.transparency.value <= 100 && u.transparencyEnabled == Some(true)
    ensures var p := PanelOf(prev, ActiveObject(obj.kind, Apply(obj.props, u, merged, obj.kind == TextObject)));
      && p.color == u.color.value
      && (u.transparency.value < 100 ==>
           p.transparency == u.transparency.value && p.transparencyEnabled == (u.transparency.value > 0))
      && (u.transparency.value == 100 ==> p.transparency == 0 && !p.transparencyEnabled)
  {
    var r := Apply(obj.props, u, merged, obj.kind == TextObject);
    ApplyTargets(obj.props, u, merged, obj.kind == TextObject);
    assert r.opacity == Some(OpacityOf(true, u.transparency.value));
    TransparencyAsWrittenRoundTrip(u.transparency.value);
  }

  /** As written, the read-back inverts `OpacityOf` for every slider position
      short of 100, and turns 100 into 0. */
  lemma TransparencyAsWrittenRoundTrip(t: int)
    requires 0 <= t <= 100
    ensures t < 100 ==> TransparencyAsWritten(Some(OpacityOf(true, t))) == t
    ensures t == 100 ==> TransparencyAsWritten(Some(OpacityOf(true, t))) == 0
    ensures TransparencyAsWritten(Some(OpacityOf(false, t))) == 0
  {
    RoundOfInteger(0);
    if t < 100 {
      var o := (100 - t) as real / 100.0;
      assert o != 0.0;
      assert (1.0 - o) * 100.0 == t as real;
      RoundOfInteger(t);
    }
  }

  class PropertiesPanel {
    var props: Properties
    var active: Option<ActiveObject>
    var panelOpen: bool

    constructor(initial: Properties)
      ensures props == initial && active.None? && !panelOpen
    {
      props := initial;
      active := None;
      panelOpen := false;
    }

    /** `handlePropertyChange`: the panel takes the update; a selected object
        other than a group gets the mapped properties. */
    method PropertyChange(u: Updates)
      modifies this
      ensures props == Merge(old(props), u) && panelOpen == old(panelOpen)
      ensures old(active).None? || old(active).value.kind == GroupObject ==> active == old(active)
      ensures old(active).Some? && old(active).value.kind != GroupObject ==>
        active == Some(ActiveObject(old(active).value.kind,
          Apply(old(active).value.props, u, props, old(active).value.kind == TextObject)))
    {
      var newProps := Merge(props, u);
      props := newProps;
      if active.None? || active.value.kind == GroupObject {
        return;
      }
      var isText := active.value.kind == TextObject;
      active := Some(ActiveObject(active.value.kind, Apply(active.value.props, u, newProps, isText)));
    }

    /** Another object is selected (or none). */
    method Select(obj: Option<ActiveObject>)
      modifies this
      ensures active == obj && props == old(props) && panelOpen == old(panelOpen)
    {
      active := obj;
    }

    /** The sync effect: a selected object other than a group fills the panel
        and opens it. */
    method Sync()
      modifies this
      ensures active == old(active)
      ensures active.Some? && active.value.kind != GroupObject ==>
        props == PanelOf(old(props), active.value) && panelOpen
      ensures active.None? || active.value.kind == GroupObject ==>
        props == old(props) && panelOpen == old(panelOpen)
    {
      if active.Some? && active.value.kind != GroupObject {
        props := PanelOf(props, active.value);
        if !panelOpen {
          panelOpen := true;
        }
      }
    }
  }

  // ---------------------------------------------------------------- tools

  /** The tool-mode buttons, in tool-bar order. */
  const ToolModes: seq<EditorTool> := [Pen, Eraser, Sign, StampR, AddImage, Arrow, Line, RectTool, Circle, Text]

  /** Pen and eraser have no action: their buttons toggle the tool. */
  predicate HasAction(t: EditorTool)
  {
    t != Pen && t != Eraser
  }

  /** The actions that add a shape at once; adding selects the select tool. */
  predicate AddsShape(t: EditorTool)
  {
    t in {StampR, Arrow, Line, RectTool, Circle, Text}
  }

  /** `isDrawingTool`. */
  predicate IsDrawingTool(t: EditorTool)
  {
    t in {Pen, Eraser, Arrow, RectTool, Circle, Text, Sign, StampR, AddImage, Line}
  }

  /** The disable rule of the tool-mode buttons: in batch mode only text and
      sign, and sign only for a PDF. */
  predicate ToolDisabled(t: EditorTool, batch: bool, isPdf: bool)
  {
    (batch && t != Text && t != Sign) || (t == Sign && !isPdf)
  }

  /** Batch mode leaves text always and sign exactly for a PDF; outside batch
      mode only sign can be disabled. */
  lemma ToolDisabledCases(batch: bool, isPdf: bool)
    ensures forall t :: t in ToolModes ==>
      (!ToolDisabled(t, batch, isPdf) <==>
        (t == Text || (t == Sign && isPdf) || (!batch && t != Sign)))
  {
  }

  class Toolbar {
    var tool: EditorTool

    constructor()
      ensures tool == Select
    {
      tool := Select;
    }

    /** `handleToolClick` for a tool-mode button: pen and eraser toggle against
        select, the shape actions leave select active, sign and add-image
        open their pickers; a drawing tool opens the properties panel. */
    method ToolClick(t: EditorTool, panel: PropertiesPanel)
      requires t in ToolModes
      modifies this, panel
      ensures !HasAction(t) ==> tool == (if old(tool) == t then Select else t)
      ensures AddsShape(t) ==> tool == Select
      ensures t == Sign || t == AddImage ==> tool == old(tool)
      ensures panel.panelOpen == (old(panel.panelOpen) || IsDrawingTool(t))
      ensures panel.props == old(panel.props) && panel.active == old(panel.active)
    {
      if HasAction(t) {
        if AddsShape(t) {
          tool := Select;
        }
      } else {
        tool := if tool == t then Select else t;
      }
      if IsDrawingTool(t) && !panel.panelOpen {
        panel.panelOpen := true;
      }
    }

    /** A new image was set as the background: the select tool is active
        again, whatever tool was in use. */
    method ImageLoaded()
      modifies this
      ensures tool == Select
    {
      tool := Select;
    }

    /** Clicking a toggling tool twice returns to the tool in use before, when
        that was select or the tool itself. */
    lemma ToggleTwice(t: EditorTool, before: EditorTool)
      requires !HasAction(t) && (before == Select || before == t)
      ensures var once := if before == t then Select else t;
        var twice := if once == t then Select else t;
        twice == before
    {
    }
  }

  /** `loadImageToCanvas` once the background is set: the history restarts
      from the unflipped image, the view asks for the initial fit, and the
      select tool becomes active, so a pen or eraser does not carry over to
      the new image. */
  method LoadImageToCanvas(h: History, v: View, tb: Toolbar, json: string)
    requires h.Valid() && h.restoreTo.None? && v.Valid()
    modifies h, v, tb
    ensures h.Valid() && h.history == [Snapshot(json, false, false)] && h.index == 0 && !h.lock && h.hasImage
    ensures !h.flipX && !h.flipY
    ensures v.Valid() && v.initialZoom && v.zoom == old(v.zoom)
    ensures tb.tool == Select
  {
    h.LoadImage(json);
    v.ImageLoaded();
    tb.ImageLoaded();
  }
}
