/**
 * The canvas renderer's geometry: the mapping between screen and world
 * coordinates, zooming and panning, the lamp filter, and the hit tests the
 * mouse handlers use (items, resize handles of selected items, the grill
 * and DMD-location remove buttons, and the DMD copy area).  Drawing itself
 * is not modelled; the canvas element's bounding rectangle and backing
 * size are passed in as a `Viewport`.
 */
module Renderer {
  import opened Wrappers
  import opened Text
  import opened Data
  import opened State
  import opened Parts

  const HANDLE_SIZE: real := 6.0
  const HANDLE_HIT_SIZE: real := 24.0
  const ZOOM_FACTOR: real := 1.2
  const MIN_ZOOM: real := 0.1
  const MAX_ZOOM: real := 10.0

  function Max(a: real, b: real): real { if a >= b then a else b }
  function Min(a: real, b: real): real { if a <= b then a else b }
  function Abs(a: real): real { if a < 0.0 then -a else a }

  /** `Math.max(MIN_ZOOM, Math.min(MAX_ZOOM, z))`. */
  function ClampZoom(z: real): (r: real)
    ensures MIN_ZOOM <= r <= MAX_ZOOM
    ensures MIN_ZOOM <= z <= MAX_ZOOM ==> r == z
    ensures z < MIN_ZOOM ==> r == MIN_ZOOM
    ensures z > MAX_ZOOM ==> r == MAX_ZOOM
  {
    Max(MIN_ZOOM, Min(MAX_ZOOM, z))
  }

  /** The size of the image on the active tab; 800x600 when there is none. */
  function ActiveImageDimensions(tab: Tab, background: Option<ImageSize>, dmd: Option<ImageSize>): (r: ImageSize)
    ensures tab == DmdTab && dmd.Some? ==> r == dmd.value
    ensures tab == BackglassTab && background.Some? ==> r == background.value
    ensures (if tab == DmdTab then dmd else background).None? ==> r == ImageSize(800.0, 600.0)
  {
    var image := if tab == DmdTab then dmd else background;
    if image.Some? then image.value else ImageSize(800.0, 600.0)
  }

  // ---------------------------------------------------------------------
  // Screen and world coordinates

  /** The canvas element's bounding rectangle and the size of its backing store. */
  datatype Viewport = Viewport(left: real, top: real, rectWidth: real, rectHeight: real,
                               canvasWidth: real, canvasHeight: real)

  predicate ValidViewport(v: Viewport)
  {
    v.rectWidth > 0.0 && v.rectHeight > 0.0 && v.canvasWidth > 0.0 && v.canvasHeight > 0.0
  }

  datatype Point = Point(x: real, y: real)

  /** `screenToWorld`: into backing-store pixels, then undo the pan and the zoom. */
  function ScreenToWorld(v: Viewport, zoom: real, panX: real, panY: real, screenX: real, screenY: real): Point
    requires ValidViewport(v) && zoom != 0.0
  {
    var scaleX := v.canvasWidth / v.rectWidth;
    var scaleY := v.canvasHeight / v.rectHeight;
    var canvasX := (screenX - v.left) * scaleX;
    var canvasY := (screenY - v.top) * scaleY;
    Point((canvasX - panX) / zoom, (canvasY - panY) / zoom)
  }

  /** `worldToScreen`: apply the zoom and the pan, then back to CSS pixels. */
  function WorldToScreen(v: Viewport, zoom: real, panX: real, panY: real, worldX: real, worldY: real): Point
    requires ValidViewport(v)
  {
    var scaleX := v.canvasWidth / v.rectWidth;
    var scaleY := v.canvasHeight / v.rectHeight;
    var canvasX := worldX * zoom + panX;
    var canvasY := worldY * zoom + panY;
    Point(canvasX / scaleX + v.left, canvasY / scaleY + v.top)
  }

  /** One coordinate of the round trip: `((s - l) * k - p) / z * z + p) / k + l == s`. */
  lemma AxisRoundTrip(s: real, l: real, k: real, p: real, z: real)
    requires k > 0.0 && z != 0.0
    ensures (((s - l) * k - p) / z * z + p) / k + l == s
    ensures ((s * z + p) / k + l - l) * k == s * z + p
  {
    var c := (s - l) * k - p;
    assert c / z * z == c;
    assert (c + p) / k == s - l;
    var t := s * z + p;
    assert t / k * k == t;
  }

  /** The two mappings are inverse to each other, in both directions. */
  lemma ScreenWorldInverse(v: Viewport, zoom: real, panX: real, panY: real, x: real, y: real)
    requires ValidViewport(v) && zoom != 0.0
    ensures var w := ScreenToWorld(v, zoom, panX, panY, x, y);
      WorldToScreen(v, zoom, panX, panY, w.x, w.y) == Point(x, y)
    ensures var s := WorldToScreen(v, zoom, panX, panY, x, y);
      ScreenToWorld(v, zoom, panX, panY, s.x, s.y) == Point(x, y)
  {
    var kx := v.canvasWidth / v.rectWidth;
    var ky := v.canvasHeight / v.rectHeight;
    AxisRoundTrip(x, v.left, kx, panX, zoom);
    AxisRoundTrip(y, v.top, ky, panY, zoom);
    var s := WorldToScreen(v, zoom, panX, panY, x, y);
    assert (s.x - v.left) * kx - panX == x * zoom;
    assert (s.y - v.top) * ky - panY == y * zoom;
  }

  // ---------------------------------------------------------------------
  // Zoom and pan

  /** `setZoom`: the requested zoom, clamped to [MIN_ZOOM, MAX_ZOOM]. */
  method SetZoom(st: EditorState, newZoom: real)
    modifies st`zoom
    ensures st.zoom == ClampZoom(newZoom)
  {
    st.zoom := Max(MIN_ZOOM, Min(MAX_ZOOM, newZoom));
  }

  /**
   * `zoomAtPoint`: scale the zoom by `factor` (clamped) and move the pan so
   * that the world point under the given screen point stays where it is.
   * The point is taken relative to the canvas rectangle without the
   * backing-store scale, so it is the `screenToWorld` point exactly when the
   * backing store has the rectangle's size.
   */
  method ZoomAtPoint(st: EditorState, v: Viewport, factor: real, screenX: real, screenY: real)
    requires st.zoom > 0.0
    modifies st`zoom, st`panX, st`panY
    ensures st.zoom == ClampZoom(old(st.zoom) * factor)
    ensures (screenX - v.left - st.panX) / st.zoom == (screenX - v.left - old(st.panX)) / old(st.zoom)
    ensures (screenY - v.top - st.panY) / st.zoom == (screenY - v.top - old(st.panY)) / old(st.zoom)
    ensures ValidViewport(v) && v.canvasWidth == v.rectWidth && v.canvasHeight == v.rectHeight ==>
      ScreenToWorld(v, st.zoom, st.panX, st.panY, screenX, screenY)
        == ScreenToWorld(v, old(st.zoom), old(st.panX), old(st.panY), screenX, screenY)
  {
    var canvasX := screenX - v.left;
    var canvasY := screenY - v.top;
    var worldX := (canvasX - st.panX) / st.zoom;
    var worldY := (canvasY - st.panY) / st.zoom;
    var newZoom := Max(MIN_ZOOM, Min(MAX_ZOOM, st.zoom * factor));
    assert newZoom == ClampZoom(st.zoom * factor);
    ghost var unit := ValidViewport(v) && v.canvasWidth == v.rectWidth && v.canvasHeight == v.rectHeight;
    if unit {
      UnitScreenToWorld(v, st.zoom, st.panX, st.panY, screenX, screenY);
    }
    st.panX := canvasX - worldX * newZoom;
    st.panY := canvasY - worldY * newZoom;
    st.zoom := newZoom;
    PanKeepsPoint(canvasX, worldX, newZoom);
    PanKeepsPoint(canvasY, worldY, newZoom);
    if unit {
      UnitScreenToWorld(v, st.zoom, st.panX, st.panY, screenX, screenY);
    }
  }

  /** Panning by `c - w * z` puts world coordinate `w` at canvas coordinate `c`. */
  lemma PanKeepsPoint(c: real, w: real, z: real)
    requires z > 0.0
    ensures (c - (c - w * z)) / z == w
  {
    assert c - (c - w * z) == w * z;
  }

  /** With the backing store at the rectangle's size, `screenToWorld` only undoes pan and zoom. */
  lemma UnitScreenToWorld(v: Viewport, zoom: real, panX: real, panY: real, screenX: real, screenY: real)
    requires ValidViewport(v) && zoom != 0.0
    requires v.canvasWidth == v.rectWidth && v.canvasHeight == v.rectHeight
    ensures ScreenToWorld(v, zoom, panX, panY, screenX, screenY)
      == Point((screenX - v.left - panX) / zoom, (screenY - v.top - panY) / zoom)
  {
    assert v.canvasWidth / v.rectWidth == 1.0;
    assert v.canvasHeight / v.rectHeight == 1.0;
  }

  /** `zoomIn`: zoom by ZOOM_FACTOR about the point at half the backing width and height. */
  method ZoomIn(st: EditorState, v: Viewport)
    requires st.zoom > 0.0
    modifies st`zoom, st`panX, st`panY
    ensures st.zoom == ClampZoom(old(st.zoom) * ZOOM_FACTOR)
  {
    ZoomAtPoint(st, v, ZOOM_FACTOR, v.left + v.canvasWidth / 2.0, v.top + v.canvasHeight / 2.0);
  }

  /** `zoomOut`: zoom by 1/ZOOM_FACTOR about the same point. */
  method ZoomOut(st: EditorState, v: Viewport)
    requires st.zoom > 0.0
    modifies st`zoom, st`panX, st`panY
    ensures st.zoom == ClampZoom(old(st.zoom) / ZOOM_FACTOR)
  {
    ZoomAtPoint(st, v, 1.0 / ZOOM_FACTOR, v.left + v.canvasWidth / 2.0, v.top + v.canvasHeight / 2.0);
  }

  /** The zoom at which the image fits the canvas less 40 pixels of padding. */
  function FitScale(imgWidth: real, imgHeight: real, canvasWidth: real, canvasHeight: real): (s: real)
    requires imgWidth > 0.0 && imgHeight > 0.0
    ensures imgWidth * s <= canvasWidth - 40.0 && imgHeight * s <= canvasHeight - 40.0
    ensures imgWidth * s == canvasWidth - 40.0 || imgHeight * s == canvasHeight - 40.0
  {
    var sx := (canvasWidth - 40.0) / imgWidth;
    var sy := (canvasHeight - 40.0) / imgHeight;
    assert imgWidth * sx == canvasWidth - 40.0 && imgHeight * sy == canvasHeight - 40.0;
    if sx <= sy then
      assert imgHeight * sx <= imgHeight * sy;
      sx
    else
      assert imgWidth * sy <= imgWidth * sx;
      sy
  }

  /**
   * `zoomToFit`: with a canvas of positive size, the largest zoom (within
   * the zoom range) at which the padded image fits, and the pan that
   * centres the image.  A canvas without area leaves the view alone.
   */
  method ZoomToFit(st: EditorState, canvasWidth: real, canvasHeight: real)
    requires var img := ActiveImageDimensions(st.activeTab, st.backgroundImage, st.dmdImage);
      img.width > 0.0 && img.height > 0.0
    modifies st`zoom, st`panX, st`panY
    ensures canvasWidth <= 0.0 || canvasHeight <= 0.0 ==>
      st.zoom == old(st.zoom) && st.panX == old(st.panX) && st.panY == old(st.panY)
    ensures canvasWidth > 0.0 && canvasHeight > 0.0 ==>
      var img := ActiveImageDimensions(st.activeTab, st.backgroundImage, st.dmdImage);
      var fit := FitScale(img.width, img.height, canvasWidth, canvasHeight);
      && st.zoom == ClampZoom(fit)
      && st.panX + img.width * st.zoom / 2.0 == canvasWidth / 2.0
      && st.panY + img.height * st.zoom / 2.0 == canvasHeight / 2.0
  {
    var img := ActiveImageDimensions(st.activeTab, st.backgroundImage, st.dmdImage);
    if canvasWidth <= 0.0 || canvasHeight <= 0.0 {
      return;
    }
    var scaleX := (canvasWidth - 40.0) / img.width;
    var scaleY := (canvasHeight - 40.0) / img.height;
    st.zoom := Min(Min(scaleX, scaleY), MAX_ZOOM);
    st.zoom := Max(st.zoom, MIN_ZOOM);
    st.panX := (canvasWidth - img.width * st.zoom) / 2.0;
    st.panY := (canvasHeight - img.height * st.zoom) / 2.0;
  }

  /**
   * When the fitting zoom lies in the zoom range, the fitted image touches
   * the padded canvas on one axis and stays inside it on the other.
   */
  lemma FitFillsPaddedCanvas(imgWidth: real, imgHeight: real, canvasWidth: real, canvasHeight: real)
    requires imgWidth > 0.0 && imgHeight > 0.0
    requires MIN_ZOOM <= FitScale(imgWidth, imgHeight, canvasWidth, canvasHeight) <= MAX_ZOOM
    ensures var z := ClampZoom(FitScale(imgWidth, imgHeight, canvasWidth, canvasHeight));
      && imgWidth * z <= canvasWidth - 40.0 && imgHeight * z <= canvasHeight - 40.0
      && (imgWidth * z == canvasWidth - 40.0 || imgHeight * z == canvasHeight - 40.0)
  {
  }

  // ---------------------------------------------------------------------
  // The lamp filter

  /** The filter value of the dropdown entry for bulbs with the given ROM id. */
  function RomFilter(inverted: bool, t: RomIdType, id: int): string
  {
    "rom-" + (if inverted then "I" else "") + RomIdTypeName(t) + "-" + IntToString(id)
  }

  /** A `rom-[I]<type>-<id>` filter; one without a dash after a non-empty type lets every bulb pass. */
  function RomFilterPasses(b: Bulb, rest: string): bool
  {
    var inverted := StartsWith(rest, "I");
    RomNamePasses(b, inverted, if inverted then rest[1..] else rest)
  }

  /** The rest of a ROM filter once its inversion mark is read: `<name>-<digits>`. */
  function RomNamePasses(b: Bulb, inverted: bool, afterInv: string): bool
  {
    match IndexOf(afterInv, "-")
    case Some(k) =>
      if k > 0 then
        RomIdTypeName(b.romIdType) == afterInv[..k]
        && ParseInt(afterInv[k + 1..]) == Some(b.romId)
        && b.romInverted == inverted
      else true
    case None => true
  }

  /** `bulbPassesFilter`: whether the bulb is drawn under the current lamp filter. */
  function BulbPassesFilter(b: Bulb, filter: string): bool
  {
    if filter == "all" then true
    else if filter == "off" then b.initialState == InitiallyOff
    else if filter == "on" then b.initialState == InitiallyOn
    else if filter == "always-on" then b.initialState == InitiallyUndefined
    else if filter == "no-id" then b.romId == 0
    else if filter == "with-name" then Trim(b.name) != ""
    else if StartsWith(filter, "rom-") then RomFilterPasses(b, filter[4..])
    else true
  }

  /** The dash after the type name is the first dash of `name + "-" + digits`. */
  lemma FirstDashAfterName(name: string, tail: string)
    requires '-' !in name
    ensures IndexOf(name + "-" + tail, "-") == Some(|name|)
  {
    var s := name + "-" + tail;
    assert OccursAt(s, "-", |name|) by {
      assert s[|name|..|name| + 1] == "-";
    }
    forall i | 0 <= i < |name|
      ensures !OccursAt(s, "-", i)
    {
      assert s[i] == name[i];
    }
  }

  /** The part after `rom-` of a dropdown entry's filter. */
  lemma RomFilterRest(b: Bulb, inverted: bool, t: RomIdType, id: int)
    ensures RomFilterPasses(b, (if inverted then "I" else "") + RomIdTypeName(t) + "-" + IntToString(id))
      <==> b.romIdType == t && b.romId == id && b.romInverted == inverted
  {
    var name := RomIdTypeName(t);
    var digits := IntToString(id);
    ParseIntOfIntToString(id, "");
    assert digits + "" == digits;
    RomFilterParts(b, inverted, name, digits, id);
    assert RomIdTypeName(b.romIdType) == name <==> b.romIdType == t;
  }

  /** The filter text `[I]<name>-<digits>` matches the bulbs with that name, value and inversion. */
  lemma RomFilterParts(b: Bulb, inverted: bool, name: string, digits: string, id: int)
    requires |name| > 0 && name[0] != 'I' && '-' !in name
    requires ParseInt(digits) == Some(id)
    ensures RomFilterPasses(b, (if inverted then "I" else "") + name + "-" + digits)
      <==> RomIdTypeName(b.romIdType) == name && b.romId == id && b.romInverted == inverted
  {
    var afterInv := name + "-" + digits;
    assert (if inverted then "I" else "") + name + "-" + digits == (if inverted then "I" else "") + afterInv;
    RomFilterInversion(b, inverted, afterInv);
    RomNameParts(b, inverted, name, digits, id);
  }

  /** The inversion mark is read off a rest whose name does not itself start with "I". */
  lemma RomFilterInversion(b: Bulb, inverted: bool, afterInv: string)
    requires |afterInv| > 0 && afterInv[0] != 'I'
    ensures RomFilterPasses(b, (if inverted then "I" else "") + afterInv) == RomNamePasses(b, inverted, afterInv)
  {
    var rest := (if inverted then "I" else "") + afterInv;
    if !inverted {
      assert rest == afterInv;
      assert rest[..1][0] == afterInv[0];
    } else {
      assert rest[..1] == "I";
      assert rest[1..] == afterInv;
    }
  }

  /** `<name>-<digits>` matches the bulbs with that name and value. */
  lemma RomNameParts(b: Bulb, inverted: bool, name: string, digits: string, id: int)
    requires |name| > 0 && '-' !in name
    requires ParseInt(digits) == Some(id)
    ensures RomNamePasses(b, inverted, name + "-" + digits)
      <==> RomIdTypeName(b.romIdType) == name && b.romId == id && b.romInverted == inverted
  {
    FirstDashAfterName(name, digits);
    DashSplit(name, digits);
  }

  lemma DashSplit(name: string, digits: string)
    ensures (name + "-" + digits)[..|name|] == name
    ensures (name + "-" + digits)[|name| + 1..] == digits
  {
  }

  /**
   * A dropdown entry's filter shows exactly the bulbs of its ROM id: the
   * same type, the same number and the same inversion.
   */
  lemma RomFilterSelectsExactly(b: Bulb, inverted: bool, t: RomIdType, id: int)
    ensures BulbPassesFilter(b, RomFilter(inverted, t, id))
      <==> b.romIdType == t && b.romId == id && b.romInverted == inverted
  {
    var rest := (if inverted then "I" else "") + RomIdTypeName(t) + "-" + IntToString(id);
    RomFilterSplit(inverted, t, id);
    RomPrefix(rest);
    RomFilterDispatch(b, "rom-" + rest);
    RomFilterRest(b, inverted, t, id);
  }

  lemma RomFilterSplit(inverted: bool, t: RomIdType, id: int)
    ensures RomFilter(inverted, t, id)
         == "rom-" + ((if inverted then "I" else "") + RomIdTypeName(t) + "-" + IntToString(id))
  {
  }

  lemma RomPrefix(rest: string)
    ensures StartsWith("rom-" + rest, "rom-") && ("rom-" + rest)[4..] == rest
  {
  }

  /** A filter starting with `rom-` is none of the named ones, so its tail decides. */
  lemma RomFilterDispatch(b: Bulb, f: string)
    requires StartsWith(f, "rom-")
    ensures BulbPassesFilter(b, f) == RomFilterPasses(b, f[4..])
  {
    assert f[0] == 'r';
  }

  /** A filter value that is none of the known ones shows every bulb. */
  lemma UnknownFilterShowsAll(b: Bulb, filter: string)
    requires filter !in {"all", "off", "on", "always-on", "no-id", "with-name"}
    requires !StartsWith(filter, "rom-")
    ensures BulbPassesFilter(b, filter)
  {
  }

  // ---------------------------------------------------------------------
  // Hitting items

  datatype HitResult = HitResult(kind: SelectionType, id: int)

  /**
   * The bulb `hitTestAtPoint` picks: it sorts the bulbs by descending
   * z-order (a stable sort) and takes the first one hit, so the hit bulb of
   * the highest z-order that comes first in the list.
   */
  function TopmostHit(bulbs: seq<Bulb>, worldX: real, worldY: real): (r: Option<nat>)
    ensures r.Some? ==> r.value < |bulbs| && BulbHitTest(bulbs[r.value], worldX, worldY)
    ensures r.Some? ==> forall j :: 0 <= j < |bulbs| && BulbHitTest(bulbs[j], worldX, worldY) ==>
      bulbs[j].zOrder <= bulbs[r.value].zOrder
    ensures r.Some? ==> forall j :: 0 <= j < r.value && BulbHitTest(bulbs[j], worldX, worldY) ==>
      bulbs[j].zOrder < bulbs[r.value].zOrder
    ensures r.None? <==> forall j :: 0 <= j < |bulbs| ==> !BulbHitTest(bulbs[j], worldX, worldY)
  {
    if bulbs == [] then None
    else
      var n := |bulbs| - 1;
      var prev := TopmostHit(bulbs[..n], worldX, worldY);
      if !BulbHitTest(bulbs[n], worldX, worldY) then prev
      else if prev.Some? && bulbs[prev.value].zOrder >= bulbs[n].zOrder then prev
      else Some(n)
  }

  /** The three properties of TopmostHit single out one index. */
  lemma TopmostHitUnique(bulbs: seq<Bulb>, worldX: real, worldY: real, k: nat)
    requires k < |bulbs| && BulbHitTest(bulbs[k], worldX, worldY)
    requires forall j :: 0 <= j < |bulbs| && BulbHitTest(bulbs[j], worldX, worldY) ==>
      bulbs[j].zOrder <= bulbs[k].zOrder
    requires forall j :: 0 <= j < k && BulbHitTest(bulbs[j], worldX, worldY) ==>
      bulbs[j].zOrder < bulbs[k].zOrder
    ensures TopmostHit(bulbs, worldX, worldY) == Some(k)
  {
    var r := TopmostHit(bulbs, worldX, worldY);
    assert r.Some?;
    assert !(r.value < k) && !(k < r.value);
  }

  /** The index of the first score hit at or after `from`. */
  function FirstScoreHit(scores: seq<Score>, worldX: real, worldY: real, from: nat): (r: Option<nat>)
    requires from <= |scores|
    ensures r.Some? ==> from <= r.value < |scores| && ScoreHitTest(scores[r.value], worldX, worldY)
    ensures forall j :: from <= j < (if r.Some? then r.value else |scores|) ==>
      !ScoreHitTest(scores[j], worldX, worldY)
    decreases |scores| - from
  {
    if from == |scores| then None
    else if ScoreHitTest(scores[from], worldX, worldY) then Some(from)
    else FirstScoreHit(scores, worldX, worldY, from + 1)
  }

  /**
   * What `hitTestAtPoint` finds: with bulb frames shown, a hit bulb always
   * wins over the scores; scores are only hit with score frames shown.
   */
  function HitAt(d: Document, showBulbs: bool, showScores: bool, worldX: real, worldY: real): (r: Option<HitResult>)
    ensures r.Some? && r.value.kind == BulbSelection ==>
      showBulbs && exists j :: 0 <= j < |d.illumination| && d.illumination[j].id == r.value.id && BulbHitTest(d.illumination[j], worldX, worldY)
    ensures r.Some? && r.value.kind == ScoreSelection ==>
      showScores && exists j :: 0 <= j < |d.scores| && d.scores[j].id == r.value.id && ScoreHitTest(d.scores[j], worldX, worldY)
    ensures showBulbs && (exists j :: 0 <= j < |d.illumination| && BulbHitTest(d.illumination[j], worldX, worldY))
      ==> r.Some? && r.value.kind == BulbSelection
    ensures r.None? <==>
      (!showBulbs || forall j :: 0 <= j < |d.illumination| ==> !BulbHitTest(d.illumination[j], worldX, worldY))
      && (!showScores || forall j :: 0 <= j < |d.scores| ==> !ScoreHitTest(d.scores[j], worldX, worldY))
  {
    var top := if showBulbs then TopmostHit(d.illumination, worldX, worldY) else None;
    if top.Some? then Some(HitResult(BulbSelection, d.illumination[top.value].id))
    else
      var first := if showScores then FirstScoreHit(d.scores, worldX, worldY, 0) else None;
      if first.Some? then Some(HitResult(ScoreSelection, d.scores[first.value].id))
      else None
  }

  /** `hitTestAtPoint`: the bulbs by z-order, then the scores in list order. */
  method HitTestAtPoint(st: EditorState, worldX: real, worldY: real) returns (r: Option<HitResult>)
    ensures r == HitAt(st.data, st.showIlluminationFrames, st.showScoreFrames, worldX, worldY)
  {
    if st.showIlluminationFrames {
      var bulbs := st.data.illumination;
      var best: Option<nat> := None;
      var i := 0;
      while i < |bulbs|
        invariant 0 <= i <= |bulbs|
        invariant best == TopmostHit(bulbs[..i], worldX, worldY)
      {
        assert bulbs[..i + 1][..i] == bulbs[..i];
        if BulbHitTest(bulbs[i], worldX, worldY) && (best.None? || bulbs[best.value].zOrder < bulbs[i].zOrder) {
          best := Some(i);
        }
        i := i + 1;
      }
      assert bulbs[..|bulbs|] == bulbs;
      if best.Some? {
        return Some(HitResult(BulbSelection, bulbs[best.value].id));
      }
    }
    if st.showScoreFrames {
      var scores := st.data.scores;
      var i := 0;
      while i < |scores|
        invariant 0 <= i <= |scores|
        invariant FirstScoreHit(scores, worldX, worldY, 0) == FirstScoreHit(scores, worldX, worldY, i)
      {
        if ScoreHitTest(scores[i], worldX, worldY) {
          return Some(HitResult(ScoreSelection, scores[i].id));
        }
        i := i + 1;
      }
    }
    return None;
  }

  // ---------------------------------------------------------------------
  // Hitting the resize handles of the selected items

  datatype HandleHit = HandleHit(handle: ResizeHandle, kind: SelectionType, id: int)

  /** Half the hit square: 12 world units, or 12 screen pixels when zoomed out. */
  function HitRadius(zoom: real): (r: real)
    requires zoom > 0.0
    ensures r >= HANDLE_HIT_SIZE / 2.0
    ensures zoom >= 1.0 ==> r == HANDLE_HIT_SIZE / 2.0
    ensures zoom < 1.0 ==> r * zoom == HANDLE_HIT_SIZE / 2.0
  {
    Max(HANDLE_HIT_SIZE, HANDLE_HIT_SIZE / zoom) / 2.0
  }

  /** The point is within `radius` of the handle's centre on both axes. */
  predicate NearHandle(h: ResizeHandle, worldX: real, worldY: real, radius: real)
  {
    Abs(worldX - (h.x + HANDLE_SIZE / 2.0)) <= radius && Abs(worldY - (h.y + HANDLE_SIZE / 2.0)) <= radius
  }

  /** The index of the first handle at or after `from` near the point. */
  function FirstNearHandle(hs: seq<ResizeHandle>, worldX: real, worldY: real, radius: real, from: nat): (r: Option<nat>)
    requires from <= |hs|
    ensures r.Some? ==> from <= r.value < |hs| && NearHandle(hs[r.value], worldX, worldY, radius)
    ensures forall j :: from <= j < (if r.Some? then r.value else |hs|) ==> !NearHandle(hs[j], worldX, worldY, radius)
    decreases |hs| - from
  {
    if from == |hs| then None
    else if NearHandle(hs[from], worldX, worldY, radius) then Some(from)
    else FirstNearHandle(hs, worldX, worldY, radius, from + 1)
  }

  /**
   * Going through the selected ids from `from` on, the first handle near the
   * point of the first selected item that has one; ids without an item are
   * skipped.
   */
  function SelectedHandleHit<T>(ids: seq<int>, items: seq<T>, key: T -> int, handlesOf: T -> seq<ResizeHandle>,
                                kind: SelectionType, worldX: real, worldY: real, radius: real, from: nat)
    : (r: Option<HandleHit>)
    requires from <= |ids|
    ensures r.Some? ==>
      && r.value.kind == kind && r.value.id in ids[from..]
      && Find(items, key, r.value.id).Some?
      && r.value.handle in handlesOf(Find(items, key, r.value.id).value)
      && NearHandle(r.value.handle, worldX, worldY, radius)
    ensures r.None? ==> forall k :: from <= k < |ids| && Find(items, key, ids[k]).Some? ==>
      FirstNearHandle(handlesOf(Find(items, key, ids[k]).value), worldX, worldY, radius, 0).None?
    decreases |ids| - from
  {
    if from == |ids| then None
    else
      var item := Find(items, key, ids[from]);
      if item.Some? && FirstNearHandle(handlesOf(item.value), worldX, worldY, radius, 0).Some? then
        var hs := handlesOf(item.value);
        Some(HandleHit(hs[FirstNearHandle(hs, worldX, worldY, radius, 0).value], kind, ids[from]))
      else
        SelectedHandleHit(ids, items, key, handlesOf, kind, worldX, worldY, radius, from + 1)
  }

  /**
   * What `hitTestResizeHandleAtPoint` finds: only handles of selected items
   * of a kind whose frames are shown, selected bulbs before selected scores.
   */
  function HandleHitAt(st: EditorState, worldX: real, worldY: real): (r: Option<HandleHit>)
    requires st.zoom > 0.0
    reads st`zoom, st`showIlluminationFrames, st`showScoreFrames, st`selectedBulbIds, st`selectedScoreIds, st`data
    ensures r.Some? && r.value.kind == BulbSelection ==> st.showIlluminationFrames && r.value.id in st.selectedBulbIds
    ensures r.Some? && r.value.kind == ScoreSelection ==> st.showScoreFrames && r.value.id in st.selectedScoreIds
    ensures r.Some? ==> NearHandle(r.value.handle, worldX, worldY, HitRadius(st.zoom))
    ensures !st.showIlluminationFrames && !st.showScoreFrames ==> r.None?
  {
    var radius := HitRadius(st.zoom);
    var bulbHit := if st.showIlluminationFrames then
      SelectedHandleHit(st.selectedBulbIds, st.data.illumination, BulbKey, BulbResizeHandles,
                        BulbSelection, worldX, worldY, radius, 0)
      else None;
    if bulbHit.Some? then bulbHit
    else if st.showScoreFrames then
      SelectedHandleHit(st.selectedScoreIds, st.data.scores, ScoreKey, ScoreResizeHandles,
                        ScoreSelection, worldX, worldY, radius, 0)
    else None
  }

  /** The handle loop for one item. */
  method NearestHandle(hs: seq<ResizeHandle>, worldX: real, worldY: real, radius: real) returns (r: Option<nat>)
    ensures r == FirstNearHandle(hs, worldX, worldY, radius, 0)
  {
    var i := 0;
    while i < |hs|
      invariant 0 <= i <= |hs|
      invariant FirstNearHandle(hs, worldX, worldY, radius, 0) == FirstNearHandle(hs, worldX, worldY, radius, i)
    {
      var dx := worldX - (hs[i].x + HANDLE_SIZE / 2.0);
      var dy := worldY - (hs[i].y + HANDLE_SIZE / 2.0);
      if Abs(dx) <= radius && Abs(dy) <= radius {
        return Some(i);
      }
      i := i + 1;
    }
    return None;
  }

  /** The id loop for one kind of item. */
  method SelectedHandleLoop<T>(ids: seq<int>, items: seq<T>, key: T -> int, handlesOf: T -> seq<ResizeHandle>,
                               kind: SelectionType, worldX: real, worldY: real, radius: real)
    returns (r: Option<HandleHit>)
    ensures r == SelectedHandleHit(ids, items, key, handlesOf, kind, worldX, worldY, radius, 0)
  {
    var i := 0;
    while i < |ids|
      invariant 0 <= i <= |ids|
      invariant SelectedHandleHit(ids, items, key, handlesOf, kind, worldX, worldY, radius, 0)
        == SelectedHandleHit(ids, items, key, handlesOf, kind, worldX, worldY, radius, i)
    {
      var item := Find(items, key, ids[i]);
      if item.Some? {
        var hs := handlesOf(item.value);
        var k := NearestHandle(hs, worldX, worldY, radius);
        if k.Some? {
          return Some(HandleHit(hs[k.value], kind, ids[i]));
        }
      }
      i := i + 1;
    }
    return None;
  }

  /** `hitTestResizeHandleAtPoint`. */
  method HitTestResizeHandleAtPoint(st: EditorState, worldX: real, worldY: real) returns (r: Option<HandleHit>)
    requires st.zoom > 0.0
    ensures r == HandleHitAt(st, worldX, worldY)
  {
    var radius := Max(HANDLE_HIT_SIZE, HANDLE_HIT_SIZE / st.zoom) / 2.0;
    assert radius == HitRadius(st.zoom);
    if st.showIlluminationFrames {
      r := SelectedHandleLoop(st.selectedBulbIds, st.data.illumination, BulbKey, BulbResizeHandles,
                              BulbSelection, worldX, worldY, radius);
      if r.Some? {
        return;
      }
    }
    if st.showScoreFrames {
      r := SelectedHandleLoop(st.selectedScoreIds, st.data.scores, ScoreKey, ScoreResizeHandles,
                              ScoreSelection, worldX, worldY, radius);
      return;
    }
    return None;
  }

  // ---------------------------------------------------------------------
  // Buttons and the DMD copy area

  datatype GrillButton = GrillRemove | SmallGrillRemove

  /** `state.zoom || 1`: a zero zoom counts as 1. */
  function EffectiveZoom(zoom: real): (z: real)
    ensures z != 0.0
    ensures zoom != 0.0 ==> z == zoom
  {
    if zoom == 0.0 then 1.0 else zoom
  }

  /** The remove button of a grill line at `lineY`: 12 pixels square, 15 pixels in from the image's right edge and above the line. */
  predicate InRemoveButton(imgWidth: real, lineY: real, z: real, worldX: real, worldY: real)
    requires z != 0.0
  {
    var removeX := imgWidth - 15.0 / z;
    var removeY := lineY - 15.0 / z;
    removeX <= worldX <= removeX + 12.0 / z && removeY <= worldY <= removeY + 12.0 / z
  }

  /**
   * `hitTestGrillRemoveButton`: only while setting a grill height on the
   * backglass tab; the grill's button is tried before the small grill's.
   * With a positive zoom a button hit lies inside the image's right edge and
   * above its grill line.
   */
  function GrillRemoveHit(d: Document, settingGrill: bool, tab: Tab, img: ImageSize, zoom: real,
                          worldX: real, worldY: real): (r: Option<GrillButton>)
    ensures r.Some? ==> settingGrill && tab == BackglassTab
    ensures r == Some(GrillRemove) ==>
      && d.grillHeight > 0
      && InRemoveButton(img.width, img.height - d.grillHeight as real, EffectiveZoom(zoom), worldX, worldY)
    ensures r == Some(SmallGrillRemove) ==>
      && d.smallGrillHeight > 0
      && InRemoveButton(img.width, img.height - d.smallGrillHeight as real, EffectiveZoom(zoom), worldX, worldY)
    ensures r.Some? && zoom > 0.0 ==>
      && worldX < img.width
      && worldY < img.height - (if r.value == GrillRemove then d.grillHeight else d.smallGrillHeight) as real
    ensures settingGrill && tab == BackglassTab && d.grillHeight > 0
      && InRemoveButton(img.width, img.height - d.grillHeight as real, EffectiveZoom(zoom), worldX, worldY)
      ==> r == Some(GrillRemove)
  {
    if !settingGrill || tab != BackglassTab then None
    else
      var z := EffectiveZoom(zoom);
      if d.grillHeight > 0 && InRemoveButton(img.width, img.height - d.grillHeight as real, z, worldX, worldY) then
        Some(GrillRemove)
      else if d.smallGrillHeight > 0
        && InRemoveButton(img.width, img.height - d.smallGrillHeight as real, z, worldX, worldY) then
        Some(SmallGrillRemove)
      else None
  }

  /** `hitTestGrillRemoveButton` on the editor state. */
  function GrillRemoveHitAt(st: EditorState, worldX: real, worldY: real): (r: Option<GrillButton>)
    reads st`data, st`setGrillHeight, st`setSmallGrillHeight, st`activeTab, st`backgroundImage, st`dmdImage, st`zoom
    ensures r.Some? ==> (st.setGrillHeight || st.setSmallGrillHeight) && st.activeTab == BackglassTab
  {
    GrillRemoveHit(st.data, st.setGrillHeight || st.setSmallGrillHeight, st.activeTab,
                   ActiveImageDimensions(st.activeTab, st.backgroundImage, st.dmdImage), st.zoom, worldX, worldY)
  }

  /**
   * `hitTestDmdDefaultLocationRemove`: the 12-pixel button 5 pixels right of
   * the placed DMD, only while placing the DMD default location on the
   * backglass with a DMD image and a location set.
   */
  function DmdDefaultLocationRemoveHit(st: EditorState, worldX: real, worldY: real): (r: bool)
    reads st`setDmdDefaultLocation, st`activeTab, st`dmdImage, st`data, st`zoom
    ensures r ==>
      && st.setDmdDefaultLocation && st.activeTab == BackglassTab && st.dmdImage.Some?
      && (st.data.dmdDefaultLocationX > 0 || st.data.dmdDefaultLocationY > 0)
    ensures r && st.zoom > 0.0 ==>
      && worldX > st.data.dmdDefaultLocationX as real + st.dmdImage.value.width
      && worldY >= st.data.dmdDefaultLocationY as real
  {
    if !st.setDmdDefaultLocation || st.activeTab != BackglassTab || st.dmdImage.None? then false
    else if st.data.dmdDefaultLocationX <= 0 && st.data.dmdDefaultLocationY <= 0 then false
    else
      var z := EffectiveZoom(st.zoom);
      var removeX := st.data.dmdDefaultLocationX as real + st.dmdImage.value.width + 5.0 / z;
      var removeY := st.data.dmdDefaultLocationY as real;
      removeX <= worldX <= removeX + 12.0 / z && removeY <= worldY <= removeY + 12.0 / z
  }

  datatype DmdCopyAreaHit = CameraHit | HandleOf(position: string) | MoveHit

  /** The copy area's camera icon, 16 pixels square, 3 pixels inside its top-right corner, with 2 pixels of slack. */
  predicate InCamera(d: Document, z: real, worldX: real, worldY: real)
    requires z != 0.0
  {
    var cameraX := (d.dmdCopyAreaX + d.dmdCopyAreaWidth) as real - 16.0 / z - 3.0 / z;
    var cameraY := d.dmdCopyAreaY as real + 3.0 / z;
    cameraX - 2.0 / z <= worldX <= cameraX + 16.0 / z + 2.0 / z
    && cameraY - 2.0 / z <= worldY <= cameraY + 16.0 / z + 2.0 / z
  }

  /** The point is within 4 + 8 pixels of the anchor of handle `i` (in POSITIONS order) on both axes. */
  predicate NearCopyHandle(d: Document, z: real, i: nat, worldX: real, worldY: real)
    requires z != 0.0 && i < 8
  {
    var hx := d.dmdCopyAreaX as real + FractionX(POSITIONS[i]) * d.dmdCopyAreaWidth as real;
    var hy := d.dmdCopyAreaY as real + FractionY(POSITIONS[i]) * d.dmdCopyAreaHeight as real;
    var reach := 8.0 / z / 2.0 + 8.0 / z;
    hx - reach <= worldX <= hx + reach && hy - reach <= worldY <= hy + reach
  }

  function FirstCopyHandle(d: Document, z: real, worldX: real, worldY: real, from: nat): (r: Option<nat>)
    requires z != 0.0 && from <= 8
    ensures r.Some? ==> from <= r.value < 8 && NearCopyHandle(d, z, r.value, worldX, worldY)
    ensures forall j :: from <= j < (if r.Some? then r.value else 8) ==> !NearCopyHandle(d, z, j, worldX, worldY)
    decreases 8 - from
  {
    if from == 8 then None
    else if NearCopyHandle(d, z, from, worldX, worldY) then Some(from)
    else FirstCopyHandle(d, z, worldX, worldY, from + 1)
  }

  predicate InCopyArea(d: Document, worldX: real, worldY: real)
  {
    d.dmdCopyAreaX as real <= worldX <= (d.dmdCopyAreaX + d.dmdCopyAreaWidth) as real
    && d.dmdCopyAreaY as real <= worldY <= (d.dmdCopyAreaY + d.dmdCopyAreaHeight) as real
  }

  predicate CopyAreaActive(d: Document, copyMode: bool, tab: Tab)
  {
    copyMode && tab == BackglassTab && d.dmdCopyAreaWidth > 0 && d.dmdCopyAreaHeight > 0
  }

  /**
   * What `hitTestDmdCopyArea` finds: the camera icon first, then the eight
   * handles in POSITIONS order, then the inside of the area.
   */
  function DmdCopyAreaHitAt(d: Document, copyMode: bool, tab: Tab, zoom: real, worldX: real, worldY: real)
    : (r: Option<DmdCopyAreaHit>)
    ensures r.Some? ==> CopyAreaActive(d, copyMode, tab)
    ensures r == Some(CameraHit) <==> CopyAreaActive(d, copyMode, tab) && InCamera(d, EffectiveZoom(zoom), worldX, worldY)
    ensures r.Some? && r.value.HandleOf? ==>
      && !InCamera(d, EffectiveZoom(zoom), worldX, worldY)
      && exists i :: 0 <= i < 8 && POSITIONS[i] == r.value.position && NearCopyHandle(d, EffectiveZoom(zoom), i, worldX, worldY)
    ensures r == Some(MoveHit) <==>
      && CopyAreaActive(d, copyMode, tab) && !InCamera(d, EffectiveZoom(zoom), worldX, worldY)
      && (forall i :: 0 <= i < 8 ==> !NearCopyHandle(d, EffectiveZoom(zoom), i, worldX, worldY))
      && InCopyArea(d, worldX, worldY)
  {
    if !CopyAreaActive(d, copyMode, tab) then None
    else
      var z := EffectiveZoom(zoom);
      if InCamera(d, z, worldX, worldY) then Some(CameraHit)
      else match FirstCopyHandle(d, z, worldX, worldY, 0)
        case Some(i) => Some(HandleOf(POSITIONS[i]))
        case None => if InCopyArea(d, worldX, worldY) then Some(MoveHit) else None
  }

  /** `hitTestDmdCopyArea`. */
  method HitTestDmdCopyArea(st: EditorState, worldX: real, worldY: real) returns (r: Option<DmdCopyAreaHit>)
    ensures r == DmdCopyAreaHitAt(st.data, st.copyDmdFromBackglass, st.activeTab, st.zoom, worldX, worldY)
  {
    if !st.copyDmdFromBackglass || st.activeTab != BackglassTab {
      return None;
    }
    var d := st.data;
    if d.dmdCopyAreaWidth <= 0 || d.dmdCopyAreaHeight <= 0 {
      return None;
    }
    var z := if st.zoom == 0.0 then 1.0 else st.zoom;
    if InCamera(d, z, worldX, worldY) {
      return Some(CameraHit);
    }
    var i := 0;
    while i < 8
      invariant 0 <= i <= 8
      invariant FirstCopyHandle(d, z, worldX, worldY, 0) == FirstCopyHandle(d, z, worldX, worldY, i)
    {
      if NearCopyHandle(d, z, i, worldX, worldY) {
        return Some(HandleOf(POSITIONS[i]));
      }
      i := i + 1;
    }
    if InCopyArea(d, worldX, worldY) {
      return Some(MoveHit);
    }
    return None;
  }
}
