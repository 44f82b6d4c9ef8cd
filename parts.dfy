/**
 * The editable parts: the registry of part editors and the eight resize
 * handles it lays out around a bounding box, the bulb part (hit test,
 * bounds, the overlay blend, HTML escaping, image format sniffing) and the
 * score part (hit test, bounds, reel resource names, credit-reel digit
 * values and the seven-segment table).
 */
module Parts {
  import opened Wrappers
  import opened Text
  import opened Data

  // ---------------------------------------------------------------------
  // Resize handles

  datatype ResizeHandle = ResizeHandle(x: real, y: real, cursor: string, position: string)

  /** The handle positions, in the order the registry lists them. */
  const POSITIONS: seq<string> := ["nw", "n", "ne", "w", "e", "sw", "s", "se"]

  const DEFAULT_HANDLE_SIZE: real := 6.0

  /** Where across the box a handle sits: 0 on the west edge, 1/2 in the middle, 1 on the east edge. */
  function FractionX(position: string): real
  {
    if position == "nw" || position == "w" || position == "sw" then 0.0
    else if position == "ne" || position == "e" || position == "se" then 1.0
    else 0.5
  }

  function FractionY(position: string): real
  {
    if position == "nw" || position == "n" || position == "ne" then 0.0
    else if position == "sw" || position == "s" || position == "se" then 1.0
    else 0.5
  }

  /** Diagonal handles get diagonal cursors, edge handles the cursor across their edge. */
  function CursorFor(position: string): string
  {
    if position == "nw" || position == "se" then "nwse-resize"
    else if position == "ne" || position == "sw" then "nesw-resize"
    else if position == "n" || position == "s" then "ns-resize"
    else "ew-resize"
  }

  /**
   * `getResizeHandlesForBounds`: eight handles in the order of POSITIONS,
   * each a square of `handleSize` centred on its corner or edge midpoint.
   */
  function ResizeHandlesForBounds(x: real, y: real, width: real, height: real, handleSize: real): (hs: seq<ResizeHandle>)
    ensures |hs| == 8
    ensures forall i :: 0 <= i < 8 ==> hs[i].position == POSITIONS[i] && hs[i].cursor == CursorFor(POSITIONS[i])
    ensures forall i :: 0 <= i < 8 ==>
      hs[i].x + handleSize / 2.0 == x + FractionX(POSITIONS[i]) * width
      && hs[i].y + handleSize / 2.0 == y + FractionY(POSITIONS[i]) * height
  {
    var hw := handleSize / 2.0;
    [ ResizeHandle(x - hw, y - hw, "nwse-resize", "nw"),
      ResizeHandle(x + width / 2.0 - hw, y - hw, "ns-resize", "n"),
      ResizeHandle(x + width - hw, y - hw, "nesw-resize", "ne"),
      ResizeHandle(x - hw, y + height / 2.0 - hw, "ew-resize", "w"),
      ResizeHandle(x + width - hw, y + height / 2.0 - hw, "ew-resize", "e"),
      ResizeHandle(x - hw, y + height - hw, "nesw-resize", "sw"),
      ResizeHandle(x + width / 2.0 - hw, y + height - hw, "ns-resize", "s"),
      ResizeHandle(x + width - hw, y + height - hw, "nwse-resize", "se") ]
  }

  /** The handle's square, grown by `offset` on every side, contains the point. */
  predicate InHandle(h: ResizeHandle, worldX: real, worldY: real, offset: real, visualSize: real)
  {
    h.x - offset <= worldX <= h.x + visualSize + offset && h.y - offset <= worldY <= h.y + visualSize + offset
  }

  /** The index of the first handle containing the point. */
  function FirstHandleIn(handles: seq<ResizeHandle>, worldX: real, worldY: real, offset: real, visualSize: real): (r: Option<nat>)
    ensures r.Some? ==> r.value < |handles| && InHandle(handles[r.value], worldX, worldY, offset, visualSize)
    ensures r.Some? ==> forall j :: 0 <= j < r.value ==> !InHandle(handles[j], worldX, worldY, offset, visualSize)
    ensures r.None? ==> forall j :: 0 <= j < |handles| ==> !InHandle(handles[j], worldX, worldY, offset, visualSize)
  {
    if handles == [] then None
    else if InHandle(handles[0], worldX, worldY, offset, visualSize) then Some(0)
    else match FirstHandleIn(handles[1..], worldX, worldY, offset, visualSize)
      case None => None
      case Some(i) => Some(i + 1)
  }

  /** `hitTestResizeHandle(handles, x, y, hitSize, visualSize)`: the first handle hit, in list order. */
  method HitTestResizeHandle(handles: seq<ResizeHandle>, worldX: real, worldY: real, hitSize: real, visualSize: real)
    returns (r: Option<ResizeHandle>)
    ensures r.Some? <==> FirstHandleIn(handles, worldX, worldY, (hitSize - visualSize) / 2.0, visualSize).Some?
    ensures r.Some? ==> r.value == handles[FirstHandleIn(handles, worldX, worldY, (hitSize - visualSize) / 2.0, visualSize).value]
  {
    var offset := (hitSize - visualSize) / 2.0;
    var i := 0;
    while i < |handles|
      invariant 0 <= i <= |handles|
      invariant forall j :: 0 <= j < i ==> !InHandle(handles[j], worldX, worldY, offset, visualSize)
    {
      var h := handles[i];
      var inX := worldX >= h.x - offset && worldX <= h.x + visualSize + offset;
      var inY := worldY >= h.y - offset && worldY <= h.y + visualSize + offset;
      if inX && inY {
        FirstHandleUnique(handles, worldX, worldY, offset, visualSize, i);
        return Some(h);
      }
      i := i + 1;
    }
    FirstHandleUnique(handles, worldX, worldY, offset, visualSize, |handles|);
    return None;
  }

  /** The first hit is determined by the handles before it. */
  lemma FirstHandleUnique(handles: seq<ResizeHandle>, worldX: real, worldY: real, offset: real, visualSize: real, i: nat)
    requires i <= |handles|
    requires forall j :: 0 <= j < i ==> !InHandle(handles[j], worldX, worldY, offset, visualSize)
    requires i < |handles| ==> InHandle(handles[i], worldX, worldY, offset, visualSize)
    ensures FirstHandleIn(handles, worldX, worldY, offset, visualSize) == if i < |handles| then Some(i) else None
  {
    var r := FirstHandleIn(handles, worldX, worldY, offset, visualSize);
    if r.Some? {
      assert !(r.value < i) && !(i < r.value);
    }
  }

  // ---------------------------------------------------------------------
  // The registry of part editors

  /** The part editors the editor registers: one per entity type. */
  datatype Editable = BulbEditable | ScoreEditable

  /** `registerEditable`/`getEditable`: a map from type name to editor, keys in first-registration order. */
  class Registry {
    var types: seq<string>
    var editables: map<string, Editable>

    ghost predicate Valid()
      reads this
    {
      (forall t :: t in editables <==> t in types)
      && (forall i, j :: 0 <= i < j < |types| ==> types[i] != types[j])
    }

    constructor()
      ensures Valid() && types == [] && editables == map[]
    {
      types := [];
      editables := map[];
    }

    /** `getEditable(type)`: `None` for a type never registered. */
    function GetEditable(t: string): (r: Option<Editable>)
      reads this
      ensures r.Some? <==> t in editables
      ensures r.Some? ==> r.value == editables[t]
    {
      if t in editables then Some(editables[t]) else None
    }

    /** `registerEditable`: a later registration for the same type replaces the earlier one. */
    method RegisterEditable(t: string, e: Editable)
      requires Valid()
      modifies this
      ensures Valid()
      ensures GetEditable(t) == Some(e)
      ensures forall u :: u != t ==> GetEditable(u) == old(GetEditable(u))
      ensures types == if t in old(types) then old(types) else old(types) + [t]
    {
      if t !in editables {
        types := types + [t];
      }
      editables := editables[t := e];
    }

    /** `getAllEditableTypes`. */
    function GetAllEditableTypes(): (r: seq<string>)
      reads this
      requires Valid()
      ensures forall t :: t in r <==> GetEditable(t).Some?
    {
      types
    }
  }

  // ---------------------------------------------------------------------
  // Bulb and score parts

  datatype Bounds = Bounds(x: real, y: real, width: real, height: real)

  /** The closed box of the bounds contains the point. */
  predicate Contains(b: Bounds, worldX: real, worldY: real)
  {
    b.x <= worldX <= b.x + b.width && b.y <= worldY <= b.y + b.height
  }

  function BulbBounds(b: Bulb): (r: Bounds)
    ensures r.x == b.locX && r.y == b.locY && r.width == b.width && r.height == b.height
  {
    Bounds(b.locX, b.locY, b.width, b.height)
  }

  function ScoreBounds(s: Score): (r: Bounds)
    ensures r.x == s.locX && r.y == s.locY && r.width == s.width && r.height == s.height
  {
    Bounds(s.locX, s.locY, s.width, s.height)
  }

  /** The bulb part's `hitTest`: the closed box of the bulb. */
  predicate BulbHitTest(b: Bulb, worldX: real, worldY: real)
  {
    worldX >= b.locX && worldX <= b.locX + b.width && worldY >= b.locY && worldY <= b.locY + b.height
  }

  /** The score part's `hitTest`: the closed box of the score. */
  predicate ScoreHitTest(s: Score, worldX: real, worldY: real)
  {
    worldX >= s.locX && worldX <= s.locX + s.width && worldY >= s.locY && worldY <= s.locY + s.height
  }

  function BulbResizeHandles(b: Bulb): seq<ResizeHandle>
  {
    var r := BulbBounds(b);
    ResizeHandlesForBounds(r.x, r.y, r.width, r.height, DEFAULT_HANDLE_SIZE)
  }

  function ScoreResizeHandles(s: Score): seq<ResizeHandle>
  {
    var r := ScoreBounds(s);
    ResizeHandlesForBounds(r.x, r.y, r.width, r.height, DEFAULT_HANDLE_SIZE)
  }

  /**
   * A bulb is hit exactly inside the box spanned by the centres of its
   * north-west and south-east handles, and the hit test agrees with its bounds.
   */
  lemma BulbHitBetweenHandles(b: Bulb, worldX: real, worldY: real)
    ensures var hs := BulbResizeHandles(b);
      BulbHitTest(b, worldX, worldY) <==>
        (hs[0].x + DEFAULT_HANDLE_SIZE / 2.0 <= worldX <= hs[7].x + DEFAULT_HANDLE_SIZE / 2.0
         && hs[0].y + DEFAULT_HANDLE_SIZE / 2.0 <= worldY <= hs[7].y + DEFAULT_HANDLE_SIZE / 2.0)
    ensures BulbHitTest(b, worldX, worldY) <==> Contains(BulbBounds(b), worldX, worldY)
  {
    var hs := BulbResizeHandles(b);
    assert POSITIONS[0] == "nw" && POSITIONS[7] == "se";
    assert hs[0].x + DEFAULT_HANDLE_SIZE / 2.0 == b.locX && hs[7].x + DEFAULT_HANDLE_SIZE / 2.0 == b.locX + b.width;
  }

  /** The same for a score. */
  lemma ScoreHitBetweenHandles(s: Score, worldX: real, worldY: real)
    ensures var hs := ScoreResizeHandles(s);
      ScoreHitTest(s, worldX, worldY) <==>
        (hs[0].x + DEFAULT_HANDLE_SIZE / 2.0 <= worldX <= hs[7].x + DEFAULT_HANDLE_SIZE / 2.0
         && hs[0].y + DEFAULT_HANDLE_SIZE / 2.0 <= worldY <= hs[7].y + DEFAULT_HANDLE_SIZE / 2.0)
    ensures ScoreHitTest(s, worldX, worldY) <==> Contains(ScoreBounds(s), worldX, worldY)
  {
    var hs := ScoreResizeHandles(s);
    assert POSITIONS[0] == "nw" && POSITIONS[7] == "se";
    assert hs[0].x + DEFAULT_HANDLE_SIZE / 2.0 == s.locX && hs[7].x + DEFAULT_HANDLE_SIZE / 2.0 == s.locX + s.width;
  }

  /** The overlay blend of two channel values, before clamping. */
  function OverlayRaw(a: real, b: real): real
  {
    if a < 128.0 then (2.0 * b * a) / 255.0 else 255.0 - (2.0 * (255.0 - b) * (255.0 - a)) / 255.0
  }

  /** `colorOverlay(a, b)`: the blend clamped to the channel range. */
  function ColorOverlay(a: real, b: real): (c: real)
    ensures 0.0 <= c <= 255.0
    ensures 0.0 <= OverlayRaw(a, b) <= 255.0 ==> c == OverlayRaw(a, b)
  {
    var c := OverlayRaw(a, b);
    var upper := if c < 255.0 then c else 255.0;
    if upper > 0.0 then upper else 0.0
  }

  /** A black base stays black under the overlay, whatever the tint. */
  lemma OverlayOfBlack(b: real)
    requires 0.0 <= b <= 255.0
    ensures ColorOverlay(0.0, b) == 0.0
  {
  }

  /** `escapeHtml`: `&` first, then `<`, `>` and `"`. */
  function EscapeHtml(text: string): (r: string)
    ensures '<' !in r && '>' !in r && '"' !in r
  {
    ReplaceChar(ReplaceChar(ReplaceChar(ReplaceChar(text, '&', "&amp;"), '<', "&lt;"), '>', "&gt;"), '"', "&quot;")
  }

  /** The entity one character becomes. */
  function EscapeHtmlChar(c: char): string
  {
    if c == '&' then "&amp;" else if c == '<' then "&lt;" else if c == '>' then "&gt;" else if c == '"' then "&quot;" else [c]
  }

  /** Each character escaped on its own: what the chain of replacements amounts to. */
  function EscapeHtmlEach(text: string): string
  {
    if text == [] then [] else EscapeHtmlChar(text[0]) + EscapeHtmlEach(text[1..])
  }

  lemma {:induction false} ReplaceCharAppend(a: string, b: string, c: char, rep: string)
    ensures ReplaceChar(a + b, c, rep) == ReplaceChar(a, c, rep) + ReplaceChar(b, c, rep)
  {
    if a == [] {
      assert a + b == b;
    } else {
      var h := if a[0] == c then rep else [a[0]];
      assert (a + b)[0] == a[0] && (a + b)[1..] == a[1..] + b;
      ReplaceCharAppend(a[1..], b, c, rep);
      calc {
        ReplaceChar(a + b, c, rep);
        h + ReplaceChar(a[1..] + b, c, rep);
        h + (ReplaceChar(a[1..], c, rep) + ReplaceChar(b, c, rep));
        (h + ReplaceChar(a[1..], c, rep)) + ReplaceChar(b, c, rep);
      }
    }
  }

  lemma EscapeHtmlAppend(a: string, b: string)
    ensures EscapeHtml(a + b) == EscapeHtml(a) + EscapeHtml(b)
  {
    ReplaceCharAppend(a, b, '&', "&amp;");
    var a1, b1 := ReplaceChar(a, '&', "&amp;"), ReplaceChar(b, '&', "&amp;");
    ReplaceCharAppend(a1, b1, '<', "&lt;");
    var a2, b2 := ReplaceChar(a1, '<', "&lt;"), ReplaceChar(b1, '<', "&lt;");
    ReplaceCharAppend(a2, b2, '>', "&gt;");
    var a3, b3 := ReplaceChar(a2, '>', "&gt;"), ReplaceChar(b2, '>', "&gt;");
    ReplaceCharAppend(a3, b3, '"', "&quot;");
  }

  lemma ReplaceCharSingle(x: char, c: char, rep: string)
    ensures ReplaceChar([x], c, rep) == if x == c then rep else [x]
  {
    assert [x][1..] == [];
  }

  /** One character on its own: the later replacements leave an entity alone. */
  lemma EscapeHtmlSingle(c: char)
    ensures EscapeHtml([c]) == EscapeHtmlChar(c)
  {
    var r1 := ReplaceChar([c], '&', "&amp;");
    ReplaceCharSingle(c, '&', "&amp;");
    if c == '&' {
      assert '<' !in r1 && '>' !in r1 && '"' !in r1;
    } else {
      ReplaceCharSingle(c, '<', "&lt;");
      var r2 := ReplaceChar(r1, '<', "&lt;");
      if c == '<' {
        assert '>' !in r2 && '"' !in r2;
      } else {
        ReplaceCharSingle(c, '>', "&gt;");
        var r3 := ReplaceChar(r2, '>', "&gt;");
        if c == '>' {
          assert '"' !in r3;
        } else {
          ReplaceCharSingle(c, '"', "&quot;");
        }
      }
    }
  }

  /**
   * Because `&` is replaced first, the entities introduced later are not
   * escaped again: the chain escapes every character exactly once.
   */
  lemma {:induction false} EscapeHtmlIsPerChar(text: string)
    ensures EscapeHtml(text) == EscapeHtmlEach(text)
  {
    if text != [] {
      assert text == [text[0]] + text[1..];
      EscapeHtmlAppend([text[0]], text[1..]);
      EscapeHtmlSingle(text[0]);
      EscapeHtmlIsPerChar(text[1..]);
    }
  }

  /** The signatures begin with different characters, so at most one of them matches. */
  lemma KnownPrefixesExclusive(s: string)
    ensures StartsWith(s, "/9j/") ==> s[0] == '/'
    ensures StartsWith(s, "iVBORw0KGgo") ==> s[0] == 'i'
    ensures StartsWith(s, "R0lGOD") ==> s[0] == 'R'
    ensures StartsWith(s, "UklGR") ==> s[0] == 'U'
    ensures StartsWith(s, "Qk") ==> s[0] == 'Q'
  {
    if StartsWith(s, "/9j/") { assert s[..4][0] == s[0]; }
    if StartsWith(s, "iVBORw0KGgo") { assert s[..11][0] == s[0]; }
    if StartsWith(s, "R0lGOD") { assert s[..6][0] == s[0]; }
    if StartsWith(s, "UklGR") { assert s[..5][0] == s[0]; }
    if StartsWith(s, "Qk") { assert s[..2][0] == s[0]; }
  }

  /** `detectImageFormat`: the MIME type named by the first bytes of the base64 text, PNG by default. */
  function DetectImageFormat(base64: string): (mime: string)
    ensures mime == "image/jpeg" <==> StartsWith(base64, "/9j/")
    ensures mime == "image/gif" <==> StartsWith(base64, "R0lGOD")
    ensures mime == "image/webp" <==> StartsWith(base64, "UklGR")
    ensures mime == "image/bmp" <==> StartsWith(base64, "Qk")
    ensures mime == "image/png" <==>
      !StartsWith(base64, "/9j/") && !StartsWith(base64, "R0lGOD") && !StartsWith(base64, "UklGR") && !StartsWith(base64, "Qk")
  {
    KnownPrefixesExclusive(base64);
    if StartsWith(base64, "/9j/") then "image/jpeg"
    else if StartsWith(base64, "iVBORw0KGgo") then "image/png"
    else if StartsWith(base64, "R0lGOD") then "image/gif"
    else if StartsWith(base64, "UklGR") then "image/webp"
    else if StartsWith(base64, "Qk") then "image/bmp"
    else "image/png"
  }

  /** The number of `0` characters ending `s`. */
  function TrailingZeros(s: string): (n: nat)
    ensures n <= |s|
    ensures forall i :: |s| - n <= i < |s| ==> s[i] == '0'
    ensures n < |s| ==> s[|s| - n - 1] != '0'
  {
    if |s| > 0 && s[|s| - 1] == '0' then TrailingZeros(s[..|s| - 1]) + 1 else 0
  }

  /**
   * `getResourceReelType`: `replace(/_0+$/, '')` removes an underscore
   * followed by the zeros that end the name, and nothing else.
   */
  function ResourceReelType(reelType: string): (r: string)
    ensures r == reelType || (exists k :: 0 < k && reelType == r + "_" + Zeros(k))
    ensures r != reelType <==> 0 < TrailingZeros(reelType) < |reelType| && reelType[|reelType| - TrailingZeros(reelType) - 1] == '_'
  {
    var n := TrailingZeros(reelType);
    if 0 < n < |reelType| && reelType[|reelType| - n - 1] == '_' then
      assert reelType == reelType[..|reelType| - n - 1] + "_" + Zeros(n);
      reelType[..|reelType| - n - 1]
    else reelType
  }

  function Zeros(k: nat): (z: string)
    ensures |z| == k && forall i :: 0 <= i < k ==> z[i] == '0'
  {
    seq(k, _ => '0')
  }

  lemma ResourceReelTypeExamples()
    ensures ResourceReelType("EMR_T1_0") == "EMR_T1"
    ensures ResourceReelType("EMR_CT1_00") == "EMR_CT1"
    ensures ResourceReelType("Dream7LED8") == "Dream7LED8"
  {
    assert "EMR_T1_0"[..7] == "EMR_T1_";
    assert TrailingZeros("EMR_T1_0") == 1;
    assert "EMR_CT1_00"[..9] == "EMR_CT1_0" && "EMR_CT1_0"[..8] == "EMR_CT1_";
    assert TrailingZeros("EMR_CT1_00") == 2;
  }

  /** The credit reel's digit: a non-digit shows 0; a digit is capped at the reel's maximum (15 by default). */
  function CreditDigitValue(c: char, maxValue: Option<int>): (v: int)
    ensures !IsDigit(c) ==> v == 0
    ensures IsDigit(c) ==> v <= DigitValue(c) && v <= maxValue.GetOr(15)
    ensures IsDigit(c) ==> v == DigitValue(c) || v == maxValue.GetOr(15)
  {
    ParseIntOfChar(c);
    match ParseInt([c])
    case None => 0
    case Some(d) =>
      var cap := maxValue.GetOr(15);
      if d < cap then d else cap
  }

  /** `parseInt` of one character: its digit, or `NaN`. */
  lemma ParseIntOfChar(c: char)
    ensures ParseInt([c]) == if IsDigit(c) then Some(DigitValue(c) as int) else None
  {
    if IsSpace(c) {
      assert TrimStart([c]) == TrimStart([c][1..]) == [];
    } else {
      assert TrimStart([c]) == [c];
      if c == '-' || c == '+' {
        assert SkipSign([c]) == [];
      } else {
        assert SkipSign([c]) == [c];
        if IsDigit(c) {
          assert DigitPrefix([c]) == [c] by { assert [c][1..] == []; }
          assert DigitsValue([c]) == DigitValue(c) by { assert [c][..0] == []; }
        }
      }
    }
  }

  /** The character a reel position shows: past the end of the value it shows `0`. */
  function DisplayChar(displayValue: string, i: nat): char
  {
    if i < |displayValue| then displayValue[i] else '0'
  }

  /** The seven-segment table, segment a as the high bit through segment g. */
  function SegmentMask(c: char): (m: nat)
    ensures m < 128
    ensures !IsDigit(c) ==> m == 0
  {
    match c
    case '0' => 126
    case '1' => 48
    case '2' => 109
    case '3' => 121
    case '4' => 51
    case '5' => 91
    case '6' => 95
    case '7' => 112
    case '8' => 127
    case '9' => 123
    case _ => 0
  }

  function Pow2(n: nat): (p: nat)
    ensures p >= 1
  {
    if n == 0 then 1 else 2 * Pow2(n - 1)
  }

  /** Segment `i` (0 = a … 6 = g) of the character is lit. */
  predicate SegmentLit(c: char, i: nat)
    requires i < 7
  {
    (SegmentMask(c) / Pow2(6 - i)) % 2 == 1
  }

  /** A character other than a digit lights no segment. */
  lemma NonDigitDark(c: char)
    requires !IsDigit(c)
    ensures forall i :: 0 <= i < 7 ==> !SegmentLit(c, i)
  {
  }

  /** `8` lights every segment and `1` exactly b and c. */
  lemma SegmentExamples()
    ensures forall i :: 0 <= i < 7 ==> SegmentLit('8', i)
    ensures forall i :: 0 <= i < 7 ==> (SegmentLit('1', i) <==> i == 1 || i == 2)
  {
    assert Pow2(0) == 1 && Pow2(1) == 2 && Pow2(2) == 4 && Pow2(3) == 8;
    assert Pow2(4) == 16 && Pow2(5) == 32 && Pow2(6) == 64;
  }

  /** No two digits share a pattern, so every digit reads unambiguously. */
  lemma DigitPatternsDistinct(c1: char, c2: char)
    requires IsDigit(c1) && IsDigit(c2) && c1 != c2
    ensures SegmentMask(c1) != SegmentMask(c2)
  {
  }
}
