/**
 * The brightness dialog's pixel filter.  An RGBA buffer is lightened
 * towards white or darkened towards black by `brightness` percent, row by
 * row from the top; the rows of a grill at the bottom can be left alone.
 * The buffer is a `Uint8ClampedArray`: every store is clamped to 0..255.
 */
module Brightness {
  import opened Wrappers
  import opened Numbers
  import opened Text

  /** A store into a `Uint8ClampedArray` of a value that is already an integer. */
  function Clamp8(v: int): (r: int)
    ensures 0 <= r <= 255
    ensures 0 <= v <= 255 ==> r == v
    ensures v < 0 ==> r == 0
    ensures v > 255 ==> r == 255
  {
    if v < 0 then 0 else if v > 255 then 255 else v
  }

  lemma Clamp8Monotonic(a: int, b: int)
    requires a <= b
    ensures Clamp8(a) <= Clamp8(b)
  {
  }

  /**
   * One colour byte: a positive `amount` moves it towards 255 by that
   * fraction of the gap, any other moves it towards 0 by `|amount|` of its
   * value; the result is rounded and clamped.
   */
  function Adjust(v: int, amount: real): (r: int)
    requires 0 <= v <= 255
    ensures 0 <= r <= 255
    ensures amount > 0.0 ==> v <= r
    ensures amount < 0.0 ==> r <= v
    ensures amount == 0.0 ==> r == v
  {
    if amount > 0.0 then
      var x := v as real + amount * (255 - v) as real;
      assert amount * (255 - v) as real >= 0.0;
      RoundOfInt(v);
      RoundMonotonic(v as real, x);
      Clamp8Monotonic(v, Round(x));
      Clamp8(Round(x))
    else
      var a := -amount;
      var x := v as real - a * v as real;
      assert a * v as real >= 0.0;
      RoundOfInt(v);
      RoundMonotonic(x, v as real);
      Clamp8Monotonic(Round(x), v);
      Clamp8(Round(x))
  }

  /** The rows filtered: all of them, or those above a positive grill height. */
  function EffectiveHeight(height: int, grillHeight: int): (h: int)
    ensures grillHeight > 0 ==> h == height - grillHeight
    ensures grillHeight <= 0 ==> h == height
  {
    if grillHeight > 0 then height - grillHeight else height
  }

  /** The end of the filtered bytes: the first byte of the first untouched row. */
  function Limit(width: nat, height: nat, grillHeight: int): (n: nat)
    ensures n <= height * width * 4
  {
    var h := EffectiveHeight(height, grillHeight);
    if h <= 0 then 0
    else
      MulMonotonic(h, height, width * 4);
      h * width * 4
  }

  /**
   * What `applyBrightnessToImageData` leaves in the buffer: every colour
   * byte before `limit` adjusted, every alpha byte and everything after
   * `limit` as it was.
   */
  function Filtered(pixels: seq<int>, limit: nat, amount: real): (r: seq<int>)
    requires forall k :: 0 <= k < |pixels| ==> 0 <= pixels[k] <= 255
    ensures |r| == |pixels|
    ensures forall k :: 0 <= k < |r| ==> 0 <= r[k] <= 255
  {
    seq(|pixels|, k requires 0 <= k < |pixels| => if k < limit && k % 4 != 3 then Adjust(pixels[k], amount) else pixels[k])
  }

  /** The row of byte `k` in a buffer `width` pixels wide is below `h` exactly when `k` is past `h` rows. */
  lemma RowOfByte(k: nat, width: nat, h: nat)
    requires width > 0
    ensures k / (width * 4) >= h <==> k >= h * width * 4
  {
    var rb := width * 4;
    var q, r := k / rb, k % rb;
    assert k == q * rb + r && 0 <= r < rb;
    if q >= h {
      MulMonotonic(h, q, rb);
    } else {
      MulMonotonic(q + 1, h, rb);
    }
  }

  lemma MulMonotonic(a: int, b: int, c: nat)
    requires a <= b
    ensures a * c <= b * c
  {
  }

  /** Only the rows above the grill change. */
  lemma OnlyRowsAboveGrill(pixels: seq<int>, width: nat, height: nat, grillHeight: int, amount: real, k: nat)
    requires forall k :: 0 <= k < |pixels| ==> 0 <= pixels[k] <= 255
    requires width > 0 && k < |pixels|
    requires k / (width * 4) >= EffectiveHeight(height, grillHeight)
    ensures Filtered(pixels, Limit(width, height, grillHeight), amount)[k] == pixels[k]
  {
    var h := EffectiveHeight(height, grillHeight);
    if h > 0 {
      RowOfByte(k, width, h);
    }
  }

  /** Alpha is never touched, and brightness 0 touches nothing. */
  lemma AlphaAndZero(pixels: seq<int>, limit: nat, amount: real)
    requires forall k :: 0 <= k < |pixels| ==> 0 <= pixels[k] <= 255
    ensures forall k :: 0 <= k < |pixels| && k % 4 == 3 ==> Filtered(pixels, limit, amount)[k] == pixels[k]
    ensures amount == 0.0 ==> Filtered(pixels, limit, amount) == pixels
  {
  }

  /** Brightening never darkens a byte and darkening never brightens one. */
  lemma Direction(pixels: seq<int>, limit: nat, amount: real)
    requires forall k :: 0 <= k < |pixels| ==> 0 <= pixels[k] <= 255
    ensures amount > 0.0 ==> forall k :: 0 <= k < |pixels| ==> pixels[k] <= Filtered(pixels, limit, amount)[k]
    ensures amount < 0.0 ==> forall k :: 0 <= k < |pixels| ==> Filtered(pixels, limit, amount)[k] <= pixels[k]
  {
  }

  /**
   * `applyBrightnessToImageData`, on the image's RGBA bytes, `width` by
   * `height` pixels: the rows above the effective height, one after the
   * other.
   */
  method ApplyBrightness(data: array<int>, width: nat, height: nat, brightness: real, grillHeight: int)
    requires data.Length == height * width * 4
    requires forall k :: 0 <= k < data.Length ==> 0 <= data[k] <= 255
    modifies data
    ensures data[..] == Filtered(old(data[..]), Limit(width, height, grillHeight), brightness / 100.0)
  {
    ghost var before := data[..];
    var amount := brightness / 100.0;
    var effectiveHeight := EffectiveHeight(height, grillHeight);
    var rowBytes := width * 4;
    var rows := if effectiveHeight > 0 then effectiveHeight else 0;
    AdjustRows(data, rows, height, width, amount, before);
    LimitRows(width, height, grillHeight, rowBytes);
    ProcessedUpTo(data[..], before, rows * rowBytes, Limit(width, height, grillHeight), amount);
  }

  /** The outer loop of `applyBrightnessToImageData`: the first `rows` rows, top to bottom. */
  method AdjustRows(data: array<int>, rows: nat, height: nat, width: nat, amount: real, ghost before: seq<int>)
    requires rows <= height && data.Length == height * width * 4
    requires forall k :: 0 <= k < |before| ==> 0 <= before[k] <= 255
    requires Processed(data[..], before, 0, amount)
    modifies data
    ensures Processed(data[..], before, rows * (width * 4), amount)
  {
    var rowBytes := width * 4;
    var y := 0;
    while y < rows
      invariant 0 <= y <= rows
      invariant Processed(data[..], before, y * rowBytes, amount)
    {
      var rowOffset := y * rowBytes;
      RowStep(y, rows, height, width, rowBytes);
      AdjustRow(data, rowOffset, width, amount, before);
      y := y + 1;
    }
  }

  /** The filtered bytes are the effective height's rows, or none. */
  lemma LimitRows(width: nat, height: nat, grillHeight: int, rowBytes: nat)
    requires rowBytes == width * 4
    ensures var h := EffectiveHeight(height, grillHeight);
      Limit(width, height, grillHeight) == if h > 0 then h * rowBytes else 0
  {
  }

  /** The next row lies inside the buffer. */
  lemma RowStep(y: nat, effectiveHeight: int, height: nat, width: nat, rowBytes: nat)
    requires y < effectiveHeight <= height && rowBytes == width * 4
    ensures (y + 1) * rowBytes == y * rowBytes + rowBytes <= height * width * 4
    ensures (y * rowBytes) % 4 == 0
  {
    MulMonotonic(y + 1, height, rowBytes);
    var n := y * width;
    assert y * rowBytes == n * 4;
  }

  /** Once every row above the grill is done, the buffer is the filtered one. */
  lemma ProcessedUpTo(now: seq<int>, before: seq<int>, done: int, limit: nat, amount: real)
    requires forall k :: 0 <= k < |before| ==> 0 <= before[k] <= 255
    requires Processed(now, before, done, amount)
    requires done == limit
    ensures now == Filtered(before, limit, amount)
  {
  }

  /** The first `done` bytes of `before` are filtered in `now`, the rest are as they were. */
  ghost predicate Processed(now: seq<int>, before: seq<int>, done: int, amount: real)
    requires forall k :: 0 <= k < |before| ==> 0 <= before[k] <= 255
  {
    && |now| == |before|
    && forall k :: 0 <= k < |now| ==>
         now[k] == if k < done && k % 4 != 3 then Adjust(before[k], amount) else before[k]
  }

  /** The inner loop of `applyBrightnessToImageData`: the `width` pixels of one row. */
  method AdjustRow(data: array<int>, rowOffset: nat, width: nat, amount: real, ghost before: seq<int>)
    requires rowOffset % 4 == 0 && rowOffset + width * 4 <= data.Length
    requires forall k :: 0 <= k < |before| ==> 0 <= before[k] <= 255
    requires Processed(data[..], before, rowOffset, amount)
    modifies data
    ensures Processed(data[..], before, rowOffset + width * 4, amount)
  {
    var x := 0;
    while x < width
      invariant 0 <= x <= width
      invariant Processed(data[..], before, rowOffset + x * 4, amount)
    {
      AdjustPixel(data, rowOffset + x * 4, amount, before);
      x := x + 1;
    }
  }

  /** One pixel: its red, green and blue bytes are adjusted, its alpha byte is left alone. */
  method AdjustPixel(data: array<int>, i: nat, amount: real, ghost before: seq<int>)
    requires i % 4 == 0 && i + 4 <= data.Length
    requires forall k :: 0 <= k < |before| ==> 0 <= before[k] <= 255
    requires Processed(data[..], before, i, amount)
    modifies data
    ensures Processed(data[..], before, i + 4, amount)
  {
    ghost var now := data[..];
    data[i] := Adjust(data[i], amount);
    data[i + 1] := Adjust(data[i + 1], amount);
    data[i + 2] := Adjust(data[i + 2], amount);
    assert data[..] == now[i := Adjust(now[i], amount)][i + 1 := Adjust(now[i + 1], amount)][i + 2 := Adjust(now[i + 2], amount)];
    ProcessedPixel(now, before, i, amount);
  }

  lemma ProcessedPixel(now: seq<int>, before: seq<int>, i: nat, amount: real)
    requires forall k :: 0 <= k < |before| ==> 0 <= before[k] <= 255
    requires i % 4 == 0 && i + 4 <= |now|
    requires Processed(now, before, i, amount)
    ensures Processed(now[i := Adjust(before[i], amount)][i + 1 := Adjust(before[i + 1], amount)][i + 2 := Adjust(before[i + 2], amount)], before, i + 4, amount)
  {
    var target := seq(|before|, k requires 0 <= k < |before| => Adjust(before[k], amount));
    PixelStep(now, before, target, i);
  }

  /** The pixel step on any target bytes: bytes `i` to `i + 2` take their target, byte `i + 3` is alpha. */
  lemma PixelStep(now: seq<int>, before: seq<int>, target: seq<int>, i: nat)
    requires |now| == |before| == |target| && i % 4 == 0 && i + 4 <= |now|
    requires forall k :: 0 <= k < |now| ==> now[k] == if k < i && k % 4 != 3 then target[k] else before[k]
    ensures var next := now[i := target[i]][i + 1 := target[i + 1]][i + 2 := target[i + 2]];
      forall k :: 0 <= k < |next| ==> next[k] == if k < i + 4 && k % 4 != 3 then target[k] else before[k]
  {
    var next := now[i := target[i]][i + 1 := target[i + 1]][i + 2 := target[i + 2]];
    assert (i + 1) % 4 == 1 && (i + 2) % 4 == 2 && (i + 3) % 4 == 3;
    forall k | 0 <= k < |next|
      ensures next[k] == if k < i + 4 && k % 4 != 3 then target[k] else before[k]
    {
      if k < i || k >= i + 3 {
        assert next[k] == now[k];
      }
    }
  }

  // ---------------------------------------------------------------------
  // The dialog's settings

  /** The grill can be left out only for a backglass image with a grill. */
  function CanIgnoreGrill(grillHeight: int, isDmd: bool): bool
  {
    grillHeight > 0 && !isDmd
  }

  /** The grill height passed to the filter: the scaled grill when it is left out, else 0. */
  function FilterGrillHeight(checked: bool, grillHeight: int, isDmd: bool, scaledGrillHeight: int): (g: int)
    ensures g != 0 ==> checked && CanIgnoreGrill(grillHeight, isDmd) && g == scaledGrillHeight
    ensures !(checked && CanIgnoreGrill(grillHeight, isDmd)) ==> g == 0
  {
    if checked && CanIgnoreGrill(grillHeight, isDmd) then scaledGrillHeight else 0
  }

  /** `syncFromNumber`: the typed number, 0 when there is none, clamped to -100..100. */
  function SliderFromNumber(text: string): (v: int)
    ensures -100 <= v <= 100
    ensures ParseInt(text).None? ==> v == 0
    ensures ParseInt(text).Some? && -100 <= ParseInt(text).value <= 100 ==> v == ParseInt(text).value
  {
    // an empty field reads as "0", which is also what an unparsable one gives
    var val := ParseInt(text).GetOr(0);
    if val < -100 then -100 else if val > 100 then 100 else val
  }
}
