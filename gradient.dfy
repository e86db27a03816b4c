/**
 * The poster background of `generate_pin_image`: which two colours the
 * gradient runs between, and the colour of each row. The source computes the
 * ratio `y / height` in floating point; here it is the exact rational, and
 * `int(...)` is truncation toward zero.
 */
module Gradient {
  import opened Wrappers
  import opened Arith
  import opened Colors

  /** The darkening applied when no two-colour gradient is given: factor 0.3. */
  const DarkenNum: int := 3
  const DarkenDen: int := 10

  /**
   * Start and end colours: the two given gradient colours when exactly two are
   * given, otherwise the primary colour and that colour darkened by 0.3.
   * A colour that does not parse makes the whole call fail.
   */
  function GradientEndpoints(primary: string, gradientColors: seq<string>): (r: Result<(Rgb, Rgb), string>)
    ensures |gradientColors| == 2 ==>
      (r.Ok? <==> HexToRgb(gradientColors[0]).Ok? && HexToRgb(gradientColors[1]).Ok?)
    ensures |gradientColors| == 2 && r.Ok? ==>
      r.value == (HexToRgb(gradientColors[0]).value, HexToRgb(gradientColors[1]).value)
    ensures |gradientColors| != 2 ==> (r.Ok? <==> HexToRgb(primary).Ok?)
    ensures |gradientColors| != 2 && r.Ok? ==>
      r.value.0 == HexToRgb(primary).value && r.value.1 == DarkenColor(r.value.0, DarkenNum, DarkenDen)
  {
    if |gradientColors| == 2 then
      match HexToRgb(gradientColors[0])
      case Err(e) => Err(e)
      case Ok(s) =>
        match HexToRgb(gradientColors[1])
        case Err(e) => Err(e)
        case Ok(t) => Ok((s, t))
    else
      match HexToRgb(primary)
      case Err(e) => Err(e)
      case Ok(s) => Ok((s, DarkenColor(s, DarkenNum, DarkenDen)))
  }

  /** The numerator of the exact blend `s * (1 - y/h) + e * y/h`, scaled by `h`. */
  function Blend(s: int, e: int, y: int, h: int): int {
    s * (h - y) + e * y
  }

  /**
   * One channel of row `y` of an `h`-row gradient from `s` to `e`: it starts at
   * `s` and would reach `e` exactly at row `h`, one past the last row.
   */
  function GradientChannel(s: int, e: int, y: int, h: int): (c: int)
    requires h > 0
    ensures y == 0 ==> c == s
    ensures y == h ==> c == e
  {
    BlendAtEnds(s, e, y, h);
    TruncDivExact(s, h);
    TruncDivExact(e, h);
    TruncDiv(Blend(s, e, y, h), h)
  }

  /** At row 0 the blend is all start colour, at row `h` all end colour. */
  lemma BlendAtEnds(s: int, e: int, y: int, h: int)
    ensures y == 0 ==> Blend(s, e, y, h) == s * h
    ensures y == h ==> Blend(s, e, y, h) == e * h
  {
    if y == h {
      assert h - y == 0;
    }
  }

  /** The colour `generate_pin_image` draws across row `y`, from `start` towards `end`. */
  function GradientRow(start: Rgb, end: Rgb, y: int, h: int): (c: Rgb)
    requires h > 0
    ensures y == 0 ==> c == start
    ensures y == h ==> c == end
  {
    Rgb(GradientChannel(start.r, end.r, y, h), GradientChannel(start.g, end.g, y, h), GradientChannel(start.b, end.b, y, h))
  }

  function Min(a: int, b: int): int { if a <= b then a else b }
  function Max(a: int, b: int): int { if a <= b then b else a }

  /** The first row is exactly the start colour. */
  lemma GradientFirstRow(start: Rgb, end: Rgb, h: int)
    requires h > 0
    ensures GradientRow(start, end, 0, h) == start
  {
    assert Blend(start.r, end.r, 0, h) == start.r * h;
    assert Blend(start.g, end.g, 0, h) == start.g * h;
    assert Blend(start.b, end.b, 0, h) == start.b * h;
    TruncDivExact(start.r, h);
    TruncDivExact(start.g, h);
    TruncDivExact(start.b, h);
  }

  /** The blend numerator moves linearly from `s * h` toward `e * h`. */
  lemma BlendLinear(s: int, e: int, y: int, h: int)
    ensures Blend(s, e, y, h) == s * h + (e - s) * y
  {
    assert s * (h - y) == s * h - s * y;
    assert (e - s) * y == e * y - s * y;
  }

  /** Every channel of every row lies between the start and end channel. */
  lemma GradientChannelBetween(s: int, e: int, y: int, h: int)
    requires 0 <= y <= h && h > 0
    ensures Min(s, e) <= GradientChannel(s, e, y, h) <= Max(s, e)
  {
    var lo, hi := Min(s, e), Max(s, e);
    assert Blend(s, e, y, h) == s * (h - y) + e * y;
    MulMonoLeft(lo, s, h - y);
    MulMonoLeft(s, hi, h - y);
    MulMonoLeft(lo, e, y);
    MulMonoLeft(e, hi, y);
    assert lo * (h - y) + lo * y == lo * h;
    assert hi * (h - y) + hi * y == hi * h;
    TruncDivBetween(Blend(s, e, y, h), h, lo, hi);
  }

  lemma MulMonoLeft(a: int, b: int, k: int)
    requires a <= b && k >= 0
    ensures a * k <= b * k
  {
    assert b * k - a * k == (b - a) * k;
    MulNonneg(b - a, k);
  }

  /** A channel never moves against the direction from start to end as the row index grows. */
  lemma GradientChannelMonotone(s: int, e: int, y1: int, y2: int, h: int)
    requires 0 <= y1 <= y2 && h > 0
    ensures s <= e ==> GradientChannel(s, e, y1, h) <= GradientChannel(s, e, y2, h)
    ensures e <= s ==> GradientChannel(s, e, y2, h) <= GradientChannel(s, e, y1, h)
  {
    BlendLinear(s, e, y1, h);
    BlendLinear(s, e, y2, h);
    if s <= e {
      MulMonoLeft(y1, y2, e - s);
      assert (e - s) * y1 <= (e - s) * y2;
      TruncDivMonotone(Blend(s, e, y1, h), Blend(s, e, y2, h), h);
    } else {
      MulMonoLeft(y1, y2, s - e);
      assert (e - s) * y2 <= (e - s) * y1;
      TruncDivMonotone(Blend(s, e, y2, h), Blend(s, e, y1, h), h);
    }
  }

  /** For byte channels and more rows than 255, the last row is the end channel or one below it. */
  lemma GradientLastRowNearEnd(s: int, e: int, h: int)
    requires 0 <= s <= 255 && 0 <= e <= 255 && h > 255
    ensures e - 1 <= GradientChannel(s, e, h - 1, h) <= e
  {
    var n := Blend(s, e, h - 1, h);
    BlendLinear(s, e, h - 1, h);
    assert (e - s) * (h - 1) == e * h - s * h - e + s;
    assert n == e * h + (s - e);
    assert (e - 1) * h == e * h - h;
    TruncDivBetween(n, h, e - 1, e + 1);
    TruncDivBelow(n, h, e);
  }
}
