/**
 * Colour arithmetic of the poster generator: `hex_to_rgb`, `darken_color`, the
 * `:02x` formatting used for generated fills, and Python's `int()` truncation.
 */
module Colors {
  import opened Wrappers
  import opened Text
  import opened Arith

  /** An RGB triple as Python builds it: a tuple of three ints (not clamped). */
  datatype Rgb = Rgb(r: int, g: int, b: int)

  predicate InByteRange(c: Rgb) {
    0 <= c.r <= 255 && 0 <= c.g <= 255 && 0 <= c.b <= 255
  }

  // ---------------------------------------------------------------- hex digits

  predicate IsHexDigit(c: char) {
    '0' <= c <= '9' || 'a' <= c <= 'f' || 'A' <= c <= 'F'
  }

  function HexDigitValue(c: char): (v: int)
    requires IsHexDigit(c)
    ensures 0 <= v < 16
  {
    if '0' <= c <= '9' then c as int - '0' as int
    else if 'a' <= c <= 'f' then c as int - 'a' as int + 10
    else c as int - 'A' as int + 10
  }

  predicate AllHexDigits(s: string) {
    forall k :: 0 <= k < |s| ==> IsHexDigit(s[k])
  }

  /** The number a non-empty run of hex digits denotes, most significant first. */
  function HexValue(s: string): (v: nat)
    requires AllHexDigits(s)
    ensures |s| == 1 ==> v == HexDigitValue(s[0])
    ensures |s| == 2 ==> v == 16 * HexDigitValue(s[0]) + HexDigitValue(s[1])
  {
    if s == [] then 0
    else
      assert IsHexDigit(s[|s| - 1]);
      16 * HexValue(s[..|s| - 1]) + HexDigitValue(s[|s| - 1])
  }

  /**
   * The whitespace `int()` skips around a literal: below code point 127 only tab,
   * line feed, vertical tab, form feed, carriage return and space (not the
   * separators U+1C..U+1F that `str.strip` removes); above it every character
   * `str.isspace` accepts.
   */
  predicate IntSpace(c: char) {
    IsSpace(c) && !('\U{1C}' <= c <= '\U{1F}')
  }

  /** The literal `int()` reads once the whitespace it skips is gone from both ends. */
  function TrimIntSpace(t: string): (u: string)
    ensures |u| <= |t|
    ensures u == [] || (!IntSpace(u[0]) && !IntSpace(u[|u| - 1]))
    decreases |t|
  {
    if t != [] && IntSpace(t[0]) then TrimIntSpace(t[1..])
    else if t != [] && IntSpace(t[|t| - 1]) then TrimIntSpace(t[..|t| - 1])
    else t
  }

  /** `t[a..b]` is what is left of `t` once `int()`-skipped whitespace is cut off both ends. */
  predicate TrimsTo(t: string, a: int, b: int) {
    && 0 <= a <= b <= |t|
    && (forall k :: 0 <= k < a ==> IntSpace(t[k]))
    && (forall k :: b <= k < |t| ==> IntSpace(t[k]))
  }

  /** Trimming takes off only whitespace, and only at the two ends. */
  lemma {:induction false} TrimIntSpaceTrims(t: string)
    ensures exists a, b :: TrimsTo(t, a, b) && TrimIntSpace(t) == t[a..b]
    decreases |t|
  {
    if t != [] && IntSpace(t[0]) {
      TrimIntSpaceTrims(t[1..]);
      var a, b :| TrimsTo(t[1..], a, b) && TrimIntSpace(t[1..]) == t[1..][a..b];
      TrimsToFront(t, a, b);
    } else if t != [] && IntSpace(t[|t| - 1]) {
      TrimIntSpaceTrims(t[..|t| - 1]);
      var a, b :| TrimsTo(t[..|t| - 1], a, b) && TrimIntSpace(t[..|t| - 1]) == t[..|t| - 1][a..b];
      TrimsToBack(t, a, b);
    } else {
      assert TrimsTo(t, 0, |t|) && t == t[0..|t|];
    }
  }

  /** A leading space in front of a trimmed string shifts the cut by one. */
  lemma TrimsToFront(t: string, a: int, b: int)
    requires t != [] && IntSpace(t[0]) && TrimsTo(t[1..], a, b)
    ensures TrimsTo(t, a + 1, b + 1) && t[1..][a..b] == t[a + 1..b + 1]
  {
    forall k | 0 <= k < a + 1 ensures IntSpace(t[k]) {
      if k > 0 { assert t[k] == t[1..][k - 1]; }
    }
    forall k | b + 1 <= k < |t| ensures IntSpace(t[k]) {
      assert t[k] == t[1..][k - 1];
    }
  }

  /** A trailing space behind a trimmed string leaves the cut where it is. */
  lemma TrimsToBack(t: string, a: int, b: int)
    requires t != [] && IntSpace(t[|t| - 1]) && TrimsTo(t[..|t| - 1], a, b)
    ensures TrimsTo(t, a, b) && t[..|t| - 1][a..b] == t[a..b]
  {
    forall k | b <= k < |t| ensures IntSpace(t[k]) {
      if k < |t| - 1 { assert t[k] == t[..|t| - 1][k]; }
    }
    forall k | 0 <= k < a ensures IntSpace(t[k]) {
      assert t[k] == t[..|t| - 1][k];
    }
  }

  /**
   * Python's `int(t, 16)` on the at most two characters that `hex_to_rgb` slices out:
   * the whitespace `int()` skips is ignored at both ends, one leading sign is allowed,
   * and at least one ASCII hex digit must follow; anything else raises `ValueError`.
   */
  function ParseHexInt(t: string): (r: Result<int, string>)
    requires |t| <= 2
    ensures |t| == 0 ==> r.Err?
    ensures r.Ok? ==> -15 <= r.value <= 255
  {
    ParseSignedHex(TrimIntSpace(t))
  }

  /** The part of `int(t, 16)` that follows the whitespace stripping. */
  function ParseSignedHex(u: string): (r: Result<int, string>)
    requires |u| <= 2
    ensures r.Ok? ==> -15 <= r.value <= 255
  {
    if u == [] then Err("invalid literal for int() with base 16")
    else
      var neg := u[0] == '-';
      var digits := if u[0] == '-' || u[0] == '+' then u[1..] else u;
      if digits != [] && AllHexDigits(digits) then
        var v: int := HexValue(digits);
        Ok(if neg then -v else v)
      else Err("invalid literal for int() with base 16")
  }

  /** Two hex digits parse to the byte they spell. */
  lemma ParseHexIntTwoDigits(t: string)
    requires |t| == 2 && AllHexDigits(t)
    ensures ParseHexInt(t) == Ok(HexValue(t))
  {
    HexDigitsUntrimmed(t);
  }

  /** One hex digit parses to its value. */
  lemma ParseHexIntOneDigit(t: string)
    requires |t| == 1 && AllHexDigits(t)
    ensures ParseHexInt(t) == Ok(HexValue(t))
  {
    HexDigitsUntrimmed(t);
  }

  /** Hex digits are not whitespace, so `int()` reads a run of them as it stands. */
  lemma HexDigitsUntrimmed(t: string)
    requires 1 <= |t| && AllHexDigits(t)
    ensures TrimIntSpace(t) == t
  {
    assert IsHexDigit(t[0]) && IsHexDigit(t[|t| - 1]);
    assert !IntSpace(t[0]) && !IntSpace(t[|t| - 1]);
  }

  /**
   * `int()` skips a no-break space but not an information separator, which
   * `str.strip` would have removed; through `hex_to_rgb` the separator raises.
   */
  lemma ParseHexIntSpacing()
    ensures ParseHexInt("\U{A0}f") == Ok(15)
    ensures ParseHexInt("\U{1C}f").Err?
    ensures HexToRgb("#\U{1C}fffff").Err?
  {
    assert TrimIntSpace("\U{A0}f") == TrimIntSpace("f") == "f";
    assert IsHexDigit('f');
    assert TrimIntSpace("\U{1C}f") == "\U{1C}f";
    assert HexBody("#\U{1C}fffff") == "\U{1C}fffff";
    assert Slice("\U{1C}fffff", 0, 2) == "\U{1C}f";
  }

  /** Python's slice `s[i:j]` for `0 <= i <= j`: indices past the end are clipped. */
  function Slice(s: string, i: nat, j: nat): (r: string)
    requires i <= j
    ensures |r| == (if j <= |s| then j - i else if i <= |s| then |s| - i else 0)
    ensures |r| <= j - i
    ensures forall k :: 0 <= k < |r| ==> i + k < |s| && r[k] == s[i + k]
  {
    var lo := if i <= |s| then i else |s|;
    var hi := if j <= |s| then j else |s|;
    s[lo..hi]
  }

  /** What `hex_to_rgb` reads of a colour: everything after its leading '#' signs. */
  function HexBody(hex: string): string {
    LStripChar(hex, '#')
  }

  /**
   * `hex_to_rgb`: parse the two-character slices at offsets 0, 2 and 4 of the body
   * as base-16 integers, in that order. Four or fewer characters after the hashes
   * leave the blue slice empty, which raises; a parsed colour never has a channel
   * outside -15..255.
   */
  function HexToRgb(hex: string): (r: Result<Rgb, string>)
    ensures |HexBody(hex)| <= 4 ==> r.Err?
    ensures r.Ok? ==> -15 <= r.value.r <= 255 && -15 <= r.value.g <= 255 && -15 <= r.value.b <= 255
  {
    var h := HexBody(hex);
    Channels(ParseHexInt(Slice(h, 0, 2)), ParseHexInt(Slice(h, 2, 4)), ParseHexInt(Slice(h, 4, 6)))
  }

  /** The tuple of the three parses; the first failure, in order, is the one raised. */
  function Channels(r: Result<int, string>, g: Result<int, string>, b: Result<int, string>): (c: Result<Rgb, string>)
    ensures c.Ok? <==> r.Ok? && g.Ok? && b.Ok?
    ensures c.Ok? ==> c.value == Rgb(r.value, g.value, b.value)
  {
    if r.Err? then Err(r.error)
    else if g.Err? then Err(g.error)
    else if b.Err? then Err(b.error)
    else Ok(Rgb(r.value, g.value, b.value))
  }

  /** Six hex digits after the hashes give the three bytes they spell, each in 0..255. */
  lemma HexToRgbSixDigits(hex: string)
    requires |HexBody(hex)| >= 6 && AllHexDigits(HexBody(hex)[..6])
    ensures HexToRgb(hex) == Ok(Rgb(HexValue(HexBody(hex)[0..2]), HexValue(HexBody(hex)[2..4]), HexValue(HexBody(hex)[4..6])))
    ensures HexToRgb(hex).Ok? && InByteRange(HexToRgb(hex).value)
  {
    var h := HexBody(hex);
    assert Slice(h, 0, 2) == h[..6][0..2] == h[0..2];
    assert Slice(h, 2, 4) == h[..6][2..4] == h[2..4];
    assert Slice(h, 4, 6) == h[..6][4..6] == h[4..6];
    AllHexDigitsSlice(h[..6], 0, 2);
    AllHexDigitsSlice(h[..6], 2, 4);
    AllHexDigitsSlice(h[..6], 4, 6);
    ParseHexIntTwoDigits(h[0..2]);
    ParseHexIntTwoDigits(h[2..4]);
    ParseHexIntTwoDigits(h[4..6]);
  }

  /** A body made of three two-digit hex bytes parses to those bytes. */
  lemma HexToRgbOfBytes(hex: string, a: string, b: string, c: string)
    requires HexBody(hex) == a + b + c && |a| == 2 && |b| == 2 && |c| == 2
    requires AllHexDigits(a) && AllHexDigits(b) && AllHexDigits(c)
    ensures HexToRgb(hex) == Ok(Rgb(HexValue(a), HexValue(b), HexValue(c)))
  {
    var h := HexBody(hex);
    assert Slice(h, 0, 2) == a && Slice(h, 2, 4) == b && Slice(h, 4, 6) == c;
    ParseHexIntTwoDigits(a);
    ParseHexIntTwoDigits(b);
    ParseHexIntTwoDigits(c);
  }

  lemma AllHexDigitsSlice(s: string, i: int, j: int)
    requires 0 <= i <= j <= |s| && AllHexDigits(s)
    ensures AllHexDigits(s[i..j])
  {
    forall k | 0 <= k < j - i ensures IsHexDigit(s[i..j][k]) {
      assert s[i..j][k] == s[i + k];
    }
  }

  /** `hex_to_rgb` looks at nothing but the three slices. */
  lemma HexToRgbBySlices(x: string, y: string)
    requires Slice(HexBody(x), 0, 2) == Slice(HexBody(y), 0, 2)
    requires Slice(HexBody(x), 2, 4) == Slice(HexBody(y), 2, 4)
    requires Slice(HexBody(x), 4, 6) == Slice(HexBody(y), 4, 6)
    ensures HexToRgb(x) == HexToRgb(y)
  {
  }

  /** Whatever follows the sixth character after the hashes is never looked at. */
  lemma HexToRgbIgnoresTail(hex: string, tail: string)
    requires |HexBody(hex)| >= 6
    ensures HexToRgb(hex + tail) == HexToRgb(hex)
  {
    LStripCharAppend(hex, tail, '#');
    SlicesIgnoreTail(HexBody(hex), tail);
    HexToRgbBySlices(hex + tail, hex);
  }

  lemma SlicesIgnoreTail(h: string, tail: string)
    requires |h| >= 6
    ensures Slice(h + tail, 0, 2) == Slice(h, 0, 2)
    ensures Slice(h + tail, 2, 4) == Slice(h, 2, 4)
    ensures Slice(h + tail, 4, 6) == Slice(h, 4, 6)
  {
    assert (h + tail)[0..2] == h[0..2];
    assert (h + tail)[2..4] == h[2..4];
    assert (h + tail)[4..6] == h[4..6];
  }

  /** Appending to a string whose stripped part is non-empty appends to the stripped part. */
  lemma {:induction false} LStripCharAppend(s: string, tail: string, c: char)
    requires LStripChar(s, c) != []
    ensures LStripChar(s + tail, c) == LStripChar(s, c) + tail
  {
    assert s != [] && (s + tail)[0] == s[0];
    if s[0] == c {
      assert LStripChar(s, c) == LStripChar(s[1..], c);
      assert (s + tail)[1..] == s[1..] + tail;
      LStripCharAppend(s[1..], tail, c);
      assert LStripChar(s + tail, c) == LStripChar(s[1..] + tail, c);
    } else {
      assert LStripChar(s, c) == s;
      assert LStripChar(s + tail, c) == s + tail;
    }
  }

  /** Any number of leading hashes is accepted. */
  lemma HexToRgbLeadingHash(hex: string)
    ensures HexToRgb("#" + hex) == HexToRgb(hex)
  {
    assert ("#" + hex)[1..] == hex;
    assert HexBody("#" + hex) == HexBody(hex);
  }

  /** Five digits are NOT rejected: the blue channel is read from the single fifth digit. */
  lemma HexToRgbFiveDigits(hex: string)
    requires |HexBody(hex)| == 5 && AllHexDigits(HexBody(hex))
    ensures HexToRgb(hex) == Ok(Rgb(HexValue(HexBody(hex)[0..2]), HexValue(HexBody(hex)[2..4]), HexDigitValue(HexBody(hex)[4])))
  {
    var h := HexBody(hex);
    assert Slice(h, 0, 2) == h[0..2];
    assert Slice(h, 2, 4) == h[2..4];
    assert Slice(h, 4, 6) == h[4..5];
    AllHexDigitsSlice(h, 0, 2);
    AllHexDigitsSlice(h, 2, 4);
    AllHexDigitsSlice(h, 4, 5);
    ParseHexIntTwoDigits(h[0..2]);
    ParseHexIntTwoDigits(h[2..4]);
    ParseHexIntOneDigit(h[4..5]);
  }

  // ---------------------------------------------------------------- formatting

  function HexChar(d: int): (c: char)
    requires 0 <= d < 16
    ensures IsHexDigit(c) && HexDigitValue(c) == d
    ensures !('A' <= c <= 'F')
  {
    if d < 10 then ('0' as int + d) as char else ('a' as int + d - 10) as char
  }

  /** `format(n, 'x')`: lower-case hexadecimal digits without padding. */
  function HexString(n: nat): (s: string)
    ensures |s| >= 1 && AllHexDigits(s)
    decreases n
  {
    if n < 16 then [HexChar(n)] else HexString(n / 16) + [HexChar(n % 16)]
  }

  /** `format(n, '02x')`: lower-case hexadecimal, zero-padded to at least two digits. */
  function FormatHex02(n: nat): (s: string)
    ensures |s| >= 2 && AllHexDigits(s)
  {
    if n < 16 then ['0', HexChar(n)] else HexString(n)
  }

  /** Reading back a `:02x` byte gives the byte. */
  lemma FormatHex02RoundTrip(n: nat)
    requires n <= 255
    ensures |FormatHex02(n)| == 2
    ensures HexValue(FormatHex02(n)) == n
    ensures ParseHexInt(FormatHex02(n)) == Ok(n)
  {
    var s := FormatHex02(n);
    if n >= 16 {
      assert HexString(n / 16) == [HexChar(n / 16)];
      assert s == [HexChar(n / 16), HexChar(n % 16)];
    } else {
      assert s == ['0', HexChar(n)];
    }
    assert HexValue(s) == 16 * (n / 16) + n % 16;
    ParseHexIntTwoDigits(s);
  }

  // ---------------------------------------------------------------- darkening

  /**
   * `darken_color(rgb, factor)` for the exact factor `num / den` in [0, 1]:
   * every channel becomes `int(c * (1 - factor))`.
   */
  function DarkenChannel(c: int, num: int, den: int): (d: int)
    requires 0 < den && 0 <= num <= den
    ensures c >= 0 ==> 0 <= d <= c
    ensures c <= 0 ==> c <= d <= 0
  {
    ScaleBetween(c, den - num, den);
    if c >= 0 then
      TruncDivBetween(c * (den - num), den, 0, c);
      TruncDiv(c * (den - num), den)
    else
      TruncDivBetween(c * (den - num), den, c, 0);
      TruncDiv(c * (den - num), den)
  }

  function DarkenColor(c: Rgb, num: int, den: int): (d: Rgb)
    requires 0 < den && 0 <= num <= den
    ensures InByteRange(c) ==> InByteRange(d) && d.r <= c.r && d.g <= c.g && d.b <= c.b
  {
    Rgb(DarkenChannel(c.r, num, den), DarkenChannel(c.g, num, den), DarkenChannel(c.b, num, den))
  }

  /** A zero factor leaves the colour unchanged; a factor of one gives black. */
  lemma DarkenByZeroOrOne(c: Rgb, den: int)
    requires 0 < den
    ensures DarkenColor(c, 0, den) == c
    ensures DarkenColor(c, den, den) == Rgb(0, 0, 0)
  {
    TruncDivExact(c.r, den);
    TruncDivExact(c.g, den);
    TruncDivExact(c.b, den);
    assert c.r * 0 == 0 && c.g * 0 == 0 && c.b * 0 == 0;
    TruncDivExact(0, den);
  }

  /** A larger factor darkens at least as much. */
  lemma DarkenChannelMonotone(c: nat, num1: int, num2: int, den: int)
    requires 0 < den && 0 <= num1 <= num2 <= den
    ensures DarkenChannel(c, num2, den) <= DarkenChannel(c, num1, den)
  {
    var a1, a2 := c * (den - num1), c * (den - num2);
    assert a1 - a2 == c * (num2 - num1);
    MulNonneg(c, num2 - num1);
    TruncDivMonotone(a2, a1, den);
  }

  /** The fixed darkening the poster applies, factor 0.3, is `floor(7c / 10)` on byte channels. */
  lemma DarkenThirtyPercent(c: Rgb)
    requires InByteRange(c)
    ensures DarkenColor(c, 3, 10) == Rgb(7 * c.r / 10, 7 * c.g / 10, 7 * c.b / 10)
  {
  }
}
