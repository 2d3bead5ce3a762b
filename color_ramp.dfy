/**
 * Colour literals `#rrggbb` and the linear colour ramp of the raster viewer
 * (`interpolateColors` in raster_display.tsx).  Channel arithmetic is exact:
 * JavaScript doubles are modelled as `real`.
 */
module ColorRamp {
  import opened Text

  /** One colour as three channel values. */
  datatype Rgb = Rgb(r: int, g: int, b: int)

  predicate IsChannel(v: int) { 0 <= v < 256 }

  predicate IsRgb(c: Rgb) { IsChannel(c.r) && IsChannel(c.g) && IsChannel(c.b) }

  function Min(a: int, b: int): int { if a <= b then a else b }

  function Max(a: int, b: int): int { if a <= b then b else a }

  // ---------------------------------------------------------------------
  // Colour literals
  // ---------------------------------------------------------------------

  /** `#` followed by six hexadecimal digits of either case. */
  predicate IsHexColor(s: string) {
    |s| == 7 && s[0] == '#' && forall i :: 1 <= i < 7 ==> IsHexChar(s[i])
  }

  /** `#` followed by six lower-case hexadecimal digits. */
  predicate IsLowerHexColor(s: string) {
    |s| == 7 && s[0] == '#' && forall i :: 1 <= i < 7 ==> IsLowerHexChar(s[i])
  }

  /** `parseInt(s.slice(k, k + 2), 16)` on two hexadecimal digits. */
  function ParseByte(s: string, k: nat): (v: int)
    requires k + 2 <= |s| && IsHexChar(s[k]) && IsHexChar(s[k + 1])
    ensures IsChannel(v)
  {
    16 * HexValue(s[k]) + HexValue(s[k + 1])
  }

  /** The three channels of a colour literal (slices 1..3, 3..5, 5..7). */
  function ParseColor(s: string): (c: Rgb)
    requires IsHexColor(s)
    ensures IsRgb(c)
  {
    Rgb(ParseByte(s, 1), ParseByte(s, 3), ParseByte(s, 5))
  }

  /** `v.toString(16).padStart(2, '0')`; reading the two digits back gives `v`. */
  function FormatByte(v: int): (s: string)
    requires IsChannel(v)
    ensures |s| == 2 && IsLowerHexChar(s[0]) && IsLowerHexChar(s[1])
    ensures IsHexChar(s[0]) && IsHexChar(s[1]) && 16 * HexValue(s[0]) + HexValue(s[1]) == v
  {
    [HexDigit(v / 16), HexDigit(v % 16)]
  }

  /** The literal the ramp pushes for one colour: lower-case, and parsing it recovers the channels. */
  function FormatColor(c: Rgb): (s: string)
    requires IsRgb(c)
    ensures IsLowerHexColor(s) && IsHexColor(s)
    ensures ParseColor(s) == c
  {
    var s := "#" + FormatByte(c.r) + FormatByte(c.g) + FormatByte(c.b);
    assert s[1..3] == FormatByte(c.r) && s[3..5] == FormatByte(c.g) && s[5..7] == FormatByte(c.b);
    s
  }

  /** Formatting a parsed pair of digits gives the pair back, lower-cased. */
  lemma FormatParseByte(s: string, k: nat)
    requires k + 2 <= |s| && IsHexChar(s[k]) && IsHexChar(s[k + 1])
    ensures FormatByte(ParseByte(s, k)) == [LowerChar(s[k]), LowerChar(s[k + 1])]
  {
    HexDigitOfValue(s[k]);
    HexDigitOfValue(s[k + 1]);
    var v := ParseByte(s, k);
    assert v / 16 == HexValue(s[k]) && v % 16 == HexValue(s[k + 1]);
  }

  /** Formatting a parsed literal gives the literal back, lower-cased. */
  lemma FormatParseColor(s: string)
    requires IsHexColor(s)
    ensures FormatColor(ParseColor(s)) == ToLower(s)
  {
    var c := ParseColor(s);
    FormatParseByte(s, 1);
    FormatParseByte(s, 3);
    FormatParseByte(s, 5);
    var f, t := FormatColor(c), ToLower(s);
    assert f == "#" + FormatByte(c.r) + FormatByte(c.g) + FormatByte(c.b);
    forall i | 0 <= i < 7
      ensures f[i] == t[i]
    {
    }
  }

  // ---------------------------------------------------------------------
  // Rounding and one channel of the ramp
  // ---------------------------------------------------------------------

  /** `Math.round`: the nearest integer, a half rounded up. */
  function Round(x: real): (n: int)
    ensures n as real - 0.5 <= x < n as real + 0.5
  {
    (x + 0.5).Floor
  }

  /** The per-channel step of a `steps`-colour ramp: `(e - s) / (steps - 1)`. */
  function StepSize(s: int, e: int, steps: nat): real
    requires steps >= 2
  {
    (e - s) as real / (steps - 1) as real
  }

  /** `Math.round(s + step * i)`. */
  function RoundedPoint(s: int, step: real, i: nat): int {
    Round(s as real + step * i as real)
  }

  /** Channel `i` of a `steps`-colour ramp from `s` to `e`; it stays between the two ends. */
  function ChannelAt(s: int, e: int, steps: nat, i: nat): (v: int)
    requires steps >= 2 && i < steps
    ensures Min(s, e) <= v <= Max(s, e)
  {
    ExactPointBetween(s, e, steps, i);
    RoundedPoint(s, StepSize(s, e, steps), i)
  }

  /** The unrounded point of the ramp lies between its two ends. */
  lemma ExactPointBetween(s: int, e: int, steps: nat, i: nat)
    requires steps >= 2 && i < steps
    ensures var x := s as real + (e - s) as real / (steps - 1) as real * i as real;
      Min(s, e) as real <= x <= Max(s, e) as real
  {
    var m := (steps - 1) as real;
    var t := i as real / m;
    assert 0.0 <= t <= 1.0;
    var a := (e - s) as real;
    DivideThenScale(a, m, i as real);
    FractionOf(a, t);
    assert a == e as real - s as real;
    var x := s as real + a * t;
    if s <= e {
      assert Min(s, e) == s && Max(s, e) == e;
      assert 0.0 <= a * t <= a;
      assert s as real + a == e as real;
      assert s as real <= x <= e as real;
    } else {
      assert Min(s, e) == e && Max(s, e) == s;
      assert a < 0.0 && a <= a * t <= 0.0;
      assert s as real + a == e as real;
      assert e as real <= x <= s as real;
    }
  }

  /** `a / m * k` is `a` times the fraction `k / m`. */
  lemma DivideThenScale(a: real, m: real, k: real)
    requires m > 0.0
    ensures a / m * k == a * (k / m)
  {
  }

  /** A fraction in [0, 1] of `a` lies between 0 and `a`. */
  lemma FractionOf(a: real, t: real)
    requires 0.0 <= t <= 1.0
    ensures 0.0 <= a ==> 0.0 <= a * t <= a
    ensures a < 0.0 ==> a <= a * t <= 0.0
  {
    if 0.0 <= a {
      assert a * t <= a * 1.0;
    } else {
      assert a * 1.0 <= a * t;
    }
  }

  /** The channel at the first step is the start channel. */
  lemma ChannelAtFirst(s: int, e: int, steps: nat)
    requires steps >= 2
    ensures ChannelAt(s, e, steps, 0) == s
  {
  }

  /** The channel at the last step is the end channel: the step size times `steps - 1` is exact. */
  lemma ChannelAtLast(s: int, e: int, steps: nat)
    requires steps >= 2
    ensures ChannelAt(s, e, steps, steps - 1) == e
  {
    var m := (steps - 1) as real;
    assert (e - s) as real / m * m == (e - s) as real;
  }

  /** Equal ends give a constant channel. */
  lemma ChannelAtConstant(c: int, steps: nat, i: nat)
    requires steps >= 2 && i < steps
    ensures ChannelAt(c, c, steps, i) == c
  {
  }

  /** Along an ascending channel the ramp never goes down. */
  lemma ChannelAtMonotone(s: int, e: int, steps: nat, i: nat, j: nat)
    requires steps >= 2 && i <= j < steps
    ensures s <= e ==> ChannelAt(s, e, steps, i) <= ChannelAt(s, e, steps, j)
    ensures e <= s ==> ChannelAt(s, e, steps, j) <= ChannelAt(s, e, steps, i)
  {
    var step := (e - s) as real / (steps - 1) as real;
    var d := (j - i) as real;
    assert s as real + step * j as real == s as real + step * i as real + step * d;
    if s <= e {
      assert step >= 0.0;
      assert step * d >= 0.0;
    } else {
      assert step <= 0.0;
      assert step * d <= 0.0;
    }
  }

  // ---------------------------------------------------------------------
  // The ramp
  // ---------------------------------------------------------------------

  /** Colour `i` of the ramp, channel by channel. */
  function RampColor(start: Rgb, end: Rgb, steps: nat, i: nat): (c: Rgb)
    requires IsRgb(start) && IsRgb(end) && steps >= 2 && i < steps
    ensures IsRgb(c)
  {
    Rgb(ChannelAt(start.r, end.r, steps, i),
        ChannelAt(start.g, end.g, steps, i),
        ChannelAt(start.b, end.b, steps, i))
  }

  /** The `steps` colour literals of the ramp from `start` to `end`. */
  function Ramp(start: Rgb, end: Rgb, steps: nat): (colors: seq<string>)
    requires IsRgb(start) && IsRgb(end) && steps >= 2
    ensures |colors| == steps
    ensures forall i :: 0 <= i < steps ==> IsLowerHexColor(colors[i])
  {
    seq(steps, i requires 0 <= i < steps => FormatColor(RampColor(start, end, steps, i)))
  }

  /** One more step of the ramp extends its prefix by one colour. */
  lemma RampPrefix(start: Rgb, end: Rgb, steps: nat, i: nat)
    requires IsRgb(start) && IsRgb(end) && steps >= 2 && i < steps
    ensures Ramp(start, end, steps)[..i + 1]
      == Ramp(start, end, steps)[..i] + [FormatColor(RampColor(start, end, steps, i))]
  {
  }

  /**
   * `interpolateColors(startColor, endColor, steps)`: parses both literals,
   * computes the per-channel step `(end - start) / (steps - 1)` and pushes
   * one rounded, re-formatted colour per step.
   */
  method InterpolateColors(startColor: string, endColor: string, steps: nat) returns (colorArray: seq<string>)
    requires IsHexColor(startColor) && IsHexColor(endColor) && steps >= 2
    ensures colorArray == Ramp(ParseColor(startColor), ParseColor(endColor), steps)
    ensures |colorArray| == steps
    ensures ParseColor(colorArray[0]) == ParseColor(startColor)
    ensures ParseColor(colorArray[steps - 1]) == ParseColor(endColor)
  {
    var start := ParseColor(startColor);
    var end := ParseColor(endColor);
    var stepR := StepSize(start.r, end.r, steps);
    var stepG := StepSize(start.g, end.g, steps);
    var stepB := StepSize(start.b, end.b, steps);
    colorArray := [];
    for i := 0 to steps
      invariant colorArray == Ramp(start, end, steps)[..i]
    {
      var r := RoundedPoint(start.r, stepR, i);
      var g := RoundedPoint(start.g, stepG, i);
      var b := RoundedPoint(start.b, stepB, i);
      assert Rgb(r, g, b) == RampColor(start, end, steps, i);
      RampPrefix(start, end, steps, i);
      colorArray := colorArray + [FormatColor(Rgb(r, g, b))];
    }
    RampEndpoints(start, end, steps);
  }

  // ---------------------------------------------------------------------
  // What the ramp promises
  // ---------------------------------------------------------------------

  /** The first colour is the start colour and the last the end colour, exactly. */
  lemma RampEndpoints(start: Rgb, end: Rgb, steps: nat)
    requires IsRgb(start) && IsRgb(end) && steps >= 2
    ensures ParseColor(Ramp(start, end, steps)[0]) == start
    ensures ParseColor(Ramp(start, end, steps)[steps - 1]) == end
  {
    ChannelAtFirst(start.r, end.r, steps);
    ChannelAtFirst(start.g, end.g, steps);
    ChannelAtFirst(start.b, end.b, steps);
    ChannelAtLast(start.r, end.r, steps);
    ChannelAtLast(start.g, end.g, steps);
    ChannelAtLast(start.b, end.b, steps);
  }

  /** Equal endpoints give `steps` copies of that colour. */
  lemma RampOfOneColor(c: Rgb, steps: nat)
    requires IsRgb(c) && steps >= 2
    ensures Ramp(c, c, steps) == seq(steps, _ => FormatColor(c))
  {
    forall i | 0 <= i < steps
      ensures Ramp(c, c, steps)[i] == FormatColor(c)
    {
      ChannelAtConstant(c.r, steps, i);
      ChannelAtConstant(c.g, steps, i);
      ChannelAtConstant(c.b, steps, i);
    }
  }

  /** Every colour of the ramp has each channel between the endpoints' channels. */
  lemma RampChannelsBetween(start: Rgb, end: Rgb, steps: nat, i: nat)
    requires IsRgb(start) && IsRgb(end) && steps >= 2 && i < steps
    ensures var c := ParseColor(Ramp(start, end, steps)[i]);
      && Min(start.r, end.r) <= c.r <= Max(start.r, end.r)
      && Min(start.g, end.g) <= c.g <= Max(start.g, end.g)
      && Min(start.b, end.b) <= c.b <= Max(start.b, end.b)
  {
    assert ParseColor(Ramp(start, end, steps)[i]) == RampColor(start, end, steps, i);
  }

  /** Each channel moves monotonically from the start colour to the end colour. */
  lemma RampMonotone(start: Rgb, end: Rgb, steps: nat, i: nat, j: nat)
    requires IsRgb(start) && IsRgb(end) && steps >= 2 && i <= j < steps
    ensures var ci := ParseColor(Ramp(start, end, steps)[i]);
      var cj := ParseColor(Ramp(start, end, steps)[j]);
      && (start.r <= end.r ==> ci.r <= cj.r) && (end.r <= start.r ==> cj.r <= ci.r)
      && (start.g <= end.g ==> ci.g <= cj.g) && (end.g <= start.g ==> cj.g <= ci.g)
      && (start.b <= end.b ==> ci.b <= cj.b) && (end.b <= start.b ==> cj.b <= ci.b)
  {
    assert ParseColor(Ramp(start, end, steps)[i]) == RampColor(start, end, steps, i);
    assert ParseColor(Ramp(start, end, steps)[j]) == RampColor(start, end, steps, j);
    ChannelAtMonotone(start.r, end.r, steps, i, j);
    ChannelAtMonotone(start.g, end.g, steps, i, j);
    ChannelAtMonotone(start.b, end.b, steps, i, j);
  }
}
