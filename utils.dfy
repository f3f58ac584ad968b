/**
 * Seeded style derivation (src/lib/utils.ts): the string hash behind
 * `seededRandom`, the gradient colours and angle, the contrast colour chosen
 * from a measured background colour, and the seeded choice of a list item.
 *
 * `Math.sin` is not modelled: every member that draws a number takes the sine
 * as a parameter `sine: int -> real`, applied to the 32-bit hash.
 */
module Utils {
  import opened JsBuiltins

  // ---------------------------------------------------------------------------
  // The seed hash (Java's String.hashCode polynomial)
  // ---------------------------------------------------------------------------

  function Pow31(k: nat): (p: nat)
    ensures p >= 1
  {
    if k == 0 then 1 else 31 * Pow31(k - 1)
  }

  /** The polynomial sum of units[i] * 31^(n-1-i) over the n code units. */
  function WeightedSum(units: seq<int>): int {
    if units == [] then 0 else units[0] * Pow31(|units| - 1) + WeightedSum(units[1..])
  }

  /** Appending one code unit multiplies the sum by 31 and adds the unit (Horner's rule). */
  lemma {:induction false} WeightedSumSnoc(units: seq<int>, c: int)
    ensures WeightedSum(units + [c]) == 31 * WeightedSum(units) + c
  {
    if units != [] {
      assert (units + [c])[1..] == units[1..] + [c];
      WeightedSumSnoc(units[1..], c);
      calc {
        WeightedSum(units + [c]);
        units[0] * Pow31(|units|) + WeightedSum(units[1..] + [c]);
        units[0] * (31 * Pow31(|units| - 1)) + 31 * WeightedSum(units[1..]) + c;
        31 * (units[0] * Pow31(|units| - 1) + WeightedSum(units[1..])) + c;
      }
    }
  }

  /** The signed 32-bit hash of a seed: the weighted sum of its code units, modulo 2^32. */
  function SeedHash(seed: string): (h: int)
    ensures IsInt32(h)
  {
    ToInt32(WeightedSum(CodeUnits(seed)))
  }

  /** One step of the loop, `hash = (hash << 5) - hash + code; hash = hash & hash`,
    * is the 32-bit wrap of 31 * hash + code unit. */
  lemma HashStep(hash: int, unit: int)
    requires IsInt32(hash)
    ensures var h := ShiftLeft(hash, 5) - hash + unit; BitAnd(h, h) == ToInt32(31 * hash + unit)
  {
    var h := ShiftLeft(hash, 5) - hash + unit;
    assert Pow2(5) == 32;
    assert ShiftLeft(hash, 5) == ToInt32(32 * hash);
    BitAndSelf(h);
    ScaledCongruence(32 * hash, 1, unit - hash);
    assert ToInt32(h) == ToInt32(32 * hash + (unit - hash));
  }

  /** The loop body keeps the hash equal to the wrapped weighted sum of the units read so far. */
  lemma HashLoopStep(units: seq<int>, i: nat, hash: int)
    requires i < |units|
    requires hash == ToInt32(WeightedSum(units[..i]))
    ensures var h := ShiftLeft(hash, 5) - hash + units[i];
            BitAnd(h, h) == ToInt32(WeightedSum(units[..i + 1]))
  {
    var w, u := WeightedSum(units[..i]), units[i];
    HashStep(hash, u);
    ScaledCongruence(w, 31, u);
    assert units[..i + 1] == units[..i] + [u];
    WeightedSumSnoc(units[..i], u);
  }

  /** The hash loop of `seededRandom`, over the UTF-16 code units of the seed. */
  method SeededHash(seed: string) returns (hash: int)
    ensures IsInt32(hash)
    ensures hash == ToInt32(WeightedSum(CodeUnits(seed)))
    ensures seed == "" ==> hash == 0
  {
    var units := CodeUnits(seed);
    hash := 0;
    for i := 0 to |units|
      invariant hash == ToInt32(WeightedSum(units[..i]))
    {
      HashLoopStep(units, i, hash);
      hash := ShiftLeft(hash, 5) - hash + units[i];
      hash := BitAnd(hash, hash);
    }
    assert units[..|units|] == units;
  }

  /** A pinned value: "test" hashes to 3556498, the value of Java's "test".hashCode(). */
  lemma SeedHashOfTest()
    ensures SeedHash("test") == 3556498
  {
    assert CodeUnits("test") == [116, 101, 115, 116];
    assert WeightedSum([116]) == 116;
    WeightedSumSnoc([116], 101);
    assert [116] + [101] == [116, 101];
    WeightedSumSnoc([116, 101], 115);
    assert [116, 101] + [115] == [116, 101, 115];
    WeightedSumSnoc([116, 101, 115], 116);
    assert [116, 101, 115] + [116] == [116, 101, 115, 116];
  }

  /** `x - Math.floor(x)`. */
  function Frac(x: real): (r: real)
    ensures 0.0 <= r < 1.0
    ensures (x - r).Floor as real == x - r
  {
    x - x.Floor as real
  }

  /** The value `seededRandom(seed)` returns. */
  function Rand(seed: string, sine: int -> real): (x: real)
    ensures 0.0 <= x < 1.0
  {
    Frac(sine(SeedHash(seed)) * 10000.0)
  }

  /** `seededRandom`: hash the seed, take the sine, keep the fractional part of 10000 times it. */
  method SeededRandom(seed: string, sine: int -> real) returns (x: real)
    ensures 0.0 <= x < 1.0
    ensures x == Rand(seed, sine)
  {
    var hash := SeededHash(seed);
    var y := sine(hash) * 10000.0;
    x := y - y.Floor as real;
  }

  // ---------------------------------------------------------------------------
  // Scaling a draw to an index or a channel
  // ---------------------------------------------------------------------------

  /** `Math.floor(draw * n)` for a draw in [0, 1): an integer in [0, n). */
  function FloorScale(draw: real, n: nat): (k: nat)
    requires 0.0 <= draw < 1.0
    ensures n > 0 ==> k < n
    ensures k as real <= draw * n as real < k as real + 1.0
  {
    assert 0.0 <= draw * n as real <= n as real;
    (draw * n as real).Floor
  }

  // ---------------------------------------------------------------------------
  // generateGradientColors
  // ---------------------------------------------------------------------------

  datatype Rgb = Rgb(r: nat, g: nat, b: nat)

  predicate IsByteColor(c: Rgb) {
    c.r <= 255 && c.g <= 255 && c.b <= 255
  }

  /** The template `rgb(${r}, ${g}, ${b})`: a CSS colour in functional notation. */
  function RgbString(c: Rgb): (text: string)
    ensures StartsWith(text, "rgb(") && text[|text| - 1] == ')'
  {
    "rgb(" + NatToString(c.r) + ", " + NatToString(c.g) + ", " + NatToString(c.b) + ")"
  }

  /** The three channels `randomColor(salt)` draws from the seeds seed+salt+"r", "g" and "b". */
  function RandomColor(seed: string, salt: string, sine: int -> real): (c: Rgb)
    ensures IsByteColor(c)
  {
    Rgb(FloorScale(Rand(seed + salt + "r", sine), 256),
        FloorScale(Rand(seed + salt + "g", sine), 256),
        FloorScale(Rand(seed + salt + "b", sine), 256))
  }

  /** The triple `[color1, color2, angle]` of `generateGradientColors`. */
  datatype Gradient = Gradient(color1: string, color2: string, angle: int)

  function GenerateGradientColors(seed: string, sine: int -> real): (g: Gradient)
    ensures 0 <= g.angle < 360
  {
    Gradient(RgbString(RandomColor(seed, "color1", sine)),
             RgbString(RandomColor(seed, "color2", sine)),
             FloorScale(Rand(seed + "angle", sine), 360))
  }

  // ---------------------------------------------------------------------------
  // getContrastColor: the digit runs of `bgColor.match(/\d+/g)`
  // ---------------------------------------------------------------------------

  /** The length of the run of decimal digits that starts the string. */
  function LeadingDigits(s: string): (k: nat)
    ensures k <= |s|
    ensures AllDigits(s[..k])
    ensures k < |s| ==> !IsDigit(s[k])
  {
    if s == [] || !IsDigit(s[0]) then 0
    else
      var k := LeadingDigits(s[1..]);
      assert s[..k + 1] == [s[0]] + s[1..][..k];
      k + 1
  }

  /** `s.match(/\d+/g)?.map(Number)`: the values of the maximal digit runs, left to right
    * (the empty sequence stands for the `null` of no match). */
  function DigitRuns(s: string): (runs: seq<nat>)
    ensures |runs| <= |s|
    ensures runs == [] <==> NoDigits(s)
    decreases |s|
  {
    if s == [] then []
    else if !IsDigit(s[0]) then DigitRuns(s[1..])
    else
      var k := LeadingDigits(s);
      [NumberOfDigits(s[..k])] + DigitRuns(s[k..])
  }

  predicate NoDigits(s: string) {
    forall k :: 0 <= k < |s| ==> !IsDigit(s[k])
  }

  lemma {:induction false} DigitRunsSkip(p: string, t: string)
    requires NoDigits(p)
    ensures DigitRuns(p + t) == DigitRuns(t)
  {
    if p != [] {
      assert (p + t)[1..] == p[1..] + t;
      DigitRunsSkip(p[1..], t);
    } else {
      assert p + t == t;
    }
  }

  lemma {:induction false} LeadingDigitsOfRun(d: string, t: string)
    requires AllDigits(d)
    requires t == [] || !IsDigit(t[0])
    ensures LeadingDigits(d + t) == |d|
  {
    if d != [] {
      assert (d + t)[1..] == d[1..] + t;
      LeadingDigitsOfRun(d[1..], t);
    } else {
      assert d + t == t;
    }
  }

  lemma DigitRunsTake(d: string, t: string)
    requires d != [] && AllDigits(d)
    requires t == [] || !IsDigit(t[0])
    ensures DigitRuns(d + t) == [NumberOfDigits(d)] + DigitRuns(t)
  {
    LeadingDigitsOfRun(d, t);
    assert (d + t)[..|d|] == d;
    assert (d + t)[|d|..] == t;
  }

  /** The digit runs of a separator, a number and the rest. */
  lemma DigitRunsOfField(sep: string, n: nat, rest: string)
    requires NoDigits(sep)
    requires rest == [] || !IsDigit(rest[0])
    ensures DigitRuns(sep + NatToString(n) + rest) == [n] + DigitRuns(rest)
  {
    var d := NatToString(n);
    assert sep + d + rest == sep + (d + rest);
    DigitRunsSkip(sep, d + rest);
    DigitRunsTake(d, rest);
    NumberOfNatToString(n);
  }

  /** Round trip: the digit runs of `rgb(${r}, ${g}, ${b})` are exactly r, g and b. */
  lemma RgbStringDigitRuns(c: Rgb)
    ensures DigitRuns(RgbString(c)) == [c.r, c.g, c.b]
  {
    var tail := ")";
    var third := ", " + NatToString(c.b) + tail;
    var second := ", " + NatToString(c.g) + third;
    assert RgbString(c) == "rgb(" + NatToString(c.r) + second;
    assert NoDigits("rgb(") && NoDigits(", ") && NoDigits(tail);
    DigitRunsOfField(", ", c.b, tail);
    DigitRunsOfField(", ", c.g, third);
    DigitRunsOfField("rgb(", c.r, second);
  }

  /** Every colour string of the gradient carries exactly its three channels, each in [0, 255]. */
  lemma GradientColorChannels(seed: string, sine: int -> real)
    ensures var g := GenerateGradientColors(seed, sine);
            var c1 := RandomColor(seed, "color1", sine);
            var c2 := RandomColor(seed, "color2", sine);
            && DigitRuns(g.color1) == [c1.r, c1.g, c1.b] && IsByteColor(c1)
            && DigitRuns(g.color2) == [c2.r, c2.g, c2.b] && IsByteColor(c2)
  {
    RgbStringDigitRuns(RandomColor(seed, "color1", sine));
    RgbStringDigitRuns(RandomColor(seed, "color2", sine));
  }

  /** The relative luminance `(0.299 R + 0.587 G + 0.114 B) / 255`, in exact arithmetic. */
  function Luminance(r: real, g: real, b: real): (l: real)
    ensures l > 0.5 <==> 299.0 * r + 587.0 * g + 114.0 * b > 127500.0
    ensures r == g == b ==> l == r / 255.0
  {
    (0.299 * r + 0.587 * g + 0.114 * b) / 255.0
  }

  /** `getContrastColor`: "black" on a light background, "white" on a dark one. With no digit
    * run the channels default to [0, 0, 0]; with one or two runs a missing channel is
    * `undefined`, the luminance NaN, and the comparison false. */
  function GetContrastColor(bgColor: string): (color: string)
    ensures color == "black" || color == "white"
  {
    var runs := DigitRuns(bgColor);
    var rgb := if runs == [] then [0, 0, 0] else runs;
    if |rgb| < 3 then "white"
    else if 299 * rgb[0] + 587 * rgb[1] + 114 * rgb[2] > 127500 then "black"
    else "white"
  }

  /** With at least three digit runs the answer is "black" exactly when the luminance of the
    * first three exceeds one half. */
  lemma ContrastFollowsLuminance(bgColor: string)
    requires |DigitRuns(bgColor)| >= 3
    ensures var runs := DigitRuns(bgColor);
            GetContrastColor(bgColor) == "black"
            <==> Luminance(runs[0] as real, runs[1] as real, runs[2] as real) > 0.5
  {
  }

  /** On a colour printed as `rgb(r, g, b)` the contrast colour follows the luminance. */
  lemma ContrastOfRgb(c: Rgb)
    ensures GetContrastColor(RgbString(c)) == "black"
            <==> Luminance(c.r as real, c.g as real, c.b as real) > 0.5
  {
    RgbStringDigitRuns(c);
  }

  /** With one or two digit runs a channel is `undefined`, the luminance NaN, and the text
    * white. */
  lemma ContrastFewRuns(bgColor: string)
    requires 1 <= |DigitRuns(bgColor)| < 3
    ensures GetContrastColor(bgColor) == "white"
  {
  }

  /** A colour string without any digit yields "white", through the [0, 0, 0] default. */
  lemma ContrastWithoutDigits(bgColor: string)
    requires NoDigits(bgColor)
    ensures GetContrastColor(bgColor) == "white"
  {
  }

  lemma RgbStringWhite()
    ensures RgbString(Rgb(255, 255, 255)) == "rgb(255, 255, 255)"
  {
    assert NatToString(2) == "2";
    assert NatToString(25) == "25";
  }

  lemma RgbStringBlack()
    ensures RgbString(Rgb(0, 0, 0)) == "rgb(0, 0, 0)"
  {
    assert NatToString(0) == "0";
  }

  /** Black text on white, white text on black. */
  lemma ContrastExtremes()
    ensures GetContrastColor("rgb(255, 255, 255)") == "black"
    ensures GetContrastColor("rgb(0, 0, 0)") == "white"
  {
    RgbStringWhite();
    RgbStringBlack();
    ContrastOfRgb(Rgb(255, 255, 255));
    ContrastOfRgb(Rgb(0, 0, 0));
  }

  /** "rgba(0, 0, 0, 0)" written field by field. */
  function TransparentFields(): string {
    var zero, sep := NatToString(0), ", ";
    "rgba(" + zero + (sep + zero + (sep + zero + (sep + zero + ")")))
  }

  lemma TransparentFieldsSpelled()
    ensures TransparentFields() == "rgba(0, 0, 0, 0)"
  {
    assert NatToString(0) == "0";
  }

  /** The digit runs of the transparent colour are four zeros. */
  lemma TransparentDigitRuns()
    ensures DigitRuns(TransparentFields()) == [0, 0, 0, 0]
  {
    var zero, sep, close := NatToString(0), ", ", ")";
    var f3 := sep + zero + close;
    var f2 := sep + zero + f3;
    var f1 := sep + zero + f2;
    assert NoDigits("rgba(") && NoDigits(sep) && NoDigits(close);
    DigitRunsOfField(sep, 0, close);
    DigitRunsOfField(sep, 0, f3);
    DigitRunsOfField(sep, 0, f2);
    DigitRunsOfField("rgba(", 0, f1);
  }

  /** The computed `background-color` of an element whose background is only a gradient is
    * the transparent "rgba(0, 0, 0, 0)"; its contrast colour is "white". */
  lemma ContrastOfTransparent()
    ensures GetContrastColor("rgba(0, 0, 0, 0)") == "white"
  {
    TransparentFieldsSpelled();
    TransparentDigitRuns();
  }

  // ---------------------------------------------------------------------------
  // getRandomItem
  // ---------------------------------------------------------------------------

  /** The index `getRandomItem` reads: `Math.floor(seededRandom(seed) * items.length)`. */
  function ItemIndex(count: nat, seed: string, sine: int -> real): (k: nat)
    ensures count > 0 ==> k < count
  {
    FloorScale(Rand(seed, sine), count)
  }

  /** `getRandomItem`: for a non-empty list, an element of it chosen by the seed. */
  function GetRandomItem<T>(items: seq<T>, seed: string, sine: int -> real): (item: T)
    requires |items| > 0
    ensures item in items
  {
    items[ItemIndex(|items|, seed, sine)]
  }
}
