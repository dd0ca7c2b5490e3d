/**
 The colours of gradients and rainbows of limbo/minimessage/minimessage.go in whole numbers: what the real-valued
 interpolation and the hue wheel come to for each rune.
 */
module Shades {
  import opened Wrappers
  import opened Colors

  // ------------------------------------------------------------------ rounding

  /** A number that is `n` parts of `d`, rounded down. */
  lemma FloorOfParts(x: real, n: int, d: int)
    requires d > 0 && x * d as real == n as real
    ensures x.Floor == n / d
  {
    var q, r := n / d, n % d;
    assert n == q * d + r;
    assert (q * d) as real == q as real * d as real;
    WithinOne(x - q as real, d as real, r as real);
  }

  lemma WithinOne(y: real, d: real, r: real)
    requires d > 0.0 && y * d == r && 0.0 <= r < d
    ensures 0.0 <= y < 1.0
  {
    BelowOne(y, d);
    if y < 0.0 {
      ProductIsNegative(y, d);
    }
  }

  lemma ProductIsNegative(y: real, d: real)
    requires y < 0.0 && d > 0.0
    ensures y * d < 0.0
  {
  }

  // ------------------------------------------------------------------ gradients

  /** `s` parts of `d` on the way from `a` to `b`, rounded down. */
  function Parts(a: int, b: int, s: nat, d: nat): int
    requires s < d
  {
    (a * (d - s) + b * s) / d
  }

  function Blend(a: Color, b: Color, s: nat, d: nat): Color
    requires s < d
  {
    Color(Parts(a.r, b.r, s, d), Parts(a.g, b.g, s, d), Parts(a.b, b.b, s, d))
  }

  lemma MixInParts(a: int, b: int, t: real, s: nat, d: nat)
    requires s < d && t * d as real == s as real
    ensures MixChannel(a, b, t) == Parts(a, b, s, d)
  {
    var x, y, w := a as real, b as real, d as real;
    var v := x * (1.0 - t) + y * t;
    MixTimes(x, y, t, w, s as real, v);
    ProductAsReal(a, d - s);
    ProductAsReal(b, s);
    FloorOfParts(v, a * (d - s) + b * s, d);
  }

  lemma ProductAsReal(a: int, b: int)
    ensures (a * b) as real == a as real * b as real
  {
  }

  lemma MixTimes(x: real, y: real, t: real, w: real, s: real, v: real)
    requires t * w == s && v == x * (1.0 - t) + y * t
    ensures v * w == x * (w - s) + y * s
  {
    Regroup(x, 1.0 - t, w);
    Regroup(y, t, w);
  }

  lemma Regroup(x: real, t: real, w: real)
    ensures x * t * w == x * (t * w)
  {
  }

  /** Where rune `index` lies on the colours: the colour before it, and how many of the `total - 1` parts behind that. */
  lemma PosInParts(count: nat, index: nat, total: int)
    requires count > 0 && total > 1
    ensures var n, d := index * (count - 1), total - 1; var pos := GradientPos(count, index, total);
            pos.Floor == n / d && (pos - (n / d) as real) * d as real == (n % d) as real
  {
    var n, d := index * (count - 1), total - 1;
    var pos := GradientPos(count, index, total);
    PosTimes(index as real, d as real, (count - 1) as real, pos);
    ProductAsReal(index, count - 1);
    FloorOfParts(pos, n, d);
    WholePart(n, d);
  }

  lemma PosTimes(i: real, d: real, c: real, pos: real)
    requires d > 0.0 && pos == i / d * c
    ensures pos * d == i * c
  {
    QuotientTimes(i, d);
    Regroup(i / d, c, d);
    Regroup(i / d, d, c);
  }

  /** The colour that lies `n` parts of `d` a pair of neighbours along the colours; behind the last it is the last. */
  function Along(colors: seq<Color>, n: nat, d: nat): Color
    requires colors != [] && d > 0
  {
    var left := n / d;
    if left + 1 < |colors| then Blend(colors[left], colors[left + 1], n % d, d) else colors[|colors| - 1]
  }

  lemma PaintAlong(colors: seq<Color>, index: nat, total: int, n: nat)
    requires |colors| >= 2 && total >= 2
    requires var pos, d := GradientPos(|colors|, index, total), total - 1;
             pos.Floor == n / d && (pos - (n / d) as real) * d as real == (n % d) as real
    ensures GradientColor(colors, index, total) == Along(colors, n, total - 1)
  {
    var d := total - 1;
    if n / d + 1 < |colors| {
      BlendAt(colors, GradientPos(|colors|, index, total), n / d, n % d, d);
    }
  }

  /**
   The colour of every rune under a gradient. With `n` colours rune `index` of `total` lies `index * (n - 1)` parts of
   `total - 1` along them, and is blended in that proportion from the two colours around it.
   */
  lemma GradientIsBlended(colors: seq<Color>, index: nat, total: int)
    requires |colors| >= 2 && total >= 2
    ensures GradientColor(colors, index, total) == Along(colors, index * (|colors| - 1), total - 1)
  {
    PosInParts(|colors|, index, total);
    PaintAlong(colors, index, total, index * (|colors| - 1));
  }

  lemma BlendAt(colors: seq<Color>, pos: real, left: nat, s: nat, d: nat)
    requires pos.Floor == left && s < d && (pos - left as real) * d as real == s as real && left + 1 < |colors|
    ensures Interpolate(colors[left], colors[left + 1], pos - left as real) == Blend(colors[left], colors[left + 1], s, d)
  {
    var a, b, t := colors[left], colors[left + 1], pos - left as real;
    MixInParts(a.r, b.r, t, s, d);
    MixInParts(a.g, b.g, t, s, d);
    MixInParts(a.b, b.b, t, s, d);
  }

  // ------------------------------------------------------------------ rainbows

  /** The six sectors of the colour wheel from red on; `up` is the share of the sector that is passed, `down` what is left. */
  function Wheel(sector: nat, up: int, down: int): Color {
    match sector % 6
    case 0 => Color(255, up, 0)
    case 1 => Color(down, 255, 0)
    case 2 => Color(0, 255, up)
    case 3 => Color(0, down, 255)
    case 4 => Color(up, 0, 255)
    case _ => Color(255, 0, down)
  }

  /** The colour `6 * i` parts of `total` along the sectors; behind the start the first channels run out of range. */
  function OnWheel(i: int, total: nat): Color
    requires total > 1
  {
    if i >= 0 then
      var n := 6 * i;
      Wheel(n / total, 255 * (n % total) / total, 255 * (total - n % total) / total)
    else
      var n := 6 * -i;
      var over := 255 * (n % total) / total;
      if n / total % 6 == 0 then Color(255, -over, 0) else Color(255, 0, 255 + over)
  }

  /** The colour of every rune under a rainbow, with an index beyond either end too. */
  lemma RainbowIsWheel(i: int, total: nat)
    requires total > 1
    ensures RainbowColor(i, total) == OnWheel(i, total)
  {
    if i >= 0 {
      RainbowOnWheel(i, total);
    } else {
      RainbowBehindWheel(-i, total);
    }
  }

  lemma RainbowBehindWheel(m: int, total: nat)
    requires m > 0 && total > 1
    ensures RainbowColor(-m, total) == OnWheel(-m, total)
  {
    HueOfNegative(m, total);
    BehindWheel((-m) as real / total as real, 6 * m / total, 6 * m % total, total);
  }

  lemma BehindWheel(h: real, sectors: int, s: nat, d: nat)
    requires s < d && Trunc(h * 6.0) == -sectors && h * 6.0 - Trunc(h * 6.0) as real == -(s as real / d as real)
    requires sectors >= 0 && 0.0 <= s as real / d as real < 1.0
    ensures var over := 255 * s / d;
            Hue(h) == if sectors % 6 == 0 then Color(255, -over, 0) else Color(255, 0, 255 + over)
  {
    QuotientTimes(s as real, d as real);
    ShareInParts(s as real / d as real, s, d);
    HueBehindWheel(h, s as real / d as real, sectors);
  }

  lemma HueBehindWheel(h: real, share: real, sectors: int)
    requires sectors >= 0 && Trunc(h * 6.0) == -sectors && h * 6.0 - Trunc(h * 6.0) as real == -share && 0.0 <= share < 1.0
    ensures var over := (share * 255.0).Floor;
            Hue(h) == if sectors % 6 == 0 then Color(255, -over, 0) else Color(255, 0, 255 + over)
  {
    assert Trunc(-share * 255.0) == -((share * 255.0).Floor);
    assert Trunc((1.0 + share) * 255.0) == 255 + (share * 255.0).Floor;
  }

  lemma RainbowOnWheel(index: nat, total: nat)
    requires total > 1
    ensures RainbowColor(index, total) == OnWheel(index, total)
  {
    var n := 6 * index;
    var x := index as real / total as real * 6.0;
    QuotientTimes(index as real, total as real);
    Swap(index as real / total as real, 6.0, total as real);
    FloorOfParts(x, n, total);
    WholePart(n, total);
    WheelAt(index as real / total as real, n / total, n % total, total);
  }

  lemma WheelAt(h: real, sector: nat, s: nat, d: nat)
    requires s < d && (h * 6.0).Floor == sector && h * 6.0 * d as real == sector as real * d as real + s as real
    ensures Hue(h) == Wheel(sector, 255 * s / d, 255 * (d - s) / d)
  {
    var f := h * 6.0 - sector as real;
    Share(h * 6.0, sector as real, d as real, s as real);
    ShareInParts(f, s, d);
    ShareInParts(1.0 - f, d - s, d);
    HueIsWheel(h, sector, f);
  }

  lemma Share(x: real, sector: real, d: real, s: real)
    requires x * d == sector * d + s
    ensures (x - sector) * d == s && (1.0 - (x - sector)) * d == d - s
  {
  }

  lemma Swap(q: real, c: real, d: real)
    ensures q * c * d == q * d * c
  {
  }

  lemma ShareInParts(f: real, s: nat, d: nat)
    requires d > 0 && f * d as real == s as real
    ensures (f * 255.0).Floor == 255 * s / d
  {
    Swap(f, 255.0, d as real);
    FloorOfParts(f * 255.0, 255 * s, d);
  }

  lemma HueIsWheel(h: real, sector: nat, f: real)
    requires (h * 6.0).Floor == sector && f == h * 6.0 - sector as real && 0.0 <= f < 1.0
    ensures Hue(h) == Wheel(sector, (f * 255.0).Floor, ((1.0 - f) * 255.0).Floor)
  {
    assert Trunc(f * 255.0) == (f * 255.0).Floor && Trunc((1.0 - f) * 255.0) == ((1.0 - f) * 255.0).Floor;
  }

  // ------------------------------------------------------------------ transitions

  /** The last argument that reads as a number decides the phase of a transition; numbers beyond -1 and 1 count as those. */
  lemma {:induction false} PhaseIsLastNumber(args: seq<string>, float: string -> Option<real>, k: nat)
    requires k < |args| && float(args[k]).Some? && forall j :: k < j < |args| ==> float(args[j]).None?
    ensures var v := float(args[k]).value;
            TransitionPhase(args, float) == if v > 1.0 then 1.0 else if v < -1.0 then -1.0 else v
    decreases |args|
  {
    if k < |args| - 1 {
      PhaseIsLastNumber(args[..|args| - 1], float, k);
    }
  }

  lemma {:induction false} NoNumberNoPhase(args: seq<string>, float: string -> Option<real>)
    requires forall j :: 0 <= j < |args| ==> float(args[j]).None?
    ensures TransitionPhase(args, float) == 0.0
    decreases |args|
  {
    if args != [] {
      NoNumberNoPhase(args[..|args| - 1], float);
    }
  }
}
