/**
 Colour arithmetic of limbo/minimessage/minimessage.go, over `real` instead of float64.
 A valid colour has its three channels in 0..255, where packing them into one integer loses nothing.
 */
module Colors {
  import opened Wrappers

  datatype Color = Color(r: int, g: int, b: int) {
    predicate Valid() {
      0 <= r <= 255 && 0 <= g <= 255 && 0 <= b <= 255
    }
  }

  const WHITE := Color(255, 255, 255)
  const AQUA := Color(0x55, 255, 255)
  const RED := Color(255, 0x55, 0x55)

  /** How the runes under a gradient or rainbow tag are coloured. */
  datatype Paint = Gradient(colors: seq<Color>) | Rainbow(reverse: bool)

  /** Where the colour of rune `index` lies on the list of colours. */
  function GradientPos(count: nat, index: nat, total: int): real
    requires total > 1
  {
    index as real / (total - 1) as real * (count - 1) as real
  }

  function MixChannel(a: int, b: int, t: real): int {
    (a as real * (1.0 - t) + b as real * t).Floor
  }

  function Interpolate(a: Color, b: Color, t: real): Color {
    Color(MixChannel(a.r, b.r, t), MixChannel(a.g, b.g, t), MixChannel(a.b, b.b, t))
  }

  function GradientColor(colors: seq<Color>, index: nat, total: int): Color {
    if |colors| == 0 then WHITE
    else if |colors| == 1 || total <= 1 then colors[0]
    else
      var pos := GradientPos(|colors|, index, total);
      var left := pos.Floor;
      var right := left + 1;
      assert pos >= 0.0 by { PosIsNonNegative(|colors|, index, total); }
      if right >= |colors| then colors[|colors| - 1]
      else Interpolate(colors[left], colors[right], pos - left as real)
  }

  /** Truncation toward zero. */
  function Trunc(x: real): int {
    if x >= 0.0 then x.Floor else -((-x).Floor)
  }

  /** `hsvToRGB` at full saturation and value; a negative remainder falls to the last case. */
  function Hue(h: real): Color {
    var i := Trunc(h * 6.0);
    var f := h * 6.0 - i as real;
    var up, down := Trunc(f * 255.0), Trunc((1.0 - f) * 255.0);
    var sector := if i >= 0 then i % 6 else -((-i) % 6);
    if sector == 0 then Color(255, up, 0)
    else if sector == 1 then Color(down, 255, 0)
    else if sector == 2 then Color(0, 255, up)
    else if sector == 3 then Color(0, down, 255)
    else if sector == 4 then Color(up, 0, 255)
    else Color(255, 0, down)
  }

  function RainbowColor(index: int, total: int): Color {
    if total <= 1 then RED else Hue(index as real / total as real)
  }

  function PaintAt(paint: Paint, index: nat, total: int): Color {
    match paint
    case Gradient(colors) => GradientColor(colors, index, total)
    case Rainbow(reverse) => RainbowColor(if reverse then total - index - 1 else index, total)
  }

  function Max(a: real, b: real): real {
    if a < b then b else a
  }

  function Min(a: real, b: real): real {
    if a < b then a else b
  }

  /** The last argument that reads as a number, clamped to -1..1. */
  function TransitionPhase(args: seq<string>, float: string -> Option<real>): real
    decreases |args|
  {
    if args == [] then 0.0
    else
      match float(args[|args| - 1])
      case Some(v) => Max(-1.0, Min(1.0, v))
      case None => TransitionPhase(args[..|args| - 1], float)
  }

  function TransitionIndex(count: nat, phase: real): int
    requires count > 0
  {
    var index := ((phase + 1.0) / 2.0 * (count - 1) as real + 0.5).Floor;
    if index < 0 then 0 else if index >= count then count - 1 else index
  }

  function TransitionColor(colors: seq<Color>, args: seq<string>, float: string -> Option<real>): Color
    requires colors != []
  {
    colors[TransitionIndex(|colors|, TransitionPhase(args, float))]
  }

  // ------------------------------------------------------------------ bounds

  lemma PosIsNonNegative(count: nat, index: nat, total: int)
    requires count > 0 && total > 1
    ensures GradientPos(count, index, total) >= 0.0
  {
    var q := index as real / (total - 1) as real;
    assert q >= 0.0;
    MulNonNegative(q, (count - 1) as real);
  }

  lemma MulNonNegative(a: real, b: real)
    requires a >= 0.0 && b >= 0.0
    ensures a * b >= 0.0
  {
  }

  lemma MulMonotone(a: real, b: real, c: real)
    requires a <= b && c >= 0.0
    ensures a * c <= b * c
  {
    MulNonNegative(b - a, c);
  }

  /** Inside the counted runes the position stays on the list of colours. */
  lemma PosInRange(count: nat, index: nat, total: int)
    requires count > 0 && total > 1 && index <= total - 1
    ensures 0.0 <= GradientPos(count, index, total) <= (count - 1) as real
    ensures index == 0 ==> GradientPos(count, index, total) == 0.0
    ensures index == total - 1 ==> GradientPos(count, index, total) == (count - 1) as real
  {
    PosIsNonNegative(count, index, total);
    var n, d := index as real, (total - 1) as real;
    assert n / d <= 1.0;
    MulMonotone(n / d, 1.0, (count - 1) as real);
  }

  lemma PosPastEnd(count: nat, index: nat, total: int)
    requires count > 0 && total > 1 && index >= total - 1
    ensures GradientPos(count, index, total) >= (count - 1) as real
  {
    var n, d := index as real, (total - 1) as real;
    assert n / d >= 1.0;
    MulMonotone(1.0, n / d, (count - 1) as real);
  }

  ghost predicate Between(x: int, a: int, b: int) {
    a <= x <= b || b <= x <= a
  }

  ghost predicate ColorBetween(c: Color, a: Color, b: Color) {
    Between(c.r, a.r, b.r) && Between(c.g, a.g, b.g) && Between(c.b, a.b, b.b)
  }

  lemma MixStaysBetween(a: int, b: int, t: real)
    requires 0.0 <= t <= 1.0
    ensures Between(MixChannel(a, b, t), a, b)
    ensures t == 0.0 ==> MixChannel(a, b, t) == a
  {
    var v := a as real * (1.0 - t) + b as real * t;
    MixBounds(a as real, b as real, t, v);
    FloorStaysBetween(v, a, b);
  }

  lemma MixBounds(x: real, y: real, t: real, v: real)
    requires 0.0 <= t <= 1.0 && v == x * (1.0 - t) + y * t
    ensures x <= y ==> x <= v <= y
    ensures y <= x ==> y <= v <= x
    ensures t == 0.0 ==> v == x
  {
    assert v - x == (y - x) * t;
    assert y - v == (y - x) * (1.0 - t);
    ProductSign(y - x, t);
    ProductSign(y - x, 1.0 - t);
  }

  lemma ProductSign(d: real, t: real)
    requires t >= 0.0
    ensures d >= 0.0 ==> d * t >= 0.0
    ensures d <= 0.0 ==> d * t <= 0.0
    ensures t == 0.0 ==> d * t == 0.0
  {
  }

  lemma FloorStaysBetween(v: real, a: int, b: int)
    ensures a as real <= v <= b as real ==> a <= v.Floor <= b
    ensures b as real <= v <= a as real ==> b <= v.Floor <= a
    ensures v == a as real ==> v.Floor == a
  {
  }

  /**
   A gradient starts at its first colour, ends at its last, and in between mixes two neighbours
   of the list: every channel stays between theirs.
   */
  lemma GradientStaysOnTheColors(colors: seq<Color>, index: nat, total: int)
    requires |colors| >= 2 && total >= 2 && index < total
    ensures index == 0 ==> GradientColor(colors, index, total) == colors[0]
    ensures index == total - 1 ==> GradientColor(colors, index, total) == colors[|colors| - 1]
    ensures var left := GradientPos(|colors|, index, total).Floor;
            && 0 <= left < |colors|
            && ColorBetween(GradientColor(colors, index, total), colors[left],
                            colors[if left + 1 < |colors| then left + 1 else left])
  {
    PosInRange(|colors|, index, total);
    var pos := GradientPos(|colors|, index, total);
    var left := pos.Floor;
    if left + 1 < |colors| {
      var a, b, t := colors[left], colors[left + 1], pos - left as real;
      MixStaysBetween(a.r, b.r, t);
      MixStaysBetween(a.g, b.g, t);
      MixStaysBetween(a.b, b.b, t);
    }
  }

  /** Past the counted runes a gradient stays at its last colour. */
  lemma GradientPastEnd(colors: seq<Color>, index: nat, total: int)
    requires |colors| >= 2 && total >= 2 && index >= total - 1
    ensures GradientColor(colors, index, total) == colors[|colors| - 1]
  {
    PosPastEnd(|colors|, index, total);
  }

  /** A later rune never takes its colour from an earlier pair of neighbours. */
  lemma GradientMovesForward(count: nat, i: nat, j: nat, total: int)
    requires count > 0 && total > 1 && i <= j
    ensures GradientPos(count, i, total) <= GradientPos(count, j, total)
  {
    var d, c := (total - 1) as real, (count - 1) as real;
    assert i as real / d <= j as real / d;
    MulMonotone(i as real / d, j as real / d, c);
  }

  /** The quotient of two integers as a real, split into its whole part and the rest. */
  lemma QuotientSplits(a: nat, b: nat)
    requires b > 0
    ensures a as real / b as real == (a / b) as real + (a % b) as real / b as real
    ensures 0.0 <= (a % b) as real / b as real < 1.0
  {
    var q, r, d := (a / b) as real, (a % b) as real, b as real;
    WholePart(a, b);
    assert a as real == q * d + r;
    assert (q * d + r) / d == q + r / d by {
      assert q * d / d == q;
    }
  }

  lemma WholePart(a: nat, b: nat)
    requires b > 0
    ensures a as real == (a / b) as real * b as real + (a % b) as real
  {
    var q, r := a / b, a % b;
    assert a == q * b + r;
    assert (q * b) as real == q as real * b as real;
  }

  /** For a negative index: its whole sectors, and how far it is into the next one. */
  lemma HueOfNegative(m: int, total: int)
    requires m > 0 && total > 1
    ensures var x := (-m) as real / total as real * 6.0; var share := (6 * m % total) as real / total as real;
            Trunc(x) == -(6 * m / total) && x - Trunc(x) as real == -share && 0.0 <= share < 1.0
  {
    var x := (-m) as real / total as real * 6.0;
    assert -x == (6 * m) as real / total as real;
    QuotientSplits(6 * m, total);
  }

  lemma ShareIsSmall(r: int, total: int, q: real)
    requires 0 <= r < total && q * total as real == r as real
    ensures 255 * r < total <==> q * 255.0 < 1.0
  {
    SmallQuotient(q, r as real, total as real);
    assert 255.0 * r as real < total as real <==> 255 * r < total;
  }

  lemma SmallQuotient(q: real, a: real, d: real)
    requires d > 0.0 && q * d == a
    ensures 255.0 * a < d <==> q * 255.0 < 1.0
  {
    Reorder(q, 255.0, d, a);
    BelowOne(q * 255.0, d);
  }

  lemma QuotientTimes(a: real, d: real)
    requires d > 0.0
    ensures a / d * d == a
  {
  }

  lemma Reorder(q: real, c: real, d: real, a: real)
    requires q * d == a
    ensures q * c * d == c * a
  {
  }

  lemma BelowOne(x: real, d: real)
    requires d > 0.0
    ensures x * d < d <==> x < 1.0
  {
    assert (1.0 - x) * d == d - x * d;
    ProductSign(1.0 - x, d);
    ProductIsPositive(1.0 - x, d);
  }

  lemma ProductIsPositive(a: real, d: real)
    requires d > 0.0
    ensures a > 0.0 ==> a * d > 0.0
  {
  }

  /** The exact test for a valid rainbow colour. */
  predicate RainbowFits(index: int, total: int) {
    index >= 0 || total <= 1 || 255 * (-6 * index % total) < total
  }

  /**
   A rainbow colour is valid exactly when its index is not negative, or so little behind the start of a
   sector that rounding hides it.
   */
  lemma RainbowIsValidIff(index: int, total: int)
    ensures RainbowColor(index, total).Valid() <==> RainbowFits(index, total)
  {
    if index >= 0 {
      RainbowIsValid(index, total);
    } else if total > 1 {
      var m := -index;
      HueOfNegative(m, total);
      var r := 6 * m % total;
      QuotientTimes(r as real, total as real);
      ShareIsSmall(r, total, r as real / total as real);
      NegativeHue(index as real / total as real, r as real / total as real, 6 * m / total);
    }
  }

  lemma NegativeHue(h: real, share: real, sectors: int)
    requires Trunc(h * 6.0) == -sectors && h * 6.0 - Trunc(h * 6.0) as real == -share && 0.0 <= share < 1.0
    requires sectors >= 0
    ensures Hue(h).Valid() <==> share * 255.0 < 1.0
  {
    var up, down := Trunc(-share * 255.0), Trunc((1.0 + share) * 255.0);
    assert up == -((share * 255.0).Floor);
    assert down == 255 + (share * 255.0).Floor;
    assert Hue(h) == if sectors % 6 == 0 then Color(255, up, 0) else Color(255, 0, down);
  }

  /** Without a negative index a rainbow colour is always valid. */
  lemma RainbowIsValid(index: int, total: int)
    requires index >= 0
    ensures RainbowColor(index, total).Valid()
  {
    if total > 1 {
      var h := index as real / total as real;
      assert h >= 0.0;
      var x := h * 6.0;
      var f := x - Trunc(x) as real;
      assert 0.0 <= f < 1.0;
      assert 0.0 <= f * 255.0 <= 255.0 && 0.0 <= (1.0 - f) * 255.0 <= 255.0;
    }
  }

  lemma {:induction false} PhaseInRange(args: seq<string>, float: string -> Option<real>)
    ensures -1.0 <= TransitionPhase(args, float) <= 1.0
    decreases |args|
  {
    if args != [] && float(args[|args| - 1]).None? {
      PhaseInRange(args[..|args| - 1], float);
    }
  }

  /**
   At every phase the rounded index is already on the list, so the source's two clamps never act:
   phase -1 picks the first colour and phase 1 the last.
   */
  lemma TransitionInRange(count: nat, phase: real)
    requires count > 0 && -1.0 <= phase <= 1.0
    ensures TransitionIndex(count, phase) == ((phase + 1.0) / 2.0 * (count - 1) as real + 0.5).Floor
    ensures phase == -1.0 ==> TransitionIndex(count, phase) == 0
    ensures phase == 1.0 ==> TransitionIndex(count, phase) == count - 1
  {
    var half, last := (phase + 1.0) / 2.0, (count - 1) as real;
    assert 0.0 <= half <= 1.0;
    MulMonotone(half, 1.0, last);
    MulNonNegative(half, last);
    assert 1.0 * last == last;
  }
}
