/**
 How many runes a reversed rainbow of limbo/minimessage/minimessage.go bears behind those it counted.
 */
module RainbowBound {
  import opened Wrappers
  import opened Colors
  import opened Renderer
  import opened Meaning
  import opened Rainbows

  /** Rune `k` of a reversed rainbow over `total` counted runes gets a valid colour. */
  predicate RuneFits(k: nat, total: nat) {
    RainbowFits(total - k - 1, total)
  }

  /** How many runes a count bears before an index behind it gives an invalid colour. */
  predicate Bears(n: nat, total: nat) {
    n <= total || total in {0, 1, 2, 3, 6} || 1530 * (n - total) < total
  }

  lemma Divides(k: nat, total: nat)
    requires total in {2, 3, 6}
    ensures 6 * k % total == 0
  {
    if total == 2 {
      assert 6 * k % 2 == 0;
    } else if total == 3 {
      assert 6 * k % 3 == 0;
    } else {
      assert 6 * k % 6 == 0;
    }
  }

  lemma SmallRemainder(a: nat, total: nat)
    requires a < total
    ensures a % total == a
  {
  }

  lemma BehindFits(m: nat, total: nat)
    requires m >= 1 && total > 1 && (total in {2, 3, 6} || 1530 * m < total)
    ensures RainbowFits(0 - m, total)
  {
    if total in {2, 3, 6} {
      Divides(m, total);
    } else {
      SmallRemainder(6 * m, total);
    }
  }

  /** The first count of runes behind `total` that is too large. */
  lemma TooManyBehind(m: nat, total: nat) returns (k: nat)
    requires total > 1 && total !in {2, 3, 6} && 1530 * m >= total
    ensures 1 <= k <= m && !RainbowFits(0 - k, total)
  {
    if total < 7 {
      k := 1;
    } else {
      k := LeastMultiple(m, total);
      SmallRemainder(6 * k, total);
    }
  }

  lemma LeastMultiple(m: nat, total: nat) returns (k: nat)
    requires total >= 7 && 1530 * m >= total
    ensures 1 <= k <= m && 1530 * k >= total && 6 * k < total
  {
    k := (total + 1529) / 1530;
    assert 1530 * (k - 1) < total <= 1530 * k;
  }

  lemma AllFitIff(n: nat, total: nat)
    ensures (forall k: nat :: k < n ==> RuneFits(k, total)) <==> Bears(n, total)
  {
    if Bears(n, total) {
      forall k: nat | k < n
        ensures RuneFits(k, total)
      {
        if total > 1 && k >= total {
          BehindFits(k + 1 - total, total);
        }
      }
    } else {
      var k := TooManyBehind(n - total, total);
      assert !RuneFits(total + k - 1, total);
    }
  }

  lemma RuneIsValidIff(value: string, style: Style, total: nat, k: nat)
    requires k < |value|
    ensures var out := PaintRunes(value, style, Brush(total, Rainbow(true)), 0);
            |out| == |value| && (ValidStyle(out[k].style) <==> RuneFits(k, total))
  {
    RuneColor(value, style, Brush(total, Rainbow(true)), 0, k);
    RainbowIsValidIff(total - k - 1, total);
  }

  /**
   A reversed rainbow over `total` counted runes paints all of a text in valid colours if and only if the text has no more
   runes than were counted, or the count is 0, 1, 2, 3 or 6, or 1530 times the surplus is less than the count.
   */
  lemma ReversedRunesAreValidIff(value: string, style: Style, total: nat)
    ensures AllValid(PaintRunes(value, style, Brush(total, Rainbow(true)), 0)) <==> Bears(|value|, total)
  {
    var out := PaintRunes(value, style, Brush(total, Rainbow(true)), 0);
    if value == "" {
      AllFitIff(0, total);
      return;
    }
    RuneIsValidIff(value, style, total, 0);
    forall k: nat | k < |value|
      ensures ValidStyle(out[k].style) <==> RuneFits(k, total)
    {
      RuneIsValidIff(value, style, total, k);
    }
    AllFitIff(|value|, total);
  }
}
