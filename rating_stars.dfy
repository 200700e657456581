/** src/components/RatingStars.tsx: which value the five stars show, how full each
    star is drawn, and the value a click selects. */
module RatingStars {
  import opened Opt

  const StarCount: nat := 5

  /** `hovered ?? rating ?? 0` */
  function DisplayRating(hovered: Option<real>, rating: Option<real>): (d: real)
    ensures hovered.Some? ==> d == hovered.value
    ensures hovered.None? && rating.Some? ==> d == rating.value
    ensures hovered.None? && rating.None? ==> d == 0.0
  {
    hovered.GetOr(rating.GetOr(0.0))
  }

  /** `getFillPercent(starIndex)`: how much of star `star` is drawn, in percent. */
  function FillPercent(display: real, star: int): (p: real)
    ensures 0.0 <= p <= 100.0
    ensures display >= star as real ==> p == 100.0
    ensures display <= (star - 1) as real ==> p == 0.0
  {
    var diff := display - (star - 1) as real;
    if diff >= 1.0 then 100.0
    else if diff <= 0.0 then 0.0
    else diff * 100.0
  }

  /** A later star is never fuller than an earlier one. */
  lemma FillNonIncreasing(display: real, i: int, j: int)
    requires i <= j
    ensures FillPercent(display, j) <= FillPercent(display, i)
  {
  }

  /** `x` clamped to [lo, hi]. */
  function Clamp(x: real, lo: real, hi: real): real
    requires lo <= hi
  {
    if x < lo then lo else if x > hi then hi else x
  }

  /** The fill of the first `n` stars. */
  function TotalFill(display: real, n: nat): real {
    if n == 0 then 0.0 else TotalFill(display, n - 1) + FillPercent(display, n)
  }

  /** The stars together draw the displayed rating: the first `n` stars hold
      100 times the rating clamped to [0, n]. */
  lemma {:induction false} TotalFillIsRating(display: real, n: nat)
    ensures TotalFill(display, n) == 100.0 * Clamp(display, 0.0, n as real)
  {
    if n > 0 {
      TotalFillIsRating(display, n - 1);
      var m := (n - 1) as real;
      if display <= m {
        assert Clamp(display, 0.0, n as real) == Clamp(display, 0.0, m);
      } else {
        assert Clamp(display, 0.0, m) == m;
      }
    }
  }

  /** The value a click on star `star` selects: `star - 0.5` on the left half and
      `star` on the right half, or 0 when that is already the rating. */
  function ClickValue(star: int, rightHalf: bool, rating: Option<real>): (v: real)
    ensures var picked := if rightHalf then star as real else star as real - 0.5;
      && (rating == Some(picked) ==> v == 0.0)
      && (rating != Some(picked) ==> v == picked)
  {
    var picked := if rightHalf then star as real else star as real - 0.5;
    if rating == Some(picked) then 0.0 else picked
  }

  /** Clicking the same half twice selects a value and then clears it. */
  lemma ClickTwiceClears(star: int, rightHalf: bool, rating: Option<real>)
    requires 1 <= star <= StarCount
    requires ClickValue(star, rightHalf, rating) != 0.0
    ensures ClickValue(star, rightHalf, Some(ClickValue(star, rightHalf, rating))) == 0.0
  {
  }

  /** `k` half stars. */
  function HalfStep(k: int): real {
    k as real / 2.0
  }

  /** Every value a click on one of the five stars selects is a whole or half step in
      [0, 5], so it is a rating the table's CHECK accepts. */
  lemma ClickValueIsHalfStep(star: int, rightHalf: bool, rating: Option<real>)
    requires 1 <= star <= StarCount
    ensures var v := ClickValue(star, rightHalf, rating);
      0.0 <= v <= 5.0 && exists k: int :: 0 <= k <= 10 && v == HalfStep(k)
  {
    var v := ClickValue(star, rightHalf, rating);
    if v == 0.0 {
      assert v == HalfStep(0);
    } else if rightHalf {
      assert v == HalfStep(2 * star);
    } else {
      assert v == HalfStep(2 * star - 1);
    }
  }
}
