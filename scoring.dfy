/**
 * Scores and how the pages grade them. The server computes a score in
 * [0, 1] (a similarity ratio, or matched words over expected words); the
 * practice pages round it to a whole percentage and grade the percentage,
 * while the progress table grades the raw score. Scores are modelled as
 * exact fractions.
 */
module Scoring {

  /** The exact value num/den. */
  datatype Fraction = Fraction(num: nat, den: nat)

  /** A score: a fraction with a positive denominator. */
  type Score = f: Fraction | f.den > 0 witness Fraction(0, 1)

  /** The scores the server produces lie in [0, 1]. */
  predicate InUnitRange(s: Score) {
    s.num <= s.den
  }

  /** `Math.round(score * 100)` for a non-negative score: the whole number
      nearest to 100 * num / den, halves rounded up. */
  function RoundPercent(s: Score): (p: nat)
    ensures p * (2 * s.den) <= 200 * s.num + s.den < (p + 1) * (2 * s.den)
  {
    (200 * s.num + s.den) / (2 * s.den)
  }

  /** The grade of a rounded percentage: the CSS classes `score-good`,
      `score-medium` and `score-poor`. */
  datatype Band = Good | Medium | Poor

  /** `score >= 80 ? good : score >= 60 ? medium : poor`. */
  function BandOf(percent: int): (b: Band)
    ensures b == Good <==> percent >= 80
    ensures b == Medium <==> 60 <= percent < 80
    ensures b == Poor <==> percent < 60
  {
    if percent >= 80 then Good else if percent >= 60 then Medium else Poor
  }

  /** The grade of a raw score in the progress table: the Bootstrap badge
      classes `bg-success`, `bg-warning` and `bg-danger`. */
  datatype Badge = BgSuccess | BgWarning | BgDanger

  /** `score >= 0.8 ? success : score >= 0.6 ? warning : danger`, on the
      raw score. */
  function BadgeOf(s: Score): (b: Badge)
    ensures b == BgSuccess <==> 5 * s.num >= 4 * s.den
    ensures b == BgDanger <==> 5 * s.num < 3 * s.den
  {
    if 5 * s.num >= 4 * s.den then BgSuccess
    else if 5 * s.num >= 3 * s.den then BgWarning
    else BgDanger
  }

  /** The badge that names the same grade as a band. */
  function BadgeFor(b: Band): Badge {
    match b
    case Good => BgSuccess
    case Medium => BgWarning
    case Poor => BgDanger
  }

  /** How a percentage is shown on a practice page: a number, or `NaN`
      when the page rounds a score that is missing from the reply. */
  datatype PercentText = Percent(value: nat) | NaN

  /** The text and the class of a score display. */
  datatype ScoreView = ScoreView(text: PercentText, band: Band)

  /** The display of a score: its rounded percentage and that
      percentage's band. */
  function ViewOf(s: Score): (v: ScoreView)
    ensures v.text == Percent(RoundPercent(s)) && v.band == BandOf(RoundPercent(s))
  {
    ScoreView(Percent(RoundPercent(s)), BandOf(RoundPercent(s)))
  }

  /** The display of a missing score: every comparison with `NaN` is
      false, so the page falls through to `score-poor`. */
  const NaNView: ScoreView := ScoreView(NaN, Poor)

  /** The rung of a band, from 0 (poor) to 2 (good). */
  function Rank(b: Band): nat {
    match b
    case Poor => 0
    case Medium => 1
    case Good => 2
  }

  /** A higher percentage never gets a lower band. */
  lemma BandMonotone(p: int, q: int)
    requires p <= q
    ensures Rank(BandOf(p)) <= Rank(BandOf(q))
  {
  }

  /** The rounded percentage reaches `k` exactly when
      100 * num / den + 1/2 >= k. */
  lemma RoundPercentAtLeast(s: Score, k: nat)
    ensures RoundPercent(s) >= k <==> 200 * s.num + s.den >= k * (2 * s.den)
  {
    var p := RoundPercent(s);
    var d2 := 2 * s.den;
    if p >= k {
      assert p * d2 >= k * d2 by { MultiplyMonotone(k, p, d2); }
    } else {
      assert p + 1 <= k;
      assert (p + 1) * d2 <= k * d2 by { MultiplyMonotone(p + 1, k, d2); }
    }
  }

  lemma MultiplyMonotone(a: nat, b: nat, c: nat)
    requires a <= b
    ensures a * c <= b * c
  {
  }

  /** A score in [0, 1] shows as a percentage in [0, 100]; 0 shows as 0%
      and 1 as 100%. */
  lemma RoundPercentInRange(s: Score)
    requires InUnitRange(s)
    ensures RoundPercent(s) <= 100
    ensures s.num == 0 ==> RoundPercent(s) == 0
    ensures s.num == s.den ==> RoundPercent(s) == 100
  {
    RoundPercentAtLeast(s, 101);
    RoundPercentAtLeast(s, 1);
    RoundPercentAtLeast(s, 100);
  }

  /** The progress badge is never a better grade than the band the
      practice page shows for the same score; rounding can only lift a
      score over a threshold. */
  lemma BadgeNeverAboveBand(s: Score)
    ensures BadgeOf(s) == BgSuccess ==> BandOf(RoundPercent(s)) == Good
    ensures BandOf(RoundPercent(s)) == Poor ==> BadgeOf(s) == BgDanger
  {
    RoundPercentAtLeast(s, 80);
    RoundPercentAtLeast(s, 60);
  }

  /** The badge and the band agree exactly outside the two half-percent
      windows just under each threshold: [0.795, 0.8) and [0.595, 0.6). */
  lemma BadgeAgreesWithBand(s: Score)
    ensures BadgeOf(s) == BadgeFor(BandOf(RoundPercent(s))) <==>
              !(159 * s.den <= 200 * s.num < 160 * s.den) &&
              !(119 * s.den <= 200 * s.num < 120 * s.den)
  {
    RoundPercentAtLeast(s, 80);
    RoundPercentAtLeast(s, 60);
  }

  /** A similarity of 0.795 shows as 80% "good" on the practice page and
      as a "warning" badge in the progress table; 0.595 shows as 60%
      "medium" and as a "danger" badge. */
  lemma BadgeAndBandDisagree()
    ensures BandOf(RoundPercent(Fraction(159, 200))) == Good && BadgeOf(Fraction(159, 200)) == BgWarning
    ensures BandOf(RoundPercent(Fraction(119, 200))) == Medium && BadgeOf(Fraction(119, 200)) == BgDanger
  {
    assert RoundPercent(Fraction(159, 200)) == 80;
    assert RoundPercent(Fraction(119, 200)) == 60;
  }
}
