/**
 * Beta beliefs over the reals: construction, decay, discounting, and Dempster-Shafer fusion
 * with its conflict refusal and Murphy fallback.
 */
module Beliefs {
  import opened Common

  datatype Beta = Beta(alpha: real, beta: real)

  datatype Conflict = Conflict(mass: real, meanA: real, meanB: real)

  datatype Fusion = Fused(b: Beta) | Refused(c: Conflict)

  const EPS: real := 0.000001
  const CONFLICT_THRESHOLD: real := 0.8

  /** What every belief must satisfy for its mean and variance to make sense. */
  predicate Proper(b: Beta) { b.alpha > 0.0 && b.beta > 0.0 }

  /** At least as much evidence as the uniform prior. */
  predicate Informed(b: Beta) { Proper(b) && b.alpha + b.beta >= 2.0 }

  function Max(a: real, b: real): real { if a < b then b else a }

  function Clamp(x: real, lo: real, hi: real): real { if x < lo then lo else if x > hi then hi else x }

  function Uniform(): Beta { Beta(1.0, 1.0) }

  function FromConfidence(conf: real, strength: real): Beta {
    var c, s := Clamp(conf, EPS, 1.0 - EPS), Max(strength, 2.0);
    Beta(c * s, (1.0 - c) * s)
  }

  function Evidence(b: Beta): real { b.alpha + b.beta }

  function Mean(b: Beta): real
    requires Proper(b)
  {
    b.alpha / (b.alpha + b.beta)
  }

  function Variance(b: Beta): real
    requires Proper(b)
  {
    CubicPositive(Evidence(b));
    Ratio(b.alpha * b.beta, Cubic(Evidence(b)))
  }

  function Cubic(s: real): real { s * s * (s + 1.0) }

  function Ratio(p: real, d: real): real
    requires d > 0.0
  {
    p / d
  }

  lemma CubicPositive(s: real)
    requires s > 0.0
    ensures s * s > 0.0 && Cubic(s) > 0.0
  {
    Sign(s, s);
    Sign(s * s, s + 1.0);
  }

  function Decayed(b: Beta, factor: real): Beta {
    var f := Clamp(factor, 0.0, 1.0);
    Beta(b.alpha * (1.0 - f) + 1.0 * f, b.beta * (1.0 - f) + 1.0 * f)
  }

  function Discounted(b: Beta, reliability: real): Beta {
    var r := Clamp(reliability, 0.0, 1.0);
    Beta(1.0 + (b.alpha - 1.0) * r, 1.0 + (b.beta - 1.0) * r)
  }

  function ConflictMass(a: Beta, b: Beta): real
    requires Proper(a) && Proper(b)
  {
    var t1, t2 := a.alpha + a.beta, b.alpha + b.beta;
    (a.alpha / t1) * (b.beta / t2) + (a.beta / t1) * (b.alpha / t2)
  }

  function CombineDs(a: Beta, b: Beta): Fusion
    requires Proper(a) && Proper(b)
  {
    if ConflictMass(a, b) > CONFLICT_THRESHOLD then Refused(Conflict(ConflictMass(a, b), Mean(a), Mean(b)))
    else Fused(Beta(Max(a.alpha + b.alpha - 1.0, EPS), Max(a.beta + b.beta - 1.0, EPS)))
  }

  function MurphyAverage(a: Beta, b: Beta): Beta
    requires Proper(a) && Proper(b)
  {
    var t1, t2 := Evidence(a), Evidence(b);
    var yes, no := 0.5 * (a.alpha / t1 + b.alpha / t2), 0.5 * (a.beta / t1 + b.beta / t2);
    var t := 0.5 * (t1 + t2);
    Beta(Max(yes * t, EPS), Max(no * t, EPS))
  }

  /** Never refuses: falls back to the average, and then also reports the conflict. */
  function CombineAware(a: Beta, b: Beta, reliability: real): (Beta, Option<Conflict>)
    requires Proper(a) && Proper(Discounted(b, reliability))
  {
    var d := Discounted(b, reliability);
    match CombineDs(a, d)
    case Fused(c) => (c, None)
    case Refused(k) => (MurphyAverage(a, d), Some(k))
  }

  class Tracker {
    var b: Beta

    constructor (b: Beta)
      ensures this.b == b
    {
      this.b := b;
    }

    /** One success more: the mean goes up, and proper beliefs stay proper. */
    method Reinforce()
      requires Proper(b)
      modifies this
      ensures Proper(b) && b == old(b).(alpha := old(b).alpha + 1.0) && Mean(b) > Mean(old(b))
    {
      MeanGrows(b.alpha, b.beta, 1.0);
      b := b.(alpha := b.alpha + 1.0);
    }

    /** One failure more: the mean goes down. */
    method Penalize()
      requires Proper(b)
      modifies this
      ensures Proper(b) && b == old(b).(beta := old(b).beta + 1.0) && Mean(b) < Mean(old(b))
    {
      QuotientLess(b.alpha, b.alpha + b.beta, b.alpha + b.beta + 1.0);
      b := b.(beta := b.beta + 1.0);
    }
  }

  // ---------- mean and variance ----------

  lemma Shares(a: real, b: real)
    requires a > 0.0 && b > 0.0
    ensures 0.0 < a / (a + b) < 1.0 && b / (a + b) == 1.0 - a / (a + b)
    ensures a / (a + b) * (a + b) == a
  {
    var s := a + b;
    Times(a, s);
    Divides(b, s, 1.0 - a / s);
    Below(0.0, a / s, s);
    Below(a / s, 1.0, s);
  }

  /** More successes out of as many failures is a larger share. */
  lemma MeanGrows(a: real, b: real, d: real)
    requires a > 0.0 && b > 0.0 && d > 0.0
    ensures (a + d) / (a + d + b) > a / (a + b)
  {
    QuotientLess(b, a + b, a + d + b);
    Shares(a, b);
    Shares(a + d, b);
  }

  predicate Spreads(v: real, m: real, t: real) { v * t == m * (1.0 - m) }

  predicate Wider(n: real, m: real) { n * (1.0 - n) >= m * (1.0 - m) }

  /** The variance, without its division: `p` is the product of the parameters and `s` their sum. */
  predicate VarianceIs(v: real, p: real, s: real) { v * Cubic(s) == p }

  lemma RatioIs(p: real, s: real)
    requires Cubic(s) > 0.0
    ensures VarianceIs(Ratio(p, Cubic(s)), p, s)
  {
    Times(p, Cubic(s));
  }

  lemma VarianceTimes(b: Beta)
    requires Proper(b)
    ensures VarianceIs(Variance(b), b.alpha * b.beta, Evidence(b))
  {
    CubicPositive(Evidence(b));
    RatioIs(b.alpha * b.beta, Evidence(b));
  }

  /** The variance is the spread of the mean over one more than the evidence. */
  lemma VarianceBySpread(b: Beta)
    requires Proper(b)
    ensures 0.0 < Mean(b) < 1.0 && Spreads(Variance(b), Mean(b), Evidence(b) + 1.0)
  {
    Shares(b.alpha, b.beta);
    VarianceTimes(b);
    SpreadCancels(Variance(b), Mean(b), Evidence(b), b.alpha, b.beta, b.alpha * b.beta);
  }

  lemma SpreadCancels(v: real, m: real, s: real, a: real, b: real, p: real)
    requires s > 0.0 && m * s == a && a + b == s && p == a * b && VarianceIs(v, p, s)
    ensures Spreads(v, m, s + 1.0)
  {
    Sign(s, s);
    assert b == (1.0 - m) * s;
    assert a * b == (m * (1.0 - m)) * (s * s) by { Regroup(m, s, 1.0 - m); }
    assert v * Cubic(s) == (v * (s + 1.0)) * (s * s) by { Regroup3(v, s * s, s + 1.0); }
    Same(v * (s + 1.0), m * (1.0 - m), s * s);
  }

  lemma SpreadAtMost(m: real)
    ensures m * (1.0 - m) <= 0.25
  {
    assert (m - 0.5) * (m - 0.5) >= 0.0;
  }

  /** A proper belief has its mean strictly between 0 and 1 and its variance below 1/4; an informed one at most 1/12. */
  lemma MeanAndVariance(b: Beta)
    requires Proper(b)
    ensures 0.0 < Mean(b) < 1.0 && 0.0 < Variance(b) < 0.25
    ensures Informed(b) ==> 12.0 * Variance(b) <= 1.0
  {
    VarianceBySpread(b);
    SpreadBounds(Variance(b), Mean(b), Evidence(b) + 1.0);
  }

  lemma SpreadBounds(v: real, m: real, t: real)
    requires 0.0 < m < 1.0 && t > 1.0 && Spreads(v, m, t)
    ensures 0.0 < v < 0.25 && (t >= 3.0 ==> 12.0 * v <= 1.0)
  {
    SpreadAtMost(m);
    Sign(m, 1.0 - m);
    var p := v * t;
    Below(0.0, v, t);
    Below(v, 0.25, t);
    if t >= 3.0 { Scale(3.0, t, v); }
  }

  // ---------- conflict ----------

  lemma ExtremesOnly(m: real, n: real)
    requires 0.0 < m < 1.0 && 0.0 < n < 1.0 && m * (1.0 - n) + (1.0 - m) * n > 0.8
    ensures (m > 0.8 && n < 0.2) || (n > 0.8 && m < 0.2)
  {
    var c := m * (1.0 - n) + (1.0 - m) * n;
    if m <= 0.5 && n <= 0.5 { Sign(0.5 - m, 0.5 - n); }
    if m >= 0.5 && n >= 0.5 { Sign(m - 0.5, n - 0.5); }
    assert c == 0.5 - 2.0 * ((0.5 - m) * (0.5 - n));
    if m > 0.5 && n < 0.5 { Opposites(m, n); }
    if n > 0.5 && m < 0.5 { Opposites(n, m); }
  }

  lemma Opposites(m: real, n: real)
    requires 0.5 < m < 1.0 && 0.0 < n < 0.5 && m * (1.0 - n) + (1.0 - m) * n > 0.8
    ensures m > 0.8 && n < 0.2
  {
    Sign(n, 2.0 * m - 1.0);
    Sign(1.0 - m, 1.0 - 2.0 * n);
    assert m * (1.0 - n) + (1.0 - m) * n == m - n * (2.0 * m - 1.0) == 1.0 - n - (1.0 - m) * (1.0 - 2.0 * n);
  }

  lemma MassByMeans(a: Beta, b: Beta)
    requires Proper(a) && Proper(b)
    ensures 0.0 < Mean(a) < 1.0 && 0.0 < Mean(b) < 1.0
    ensures ConflictMass(a, b) == Mean(a) * (1.0 - Mean(b)) + (1.0 - Mean(a)) * Mean(b)
  {
    Shares(a.alpha, a.beta);
    Shares(b.alpha, b.beta);
  }

  /** Fusion refuses only when one source is strongly for and the other strongly against. */
  lemma RefusesOnlyOpposites(a: Beta, b: Beta)
    requires Proper(a) && Proper(b) && CombineDs(a, b).Refused?
    ensures (Mean(a) > 0.8 && Mean(b) < 0.2) || (Mean(b) > 0.8 && Mean(a) < 0.2)
  {
    MassByMeans(a, b);
    ExtremesOnly(Mean(a), Mean(b));
  }

  /** And it always refuses once one mean is at least 0.9 and the other at most 0.1. */
  lemma RefusesClearOpposites(a: Beta, b: Beta)
    requires Proper(a) && Proper(b) && Mean(a) >= 0.9 && Mean(b) <= 0.1
    ensures CombineDs(a, b).Refused? && CombineDs(b, a).Refused?
  {
    MassByMeans(a, b);
    MassByMeans(b, a);
    ClearlyOpposed(Mean(a), Mean(b));
  }

  lemma ClearlyOpposed(m: real, n: real)
    requires 0.9 <= m <= 1.0 && 0.0 <= n <= 0.1
    ensures m * (1.0 - n) + (1.0 - m) * n > 0.8
  {
    Scale(0.9, m, 1.0 - n);
    Sign(1.0 - m, n);
  }

  /** The uniform belief is the identity of fusion, on both sides, exactly for parameters of at least 1e-6. */
  lemma UniformIsIdentity(b: Beta)
    requires Proper(b)
    ensures CombineDs(b, Uniform()) == Fused(b) <==> b.alpha >= EPS && b.beta >= EPS
    ensures CombineDs(Uniform(), b) == CombineDs(b, Uniform())
  {
    MassByMeans(b, Uniform());
    MassByMeans(Uniform(), b);
    assert Mean(Uniform()) == 0.5;
  }

  /** Fusion does not depend on the order of the sources. */
  lemma FusionCommutes(a: Beta, b: Beta)
    requires Proper(a) && Proper(b)
    ensures CombineDs(a, b).Fused? <==> CombineDs(b, a).Fused?
    ensures CombineDs(a, b).Fused? ==> CombineDs(a, b) == CombineDs(b, a)
    ensures MurphyAverage(a, b) == MurphyAverage(b, a)
  {
    MassByMeans(a, b);
    MassByMeans(b, a);
  }

  // ---------- what every operation keeps ----------

  lemma FromConfidenceInformed(conf: real, strength: real)
    ensures Informed(FromConfidence(conf, strength)) && Evidence(FromConfidence(conf, strength)) == Max(strength, 2.0)
    ensures Mean(FromConfidence(conf, strength)) == Clamp(conf, EPS, 1.0 - EPS)
  {
    var c, s := Clamp(conf, EPS, 1.0 - EPS), Max(strength, 2.0);
    Sign(c, s);
    Sign(1.0 - c, s);
    assert c * s + (1.0 - c) * s == s;
    Divides(c * s, s, c);
  }

  lemma DiscountKeeps(b: Beta, r: real)
    requires Proper(b)
    ensures Proper(Discounted(b, r)) && (Informed(b) ==> Informed(Discounted(b, r)))
    ensures r == 1.0 ==> Discounted(b, r) == b
  {
    var q := Clamp(r, 0.0, 1.0);
    DiscountPositive(b.alpha, q);
    DiscountPositive(b.beta, q);
    if Informed(b) { DiscountSum(b.alpha, b.beta, q); }
  }

  /** Between a positive parameter and 1. */
  lemma DiscountPositive(x: real, q: real)
    requires x > 0.0 && 0.0 <= q <= 1.0
    ensures 1.0 + (x - 1.0) * q > 0.0
  {
    Sign(x, q);
    assert 1.0 + (x - 1.0) * q == (1.0 - q) + x * q;
  }

  lemma DiscountSum(x: real, y: real, q: real)
    requires x + y >= 2.0 && 0.0 <= q <= 1.0
    ensures (1.0 + (x - 1.0) * q) + (1.0 + (y - 1.0) * q) >= 2.0
  {
    var z := x + y - 2.0;
    Sign(z, q);
    assert (x - 1.0) * q + (y - 1.0) * q == z * q;
  }

  lemma FusionKeeps(a: Beta, b: Beta)
    requires Proper(a) && Proper(b)
    ensures CombineDs(a, b).Fused? ==> Proper(CombineDs(a, b).b) && Evidence(CombineDs(a, b).b) >= Evidence(a) + Evidence(b) - 2.0
    ensures Proper(MurphyAverage(a, b)) && Evidence(MurphyAverage(a, b)) >= 0.5 * (Evidence(a) + Evidence(b))
  {
    Shares(a.alpha, a.beta);
    Shares(b.alpha, b.beta);
    var yes, no := 0.5 * (a.alpha / Evidence(a) + b.alpha / Evidence(b)), 0.5 * (a.beta / Evidence(a) + b.beta / Evidence(b));
    assert no == 1.0 - yes;
    Split(yes, 0.5 * (Evidence(a) + Evidence(b)));
  }

  lemma Split(p: real, t: real)
    ensures p * t + (1.0 - p) * t == t
  {
  }

  /** Two informed sources fuse, aware of conflict, to an informed belief. */
  lemma AwareFusionKeeps(a: Beta, b: Beta, r: real)
    requires Informed(a) && Informed(b)
    ensures Proper(Discounted(b, r)) && Informed(CombineAware(a, b, r).0)
  {
    DiscountKeeps(b, r);
    FusionKeeps(a, Discounted(b, r));
  }

  lemma MassIsMean(b: Beta)
    requires Proper(b)
    ensures 0.0 < b.alpha / Evidence(b) < 1.0 && b.beta / Evidence(b) == 1.0 - b.alpha / Evidence(b)
  {
    Shares(b.alpha, b.beta);
  }

  /** Where the floor does not bite, the average has the average mean and the average evidence of its sources. */
  lemma MurphyIsTheAverage(a: Beta, b: Beta)
    requires Proper(a) && Proper(b) && MurphyAverage(a, b).alpha > EPS && MurphyAverage(a, b).beta > EPS
    ensures Mean(MurphyAverage(a, b)) == 0.5 * (Mean(a) + Mean(b))
    ensures Evidence(MurphyAverage(a, b)) == 0.5 * (Evidence(a) + Evidence(b))
  {
    MassIsMean(a);
    MassIsMean(b);
    AverageOf(Mean(a), a.beta / Evidence(a), Mean(b), b.beta / Evidence(b), 0.5 * (Evidence(a) + Evidence(b)));
  }

  lemma AverageOf(p: real, p': real, q: real, q': real, t: real)
    requires t > 0.0 && p' == 1.0 - p && q' == 1.0 - q
    ensures var yes, no := 0.5 * (p + q) * t, 0.5 * (p' + q') * t;
      yes + no == t && yes / (yes + no) == 0.5 * (p + q)
  {
    var yes := 0.5 * (p + q);
    Split(yes, t);
    Divides(yes * t, t, yes);
  }

  /** A source of reliability 0 changes nothing, whatever it claims. */
  lemma UntrustedHasNoInfluence(a: Beta, b: Beta)
    requires a.alpha >= EPS && a.beta >= EPS
    ensures Discounted(b, 0.0) == Uniform() && CombineAware(a, b, 0.0) == (a, None)
  {
    UniformIsIdentity(a);
  }

  lemma DecayKeeps(b: Beta, f: real)
    requires Proper(b)
    ensures Proper(Decayed(b, f)) && (Informed(b) ==> Informed(Decayed(b, f)) && Evidence(Decayed(b, f)) <= Evidence(b))
  {
    var g := Clamp(f, 0.0, 1.0);
    Sign(b.alpha, 1.0 - g);
    Sign(b.beta, 1.0 - g);
    var s := Evidence(b);
    assert b.alpha * (1.0 - g) + b.beta * (1.0 - g) == s * (1.0 - g);
    if Informed(b) {
      Sign(s - 2.0, g);
      Sign(s - 2.0, 1.0 - g);
    }
  }

  // ---------- decay ----------

  /** A mean pulled towards one half by a share k spreads out. */
  lemma SpreadGrows(m: real, n: real, k: real)
    requires 0.0 <= k <= 1.0 && n - 0.5 == k * (m - 0.5)
    ensures Wider(n, m)
  {
    var d := m - 0.5;
    var e := k * d;
    assert n * (1.0 - n) == 0.25 - e * e;
    assert m * (1.0 - m) == 0.25 - d * d;
    Regroup(k, d, k);
    Scale(k, 1.0, k);
    Scale(k * k, 1.0, d * d);
  }

  /** Decay moves the mean towards one half by the share of evidence that is kept. */
  lemma DecayedMean(b: Beta, f: real) returns (k: real)
    requires Proper(b)
    ensures Proper(Decayed(b, f)) && 0.0 <= k <= 1.0
    ensures k * Evidence(Decayed(b, f)) == (1.0 - Clamp(f, 0.0, 1.0)) * Evidence(b)
    ensures Mean(Decayed(b, f)) - 0.5 == k * (Mean(b) - 0.5)
  {
    DecayKeeps(b, f);
    var g, d := Clamp(f, 0.0, 1.0), Decayed(b, f);
    Shares(b.alpha, b.beta);
    Shares(d.alpha, d.beta);
    k := PulledMean(Mean(b), Evidence(b), Mean(d), Evidence(d), g);
  }

  lemma PulledMean(m: real, s: real, n: real, t: real, g: real) returns (k: real)
    requires s > 0.0 && t > 0.0 && 0.0 <= g <= 1.0
    requires n * t == (m * s) * (1.0 - g) + 1.0 * g && t == s * (1.0 - g) + 2.0 * g
    ensures 0.0 <= k <= 1.0 && k * t == (1.0 - g) * s && n - 0.5 == k * (m - 0.5)
  {
    var kept := (1.0 - g) * s;
    k := kept / t;
    Times(kept, t);
    Sign(1.0 - g, s);
    Within(k, t, kept);
    assert (m * s) * (1.0 - g) == kept * m;
    assert (n - 0.5) * t == kept * (m - 0.5);
    Regroup3(k, m - 0.5, t);
    Same(n - 0.5, k * (m - 0.5), t);
  }

  lemma Within(k: real, t: real, x: real)
    requires t > 0.0 && 0.0 <= x <= t && k * t == x
    ensures 0.0 <= k <= 1.0
  {
    if k < 0.0 { Scale(k, 0.0, t); Below(k, 0.0, t); }
    if k > 1.0 { Sign(k - 1.0, t); }
  }

  lemma DecaySpreads(b: Beta, f: real)
    requires Informed(b)
    ensures Proper(Decayed(b, f)) && Evidence(Decayed(b, f)) <= Evidence(b)
    ensures Wider(Mean(Decayed(b, f)), Mean(b))
  {
    DecayKeeps(b, f);
    var k := DecayedMean(b, f);
    SpreadGrows(Mean(b), Mean(Decayed(b, f)), k);
  }

  /** A belief with at least the evidence of the uniform prior never becomes more certain by ageing. */
  lemma DecayNeverLowersVariance(b: Beta, f: real)
    requires Informed(b)
    ensures Proper(Decayed(b, f)) && Variance(Decayed(b, f)) >= Variance(b)
  {
    DecaySpreads(b, f);
    LessEvidenceMoreSpread(b, Decayed(b, f));
  }

  lemma LessEvidenceMoreSpread(b: Beta, d: Beta)
    requires Proper(b) && Proper(d) && Evidence(d) <= Evidence(b)
    requires Wider(Mean(d), Mean(b))
    ensures Variance(d) >= Variance(b)
  {
    VarianceBySpread(b);
    VarianceBySpread(d);
    Overtakes(Variance(b), Variance(d), Mean(b), Mean(d), Evidence(b) + 1.0, Evidence(d) + 1.0);
  }

  lemma Overtakes(v: real, w: real, m: real, n: real, s: real, t: real)
    requires 1.0 < t <= s && 0.0 < n < 1.0 && Wider(n, m) && Spreads(v, m, s) && Spreads(w, n, t)
    ensures v <= w
  {
    SpreadBounds(w, n, t);
    Scale(t, s, w);
    Below(w, v, s);
  }

  /** Ageing a belief with this much evidence, by any factor, never makes it more certain. */
  ghost predicate AgesSafely(evidence: real) {
    forall b, f {:trigger Decayed(b, f)} ::
      Proper(b) && Evidence(b) == evidence ==> Proper(Decayed(b, f)) && Variance(Decayed(b, f)) >= Variance(b)
  }

  /** Two units of evidence are exactly what ageing needs: below that, the balanced belief grows more certain. */
  lemma AgesSafelyIff(evidence: real)
    requires evidence > 0.0
    ensures AgesSafely(evidence) <==> evidence >= 2.0
  {
    if evidence >= 2.0 {
      forall b, f {:trigger Decayed(b, f)} | Proper(b) && Evidence(b) == evidence
        ensures Proper(Decayed(b, f)) && Variance(Decayed(b, f)) >= Variance(b)
      {
        DecayNeverLowersVariance(b, f);
      }
    } else {
      BalancedSharpens(evidence);
    }
  }

  lemma BalancedSharpens(s: real)
    requires 0.0 < s < 2.0
    ensures var b := Beta(0.5 * s, 0.5 * s);
      Proper(b) && Evidence(b) == s && Proper(Decayed(b, 1.0)) && Variance(Decayed(b, 1.0)) < Variance(b)
  {
    var b := Beta(0.5 * s, 0.5 * s);
    assert Decayed(b, 1.0) == Uniform();
    VarianceBySpread(b);
    VarianceBySpread(Uniform());
    Divides(0.5 * s, s, 0.5);
    var v, w := Variance(b), Variance(Uniform());
    assert v * (s + 1.0) == 0.25 && w * 3.0 == 0.25;
    Below(0.0, w, 3.0);
    Sign(w, 2.0 - s);
    assert w * (s + 1.0) == w * 3.0 - w * (2.0 - s);
    Below(w, v, s + 1.0);
  }

  // ---------- arithmetic ----------

  lemma Sign(x: real, y: real)
    requires x >= 0.0 && y >= 0.0
    ensures x * y >= 0.0 && (x > 0.0 && y > 0.0 ==> x * y > 0.0)
  {
  }

  lemma Scale(x: real, y: real, z: real)
    requires x <= y && z >= 0.0
    ensures x * z <= y * z && z * x <= z * y
  {
    Sign(y - x, z);
    assert (y - x) * z == y * z - x * z;
  }

  /** Products by a positive number are ordered as their factors. */
  lemma Below(x: real, y: real, z: real)
    requires z > 0.0
    ensures x < y <==> x * z < y * z
  {
    if x < y { Sign(y - x, z); } else { Sign(x - y, z); }
    assert (y - x) * z == y * z - x * z;
    assert (x - y) * z == x * z - y * z;
  }

  lemma Same(x: real, y: real, z: real)
    requires z > 0.0 && x * z == y * z
    ensures x == y
  {
    Below(x, y, z);
    Below(y, x, z);
  }

  lemma Times(x: real, s: real)
    requires s != 0.0
    ensures x / s * s == x
  {
  }

  lemma Divides(x: real, s: real, q: real)
    requires s > 0.0 && q * s == x
    ensures x / s == q
  {
    Times(x, s);
    Same(x / s, q, s);
  }

  lemma QuotientLess(x: real, s: real, t: real)
    requires x > 0.0 && 0.0 < s < t
    ensures x / t < x / s
  {
    Times(x, t);
    Times(x, s);
    Below(0.0, x / t, t);
    Sign(x / t, t - s);
    assert x / t * t == x / t * s + x / t * (t - s);
    Below(x / t, x / s, s);
  }

  lemma Regroup(m: real, s: real, n: real)
    ensures (m * s) * (n * s) == (m * n) * (s * s)
  {
  }

  lemma Regroup3(v: real, u: real, w: real)
    ensures v * (u * w) == (v * w) * u
  {
  }
}
