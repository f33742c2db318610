/**
 Shannon entropy of a list of samples, independent of the order in which the distinct values are
 visited, and Gibbs' inequality for it.  The logarithm is a parameter with its laws as hypotheses.
 */
module Entropy {
  import opened Arith

  function Distinct<B>(w: seq<B>): set<B> {
    set b | b in w
  }

  function Count<B(==)>(w: seq<B>, b: B): nat {
    multiset(w)[b]
  }

  // ---- sums over samples, grouped by value ----

  /** The sum of f over those samples whose value is among the keys. */
  function SumOver<B>(w: seq<B>, keys: set<B>, f: map<B, real>): real
    requires keys <= f.Keys
  {
    if w == [] then 0.0
    else (if w[0] in keys then f[w[0]] else 0.0) + SumOver(w[1..], keys, f)
  }

  lemma {:induction false} CountCons<B>(w: seq<B>, b: B)
    requires w != []
    ensures Count(w, b) == Count(w[1..], b) + if w[0] == b then 1 else 0
  {
    assert w == [w[0]] + w[1..];
  }

  /** A further key contributes its value as often as it occurs. */
  lemma {:induction false} SumOverAddKey<B>(w: seq<B>, keys: set<B>, b: B, f: map<B, real>)
    requires keys + {b} <= f.Keys && b !in keys
    ensures SumOver(w, keys + {b}, f) == SumOver(w, keys, f) + Times(Count(w, b) as real, f[b])
  {
    TimesDistributes(0.0, 0.0, f[b]);
    hide Times;
    if w != [] {
      SumOverAddKey(w[1..], keys, b, f);
      CountCons(w, b);
      TimesDistributes(Count(w[1..], b) as real, 1.0, f[b]);
    }
  }

  lemma {:induction false} SumOverNoKeys<B>(w: seq<B>, f: map<B, real>)
    ensures SumOver(w, {}, f) == 0.0
  {
    if w != [] {
      SumOverNoKeys(w[1..], f);
    }
  }

  /** If every key contributes the same amount v in total, the sum is v for each key. */
  lemma {:induction false} SumOfEqualShares<B>(w: seq<B>, keys: set<B>, f: map<B, real>, v: real)
    requires keys <= f.Keys && forall b | b in keys :: Times(Count(w, b) as real, f[b]) == v
    ensures SumOver(w, keys, f) == Times(|keys| as real, v)
  {
    TimesDistributes(0.0, 0.0, v);
    hide Times;
    if keys == {} {
      SumOverNoKeys(w, f);
    } else {
      var b :| b in keys;
      var rest := keys - {b};
      SumOfEqualShares(w, rest, f, v);
      SumOverAddKey(w, rest, b, f);
      assert rest + {b} == keys;
      TimesDistributes(|rest| as real, 1.0, v);
    }
  }

  /** Only how often each value occurs matters, not the order of the samples. */
  lemma {:induction false} SumOverIgnoresOrder<B>(w: seq<B>, w': seq<B>, keys: set<B>, f: map<B, real>)
    requires keys <= f.Keys && multiset(w) == multiset(w')
    ensures SumOver(w, keys, f) == SumOver(w', keys, f)
  {
    if keys == {} {
      SumOverNoKeys(w, f);
      SumOverNoKeys(w', f);
    } else {
      var b :| b in keys;
      var rest := keys - {b};
      SumOverIgnoresOrder(w, w', rest, f);
      SumOverAddKey(w, rest, b, f);
      SumOverAddKey(w', rest, b, f);
      assert rest + {b} == keys;
    }
  }

  /** f is k g + d throughout, so its sum is k times the sum of g, plus d for each sample. */
  lemma {:induction false} SumOverLinear<B>(w: seq<B>, keys: set<B>, f: map<B, real>, g: map<B, real>, k: real, d: real)
    requires keys <= f.Keys && keys <= g.Keys && forall b | b in w :: b in keys
    requires forall b | b in keys :: f[b] == Times(k, g[b]) + d
    ensures SumOver(w, keys, f) == Times(k, SumOver(w, keys, g)) + Times(|w| as real, d)
  {
    TimesDistributes(0.0, 0.0, k);
    TimesDistributes(0.0, 0.0, d);
    hide Times;
    if w != [] {
      SumOverLinear(w[1..], keys, f, g, k, d);
      TimesDistributes(|w[1..]| as real, 1.0, d);
      TimesDistributes(g[w[0]], SumOver(w[1..], keys, g), k);
      TimesDistributes(g[w[0]] + SumOver(w[1..], keys, g), 0.0, k);
      TimesDistributes(SumOver(w[1..], keys, g), 0.0, k);
    }
  }

  /** Termwise order carries over to sums; one strict term makes it strict. */
  lemma {:induction false} SumOverMonotone<B>(w: seq<B>, keys: set<B>, f: map<B, real>, g: map<B, real>)
    requires keys <= f.Keys && keys <= g.Keys
    requires forall b | b in keys :: f[b] <= g[b]
    ensures SumOver(w, keys, f) <= SumOver(w, keys, g)
    ensures (exists b | b in keys :: b in w && f[b] < g[b]) ==> SumOver(w, keys, f) < SumOver(w, keys, g)
  {
    if w != [] {
      SumOverMonotone(w[1..], keys, f, g);
      if b :| b in keys && b in w && f[b] < g[b] {
        assert b == w[0] || b in w[1..];
      }
    }
  }

  // ---- entropy ----

  /**
   What is used of the base-2 logarithm: it turns products into sums and lies below its tangent
   at 1, touching it only there.  The slope is log2(e).
   */
  ghost predicate LogLaws(log: real -> real, slope: real) {
    && slope > 0.0
    && (forall x: real, y: real :: ProductLaw(log, x, y))
    && (forall x: real :: TangentLaw(log, slope, x))
  }

  predicate ProductLaw(log: real -> real, x: real, y: real) {
    x > 0.0 && y > 0.0 ==> log(Times(x, y)) == log(x) + log(y)
  }

  predicate TangentLaw(log: real -> real, slope: real, x: real) {
    x > 0.0 && x != 1.0 ==> log(x) < Times(slope, x - 1.0)
  }

  lemma LogOfOne(log: real -> real, slope: real)
    requires LogLaws(log, slope)
    ensures log(1.0) == 0.0
  {
    assert ProductLaw(log, 1.0, 1.0);
    TimesDistributes(1.0, 0.0, 1.0);
  }

  /** log x + log y = 0 for reciprocal numbers. */
  lemma LogOfReciprocals(log: real -> real, slope: real, x: real, y: real)
    requires LogLaws(log, slope) && x > 0.0 && y > 0.0 && Times(x, y) == 1.0
    ensures log(x) + log(y) == 0.0
  {
    LogOfOne(log, slope);
    assert ProductLaw(log, x, y);
    hide Times, LogLaws;
  }

  /** The logarithm of a number below 1 is negative. */
  lemma LogBelowOne(log: real -> real, slope: real, x: real)
    requires LogLaws(log, slope) && 0.0 < x < 1.0
    ensures log(x) < 0.0
  {
    assert TangentLaw(log, slope, x);
    BelowZero(slope, 1.0 - x);
    assert x - 1.0 == -(1.0 - x);
  }

  lemma BelowZero(a: real, b: real)
    requires a > 0.0 && b > 0.0
    ensures Times(a, b) > 0.0 && Times(a, -b) == -Times(a, b)
  {
  }

  function Frequency<B(==)>(w: seq<B>, b: B): real
    requires w != []
  {
    (Count(w, b) as real) / (|w| as real)
  }

  /** The share of one sample of value b in the entropy: -log p(b) / n. */
  function Surprise<B(==)>(log: real -> real, w: seq<B>, b: B): real
    requires w != []
  {
    -Times(1.0 / (|w| as real), log(Frequency(w, b)))
  }

  function Surprises<B(==)>(log: real -> real, w: seq<B>): (f: map<B, real>)
    requires w != []
    ensures f.Keys == Distinct(w)
  {
    map b | b in Distinct(w) :: Surprise(log, w, b)
  }

  /** Mean surprise of the samples. */
  function EntropyOf<B(==)>(log: real -> real, w: seq<B>): real {
    if w == [] then 0.0 else SumOver(w, Distinct(w), Surprises(log, w))
  }

  lemma EntropyIgnoresOrder<B>(log: real -> real, w: seq<B>, w': seq<B>)
    requires multiset(w) == multiset(w')
    ensures EntropyOf(log, w) == EntropyOf(log, w')
    ensures Distinct(w) == Distinct(w')
  {
    assert |w| == |multiset(w)| == |multiset(w')| == |w'|;
    assert forall b :: b in w <==> b in multiset(w);
    assert forall b :: b in w' <==> b in multiset(w');
    if w != [] {
      assert Surprises(log, w) == Surprises(log, w');
      SumOverIgnoresOrder(w, w', Distinct(w), Surprises(log, w));
    }
  }

  /** The textbook form: a value contributes -p log p. */
  lemma ValueContribution<B>(log: real -> real, w: seq<B>, b: B)
    requires w != []
    ensures Times(Count(w, b) as real, Surprise(log, w, b)) == -Times(Frequency(w, b), log(Frequency(w, b)))
  {
    var n, p := |w| as real, Count(w, b) as real;
    QuotientIsProduct(p, n);
    var l := log(Frequency(w, b));
    assert Frequency(w, b) == Times(p, 1.0 / n);
    NegatedProduct(p, Times(1.0 / n, l));
    TimesAssociates(p, 1.0 / n, l);
  }

  lemma NegatedProduct(a: real, b: real)
    ensures Times(a, -b) == -Times(a, b)
  {
  }

  lemma FrequencyInRange<B>(w: seq<B>, b: B)
    requires b in w
    ensures 0.0 < Frequency(w, b) <= 1.0
    ensures Frequency(w, b) == 1.0 <==> Count(w, b) == |w|
  {
    var n := |w| as real;
    assert 1 <= Count(w, b) <= |multiset(w)|;
    QuotientsOrdered(Count(w, b) as real, n, n);
    assert n / n == 1.0;
    assert Frequency(w, b) == 1.0 ==> Count(w, b) as real == n;
  }

  lemma SurpriseSign<B>(log: real -> real, slope: real, w: seq<B>, b: B)
    requires LogLaws(log, slope) && b in w
    ensures Surprise(log, w, b) >= 0.0
    ensures Surprise(log, w, b) > 0.0 <==> Count(w, b) < |w|
  {
    var n, p := |w| as real, Frequency(w, b);
    FrequencyInRange(w, b);
    assert Count(w, b) <= |multiset(w)|;
    QuotientsOrdered(1.0, 1.0, n);
    if p < 1.0 {
      LogBelowOne(log, slope, p);
      hide Frequency, LogLaws;
      BelowZero(1.0 / n, -log(p));
      assert log(p) == -(-log(p));
    } else {
      LogOfOne(log, slope);
      TimesDistributes(0.0, 0.0, 1.0 / n);
    }
  }

  /** Entropy is never negative, and zero exactly if at most one value occurs. */
  lemma EntropyZeroIff<B>(log: real -> real, slope: real, w: seq<B>)
    requires LogLaws(log, slope)
    ensures EntropyOf(log, w) >= 0.0
    ensures EntropyOf(log, w) == 0.0 <==> |Distinct(w)| <= 1
  {
    if w == [] {
      assert Distinct(w) == {};
    } else {
      var keys, f := Distinct(w), Surprises(log, w);
      var zero := map b | b in keys :: 0.0;
      forall b | b in keys ensures zero[b] <= f[b] && (zero[b] < f[b] <==> Count(w, b) < |w|) {
        SurpriseSign(log, slope, w, b);
      }
      SumOverMonotone(w, keys, zero, f);
      SumOverLinear(w, keys, zero, zero, 0.0, 0.0);
      assert SumOver(w, keys, zero) == 0.0;
      if |keys| == 1 {
        OneValue(w);
        SumOverMonotone(w, keys, f, zero);
      } else {
        Distinctness(w);
        TwoValues(w);
        assert zero[w[0]] < f[w[0]];
      }
    }
  }

  lemma {:induction false} OneValue<B>(w: seq<B>)
    requires w != [] && |Distinct(w)| == 1
    ensures forall b | b in w :: Count(w, b) == |w|
  {
    var b := w[0];
    assert Distinct(w) == (Distinct(w) - {b}) + {b};
    assert |Distinct(w) - {b}| == 0;
    assert forall i | 0 <= i < |w| :: w[i] in Distinct(w);
    AllEqual(w, b);
  }

  lemma {:induction false} AllEqual<B>(w: seq<B>, b: B)
    requires forall i | 0 <= i < |w| :: w[i] == b
    ensures Count(w, b) == |w|
  {
    if w != [] {
      AllEqual(w[1..], b);
      CountCons(w, b);
    }
  }

  lemma TwoValues<B>(w: seq<B>)
    requires w != [] && |Distinct(w)| != 1
    ensures Count(w, w[0]) < |w|
  {
    var others := Distinct(w) - {w[0]};
    assert Distinct(w) == others + {w[0]};
    assert others != {};
    var c :| c in others;
    assert Count(w, c) >= 1;
    TwoCounts(w, w[0], c);
  }

  lemma {:induction false} TwoCounts<B>(w: seq<B>, b: B, c: B)
    requires b != c
    ensures Count(w, b) + Count(w, c) <= |w|
  {
    if w != [] {
      TwoCounts(w[1..], b, c);
      CountCons(w, b);
      CountCons(w, c);
    }
  }

  // ---- Gibbs' inequality ----

  /** 1 / (K p(b)) for K distinct values: 1 throughout for a uniform distribution. */
  function Skew<B(==)>(w: seq<B>, b: B): real
    requires b in w
  {
    Distinctness(w);
    Times((|w| as real) / (|Distinct(w)| as real), 1.0 / (Count(w, b) as real))
  }

  lemma Distinctness<B>(w: seq<B>)
    requires w != []
    ensures |Distinct(w)| > 0
  {
    assert w[0] in Distinct(w);
  }

  lemma SkewCancels(n: real, k: real, count: real)
    requires n > 0.0 && k > 0.0 && count > 0.0
    ensures var skew := Times(n / k, 1.0 / count);
            && skew > 0.0
            && Times(count, skew) == n / k
            && Times(Times(skew, count / n), k) == 1.0
            && (skew == 1.0 <==> count == n / k)
  {
    var r, i, j, l := n / k, 1.0 / count, 1.0 / n, 1.0 / k;
    QuotientIsProduct(n, k);
    QuotientIsProduct(1.0, count);
    QuotientIsProduct(count, n);
    assert Times(count, i) == 1.0 && Times(n, j) == 1.0 && Times(k, l) == 1.0;
    assert r == Times(n, l) && count / n == Times(count, j);
    QuotientsOrdered(n, n, k);
    BelowZero(r, i);
    hide Times;
    var skew := Times(r, i);
    TimesDistributes(count, 0.0, skew);
    TimesAssociates(r, i, count);
    TimesDistributes(i, 0.0, count);
    TimesDistributes(1.0, 0.0, r);
    TimesDistributes(skew, 0.0, count);
    TimesDistributes(r, 0.0, 1.0);
    assert Times(skew, count) == r;
    TimesAssociates(skew, count, j);
    assert Times(skew, Times(count, j)) == Times(r, j);
    TimesDistributes(r, 0.0, j);
    TimesAssociates(j, n, l);
    TimesDistributes(j, 0.0, n);
    TimesDistributes(1.0, 0.0, l);
    assert Times(j, r) == l;
    TimesDistributes(l, 0.0, k);
    TimesDistributes(1.0, 0.0, count);
    if skew == 1.0 {
      TimesDistributes(1.0, 0.0, count);
    }
    if count == r {
      TimesDistributes(i, 0.0, r);
    }
  }

  /** A sample's share of the entropy, rewritten through the skew and the number of values. */
  lemma SurpriseThroughSkew<B>(log: real -> real, slope: real, w: seq<B>, b: B)
    requires LogLaws(log, slope) && b in w
    ensures Skew(w, b) > 0.0
    ensures var unit := 1.0 / (|w| as real);
            Surprise(log, w, b) == Times(unit, log(Skew(w, b))) + Times(unit, log(|Distinct(w)| as real))
  {
    Distinctness(w);
    var n, k, count := |w| as real, |Distinct(w)| as real, Count(w, b) as real;
    var skew, p, unit := Skew(w, b), Frequency(w, b), 1.0 / n;
    SkewCancels(n, k, count);
    FrequencyInRange(w, b);
    BelowZero(skew, p);
    LogOfReciprocals(log, slope, Times(skew, p), k);
    assert ProductLaw(log, skew, p);
    hide Times, LogLaws, Skew, Frequency;
    assert log(skew) + log(p) + log(k) == 0.0;
    TimesDistributes(log(skew), log(k), unit);
    TimesDistributes(log(p), log(skew) + log(k), unit);
    TimesDistributes(0.0, 0.0, unit);
    TimesDistributes(log(p), 0.0, unit);
    TimesDistributes(log(skew), 0.0, unit);
    TimesDistributes(log(k), 0.0, unit);
    TimesDistributes(log(skew) + log(k), 0.0, unit);
  }

  function Skews<B(==)>(w: seq<B>): (g: map<B, real>)
    ensures g.Keys == Distinct(w)
  {
    map b | b in Distinct(w) :: Skew(w, b)
  }

  /** The skews of all samples add up to their number. */
  lemma SkewsSumToCount<B>(w: seq<B>)
    requires w != []
    ensures SumOver(w, Distinct(w), Skews(w)) == |w| as real
  {
    Distinctness(w);
    var n, k := |w| as real, |Distinct(w)| as real;
    var share, keys := n / k, Distinct(w);
    assert Times(k, share) == n;
    forall b | b in keys ensures Times(Count(w, b) as real, Skews(w)[b]) == share {
      SkewCancels(n, k, Count(w, b) as real);
      hide Times, Distinct, Count;
    }
    hide *;
    SumOfEqualShares(w, keys, Skews(w), share);
  }

  /** Every value occurs equally often. */
  predicate Uniform<B(==)>(w: seq<B>) {
    forall b | b in Distinct(w) :: Count(w, b) * |Distinct(w)| == |w|
  }

  /** The tangent bound on a sample's share. */
  lemma SurpriseBelowTangent<B>(log: real -> real, slope: real, w: seq<B>, b: B)
    requires LogLaws(log, slope) && b in w
    ensures var unit := 1.0 / (|w| as real);
            var k := Times(unit, slope);
            var bound := Times(k, Skew(w, b)) + (Times(unit, log(|Distinct(w)| as real)) - k);
            && Surprise(log, w, b) <= bound
            && (Surprise(log, w, b) < bound <==> Skew(w, b) != 1.0)
  {
    SurpriseThroughSkew(log, slope, w, b);
    var unit, g := 1.0 / (|w| as real), Skew(w, b);
    QuotientsOrdered(1.0, 1.0, |w| as real);
    assert TangentLaw(log, slope, g);
    LogOfOne(log, slope);
    hide LogLaws, Skew, Surprise;
    TangentScaled(unit, slope, g, log(g));
  }

  lemma TangentScaled(unit: real, slope: real, g: real, l: real)
    requires unit > 0.0
    requires g == 1.0 ==> l == 0.0
    requires g != 1.0 ==> l < Times(slope, g - 1.0)
    ensures var k := Times(unit, slope);
            && Times(unit, l) <= Times(k, g) - k
            && (Times(unit, l) < Times(k, g) - k <==> g != 1.0)
  {
    var k, t := Times(unit, slope), Times(slope, g - 1.0);
    if g != 1.0 {
      BelowZero(unit, t - l);
    }
    hide Times;
    TimesDistributes(t, l, unit);
    TimesDistributes(l, 0.0, unit);
    TimesDistributes(t - l, 0.0, unit);
    TimesAssociates(unit, slope, g - 1.0);
    TimesDistributes(g, 1.0, k);
    TimesDistributes(g - 1.0, 0.0, k);
    TimesDistributes(0.0, 0.0, unit);
    TimesDistributes(1.0, 0.0, k);
    TimesDistributes(g, 0.0, k);
  }

  /** Gibbs: the entropy is at most log K for K distinct values, with equality exactly for uniform samples. */
  lemma GibbsInequality<B>(log: real -> real, slope: real, w: seq<B>)
    requires LogLaws(log, slope) && w != []
    ensures EntropyOf(log, w) <= log(|Distinct(w)| as real)
    ensures EntropyOf(log, w) == log(|Distinct(w)| as real) <==> Uniform(w)
  {
    var keys, f := Distinct(w), Surprises(log, w);
    var n, unit, top := |w| as real, 1.0 / (|w| as real), log(|keys| as real);
    var k := Times(unit, slope);
    var d := Times(unit, top) - k;
    var h := map b | b in keys :: Times(k, Skew(w, b)) + d;
    forall b | b in keys ensures f[b] <= h[b] && (f[b] < h[b] <==> Skew(w, b) != 1.0) {
      SurpriseBelowTangent(log, slope, w, b);
    }
    SumOverMonotone(w, keys, f, h);
    SumOverLinear(w, keys, h, Skews(w), k, d);
    SkewsSumToCount(w);
    TangentTotal(n, unit, top, k);
    if Uniform(w) {
      forall b | b in keys ensures h[b] <= f[b] {
        UniformMeansNoSkew(w, b);
      }
      SumOverMonotone(w, keys, h, f);
    } else {
      var b :| b in keys && Count(w, b) * |keys| != |w|;
      UniformMeansNoSkew(w, b);
    }
  }

  lemma UniformMeansNoSkew<B>(w: seq<B>, b: B)
    requires b in w
    ensures Skew(w, b) == 1.0 <==> Count(w, b) * |Distinct(w)| == |w|
  {
    Distinctness(w);
    var n, k, count := |w| as real, |Distinct(w)| as real, Count(w, b) as real;
    SkewCancels(n, k, count);
    assert count * k == (Count(w, b) * |Distinct(w)|) as real;
    assert n / k * k == n;
    if count * k == n {
      QuotientIsProduct(n, k);
      CancelUnit(count, 1.0 / k, k);
    }
  }

  lemma TangentTotal(n: real, unit: real, top: real, k: real)
    requires n > 0.0 && unit == 1.0 / n
    ensures Times(k, n) + Times(n, Times(unit, top) - k) == top
  {
    assert Times(n, unit) == 1.0;
    hide Times;
    TimesDistributes(Times(unit, top), k, n);
    TimesDistributes(k, 0.0, n);
    TimesDistributes(Times(unit, top), 0.0, n);
    TimesDistributes(Times(unit, top) - k, 0.0, n);
    TimesAssociates(n, unit, top);
    TimesDistributes(1.0, 0.0, top);
  }
}
