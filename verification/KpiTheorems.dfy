/** What the regression test can and cannot detect: the Samuelson bound, order and scale independence. */
module KpiTheorems {
  import opened Wrappers
  import opened Capsules
  import opened KpiWindow

  // ---------------------------------------------------------------- sums

  lemma {:induction false} SumConcat(xs: seq<real>, ys: seq<real>, f: real -> real)
    ensures SumOf(xs + ys, f) == SumOf(xs, f) + SumOf(ys, f)
  {
    if ys == [] {
      assert xs + ys == xs;
    } else {
      var n := |ys| - 1;
      assert (xs + ys)[..|xs + ys| - 1] == xs + ys[..n];
      SumConcat(xs, ys[..n], f);
    }
  }

  lemma SumAppend(xs: seq<real>, x: real, f: real -> real)
    ensures SumOf(xs + [x], f) == SumOf(xs, f) + f(x)
  {
    assert (xs + [x])[..|xs|] == xs;
  }

  function Without<T>(xs: seq<T>, k: nat): seq<T>
    requires k < |xs|
  {
    xs[..k] + xs[k + 1..]
  }

  lemma SumWithout(xs: seq<real>, k: nat, f: real -> real)
    requires k < |xs|
    ensures SumOf(xs, f) == SumOf(Without(xs, k), f) + f(xs[k])
  {
    hide SumOf;
    var before, x, after := xs[..k], xs[k], xs[k + 1..];
    assert xs == (before + [x]) + after;
    SumConcat(before + [x], after, f);
    SumAppend(before, x, f);
    SumConcat(before, after, f);
  }

  lemma {:induction false} SquaresNonnegative(xs: seq<real>, m: real)
    ensures SquaresAbout(xs, m) >= 0.0
  {
    if xs != [] {
      SquaresNonnegative(xs[..|xs| - 1], m);
      PositiveSquare(xs[|xs| - 1] - m);
    }
  }

  /** The sum of the deviations from `m`. */
  function Deviation(xs: seq<real>, m: real): real {
    if xs == [] then 0.0 else Deviation(xs[..|xs| - 1], m) + (xs[|xs| - 1] - m)
  }

  lemma {:induction false} DeviationSum(xs: seq<real>, n: real, m: real)
    requires n == |xs| as real
    ensures Deviation(xs, m) == Sum(xs) - n * m
  {
    if xs != [] {
      DeviationSum(xs[..|xs| - 1], n - 1.0, m);
    }
  }

  /** Cauchy's inequality for deviations from any centre. */
  lemma {:induction false} DeviationsBound(xs: seq<real>, n: real, m: real)
    requires n == |xs| as real
    ensures Square(Deviation(xs, m)) <= n * SquaresAbout(xs, m)
  {
    if xs != [] {
      var init, x := xs[..|xs| - 1], xs[|xs| - 1];
      DeviationsBound(init, n - 1.0, m);
      SquaresNonnegative(init, m);
      CauchyStep(Deviation(init, m), SquaresAbout(init, m), n - 1.0, x - m,
                 Deviation(xs, m), SquaresAbout(xs, m), n);
    }
  }

  lemma CauchyStep(s: real, q: real, n: real, x: real, s': real, q': real, n': real)
    requires n >= 0.0 && q >= 0.0 && Square(s) <= n * q
    requires s' == s + x && q' == q + Square(x) && n' == n + 1.0
    ensures Square(s') <= n' * q'
  {
    if n == 0.0 {
      PositiveSquare(s);
      assert s' == x;
    } else {
      PositiveSquare(s - n * x);
      assert Square(s - n * x) == Square(s) - 2.0 * n * (s * x) + n * (n * Square(x));
      assert n * q - 2.0 * n * (s * x) + n * (n * Square(x)) == n * (q - 2.0 * (s * x) + n * Square(x));
      CancelFactor(0.0, q - 2.0 * (s * x) + n * Square(x), n);
      assert n' * q' - Square(s') == (n * q - Square(s)) + (q - 2.0 * (s * x) + n * Square(x));
    }
  }

  lemma Scale(n: real, a: real, b: real)
    requires n >= 0.0 && a <= b
    ensures n * a <= n * b
  {
  }

  // ---------------------------------------------------------------- the Samuelson bound

  /** No sample of n lies further than (n-1)/sqrt(n) sample standard deviations from the mean. */
  lemma SamuelsonBound(xs: seq<real>, k: nat)
    requires |xs| >= 2 && k < |xs|
    ensures Square(Mean(xs) - xs[k]) * |xs| as real <= Variance(xs) * Square((|xs| - 1) as real)
  {
    var n, p, m := |xs| as real, (|xs| - 1) as real, Mean(xs);
    var rest, d := OtherSamples(xs, k, p, m);
    SamuelsonStep(SquaresAbout(xs, m), rest, Sum(xs), n, p, m, xs[k], d, Variance(xs));
  }

  /** The squares and the deviation contributed by all samples but the k-th. */
  lemma OtherSamples(xs: seq<real>, k: nat, p: real, m: real) returns (rest: real, d: real)
    requires k < |xs| && p == (|xs| - 1) as real
    ensures SquaresAbout(xs, m) == rest + Square(xs[k] - m)
    ensures d == (Sum(xs) - xs[k]) - p * m && Square(d) <= p * rest
  {
    var ys := Without(xs, k);
    SumWithout(xs, k, Same());
    SumWithout(xs, k, SquaredDistance(m));
    DeviationsBound(ys, p, m);
    DeviationSum(ys, p, m);
    rest, d := SquaresAbout(ys, m), Deviation(ys, m);
  }

  lemma SamuelsonStep(ss: real, rest: real, sum: real, n: real, p: real, m: real, x: real, d: real, v: real)
    requires p > 0.0 && n == p + 1.0 && m == sum / n && ss == rest + Square(x - m) && v == ss / p
    requires d == (sum - x) - p * m && Square(d) <= p * rest
    ensures Square(m - x) * n <= v * Square(p)
  {
    assert n * m == sum;
    assert d == m - x;
    assert Square(x - m) == Square(m - x);
    assert v * p == ss;
    assert v * Square(p) == (v * p) * p;
  }

  /** With zero variance every sample equals the mean. */
  lemma FlatWindow(xs: seq<real>, k: nat)
    requires |xs| >= 2 && k < |xs| && Variance(xs) == 0.0
    ensures xs[k] == Mean(xs)
  {
    SamuelsonBound(xs, k);
    PositiveSquare(Mean(xs) - xs[k]);
  }

  lemma VarianceNonnegative(xs: seq<real>)
    requires |xs| >= 2
    ensures Variance(xs) >= 0.0
  {
    SquaresNonnegative(xs, Mean(xs));
  }

  /**
   When some in-window sample is dated, the test can fire at sigma only over a window that is not
   flat and whose size n satisfies sigma^2 * n <= (n-1)^2.
   */
  lemma RegressionNeedsSamples(rollups: seq<Capsule>, machine: string, from: Time, to: Time, sigma: real)
    requires sigma > 0.0
    requires Dated(Selected(rollups, machine, from, to))
    requires IsRegression(WindowOf(rollups, machine, from, to), sigma)
    ensures var w := WindowOf(rollups, machine, from, to);
            && w.variance > 0.0
            && Square(sigma) * w.samples as real <= Square((w.samples - 1) as real)
  {
    var picked := Selected(rollups, machine, from, to);
    var k := LatestIsSample(picked);
    SampleRegression(Kpis(picked), k, sigma);
  }

  lemma LatestIsSample(picked: seq<Capsule>) returns (k: nat)
    requires Dated(picked)
    ensures k < |picked| && LatestOf(picked).lastKPI == Kpis(picked)[k]
  {
    LatestIsFirstMaximum(picked);
    k := LatestIndex(picked);
  }

  lemma SampleRegression(xs: seq<real>, k: nat, sigma: real)
    requires |xs| >= 2 && k < |xs| && sigma > 0.0
    requires FallsBelow(xs[k], Mean(xs), Variance(xs), sigma)
    ensures Variance(xs) > 0.0
    ensures Square(sigma) * |xs| as real <= Square((|xs| - 1) as real)
  {
    VarianceNonnegative(xs);
    if Variance(xs) == 0.0 { FlatWindow(xs, k); }
    SamuelsonBound(xs, k);
    BoundStep(Square(sigma), |xs| as real, Variance(xs), Square(Mean(xs) - xs[k]), Square((|xs| - 1) as real));
  }

  lemma BoundStep(s: real, n: real, v: real, gap: real, bound: real)
    requires n > 0.0 && v > 0.0 && gap >= s * v && gap * n <= v * bound
    ensures s * n <= bound
  {
    Scale(n, s * v, gap);
    assert (s * n) * v == n * (s * v);
    CancelFactor(s * n, bound, v);
  }

  lemma CancelFactor(a: real, b: real, v: real)
    requires v > 0.0 && a * v <= b * v
    ensures a <= b
  {
    if a > b { ProductSign(a - b, v, (a - b) * v); }
  }

  /** At the default threshold of one standard deviation two samples never suffice. */
  lemma DefaultSigmaNeedsThreeSamples(rollups: seq<Capsule>, machine: string, from: Time, to: Time)
    requires Dated(Selected(rollups, machine, from, to))
    requires IsRegression(WindowOf(rollups, machine, from, to), 1.0)
    ensures WindowOf(rollups, machine, from, to).samples >= 3
  {
    RegressionNeedsSamples(rollups, machine, from, to, 1.0);
  }

  // ---------------------------------------------------------------- the bound is attained

  function Reading(machine: string, kpi: real, at: Time): Capsule {
    Capsule("", Rollup, machine, "", at, None, 0, 0, 0.0, kpi)
  }

  /** `p` healthy readings of 1 taken at instant 1 on the machine. */
  function Healthy(machine: string, p: nat): seq<Capsule> {
    if p == 0 then [] else Healthy(machine, p - 1) + [Reading(machine, 1.0, 1)]
  }

  lemma {:induction false} HealthySelected(machine: string, p: nat)
    ensures Selected(Healthy(machine, p), machine, 1, 2) == Healthy(machine, p)
  {
    if p != 0 {
      HealthySelected(machine, p - 1);
      AppendReading(machine, Healthy(machine, p - 1), Reading(machine, 1.0, 1), Same());
    }
  }

  lemma {:induction false} HealthyLatest(machine: string, p: nat)
    ensures |Healthy(machine, p)| == p
    ensures LatestOf(Healthy(machine, p)).createdAt <= 1
  {
    var c := Reading(machine, 1.0, 1);
    assert LatestOf([]).createdAt == 0 && c.createdAt == 1;
    hide LatestOf, Kpis, Reading;
    if p != 0 {
      HealthyLatest(machine, p - 1);
      OneMore(Healthy(machine, p - 1), c);
    }
  }

  /** `p` times the same summand. */
  function AddedUp(p: nat, y: real): real {
    if p == 0 then 0.0 else AddedUp(p - 1, y) + y
  }

  lemma {:induction false} AddedUpIs(p: nat, r: real, y: real)
    requires r == p as real
    ensures AddedUp(p, y) == r * y
  {
    if p != 0 {
      AddedUpIs(p - 1, r - 1.0, y);
      assert (r - 1.0) * y + y == r * y;
    }
  }

  lemma {:induction false} HealthySum(machine: string, p: nat, f: real -> real)
    ensures SumOf(Kpis(Healthy(machine, p)), f) == AddedUp(p, f(1.0))
  {
    if p != 0 {
      var h := Healthy(machine, p - 1);
      HealthySum(machine, p - 1, f);
      assert Kpis(h + [Reading(machine, 1.0, 1)]) == Kpis(h) + [1.0];
      SumAppend(Kpis(h), 1.0, f);
    }
  }

  /** One more in-window reading at the end of a list that is entirely in the window. */
  lemma AppendReading(machine: string, h: seq<Capsule>, c: Capsule, f: real -> real)
    requires Selected(h, machine, 1, 2) == h && InWindow(c, machine, 1, 2)
    ensures Selected(h + [c], machine, 1, 2) == h + [c]
    ensures Kpis(h + [c]) == Kpis(h) + [c.lastKPI]
    ensures SumOf(Kpis(h + [c]), f) == SumOf(Kpis(h), f) + f(c.lastKPI)
    ensures LatestOf(h + [c]) == if c.createdAt > LatestOf(h).createdAt then c else LatestOf(h)
  {
    assert (h + [c])[..|h|] == h;
    OneMore(h, c);
    SumAppend(Kpis(h), c.lastKPI, f);
  }

  /** The extreme window: n - 1 equal readings followed by one drop. */
  lemma SingleDrop(machine: string, n: nat, sigma: real)
    requires n >= 2 && sigma > 0.0
    ensures var rollups := Healthy(machine, n - 1) + [Reading(machine, 0.0, 2)];
            var w := WindowOf(rollups, machine, 1, 2);
            && w.samples == n
            && Dated(Selected(rollups, machine, 1, 2))
            && (IsRegression(w, sigma) <==> Square(sigma) * n as real <= Square((n - 1) as real))
  {
    hide Healthy, Selected, LatestOf, SumOf, Square, Dated, WindowOf;
    var r, p := n as real, (n - 1) as real;
    var m := p / r;
    var q := p * Square(1.0 - m) + Square(0.0 - m);
    SingleDropWindow(machine, n, p, m, Square(1.0 - m), p * Square(1.0 - m), q);
    SingleDropVariance(r, p, m);
    DropVerdict(r, p, m, Square(sigma));
  }

  lemma SingleDropWindow(machine: string, n: nat, p: real, m: real, s: real, ps: real, q: real)
    requires n >= 2 && p == (n - 1) as real && m == p / n as real
    requires s == Square(1.0 - m) && ps == p * s && q == ps + Square(0.0 - m)
    ensures var rollups := Healthy(machine, n - 1) + [Reading(machine, 0.0, 2)];
            && Dated(Selected(rollups, machine, 1, 2))
            && WindowOf(rollups, machine, 1, 2) == RegressionWindow(machine, 1, 2, n, m, q / p, 0.0)
  {
    hide Healthy, Selected, LatestOf, SumOf, Square, Dated;
    SingleDropShape(machine, n);
    SingleDropSum(machine, n, p, Same(), 1.0, p);
    SingleDropSum(machine, n, p, SquaredDistance(m), s, ps);
  }

  lemma SingleDropShape(machine: string, n: nat)
    requires n >= 2
    ensures var rollups := Healthy(machine, n - 1) + [Reading(machine, 0.0, 2)];
            && |rollups| == n
            && Selected(rollups, machine, 1, 2) == rollups
            && Dated(rollups)
            && LatestOf(rollups).lastKPI == 0.0
  {
    hide Healthy, Selected, LatestOf, SumOf;
    var h, c := Healthy(machine, n - 1), Reading(machine, 0.0, 2);
    HealthySelected(machine, n - 1);
    HealthyLatest(machine, n - 1);
    AppendReading(machine, h, c, Same());
    assert (h + [c])[n - 1].createdAt > ZERO_TIME;
  }

  lemma SingleDropSum(machine: string, n: nat, p: real, f: real -> real, y: real, py: real)
    requires n >= 2 && p == (n - 1) as real && y == f(1.0) && py == p * y
    ensures SumOf(Kpis(Healthy(machine, n - 1) + [Reading(machine, 0.0, 2)]), f) == py + f(0.0)
  {
    var h, c := Healthy(machine, n - 1), Reading(machine, 0.0, 2);
    HealthySum(machine, n - 1, f);
    AddedUpIs(n - 1, p, y);
    OneMore(h, c);
    SumAppend(Kpis(h), 0.0, f);
  }

  lemma SingleDropVariance(r: real, p: real, m: real)
    requires p >= 1.0 && r == p + 1.0 && m == p / r
    ensures (p * Square(1.0 - m) + Square(0.0 - m)) / p == 1.0 / r
  {
    var q := 1.0 / r;
    assert m == p * q && r * q == 1.0;
    assert 1.0 - m == q;
    assert Square(0.0 - m) == p * (p * Square(q));
    assert p * Square(q) + p * (p * Square(q)) == p * (r * Square(q));
    assert r * Square(q) == q;
  }

  lemma DropVerdict(r: real, p: real, m: real, s: real)
    requires p >= 1.0 && r == p + 1.0 && m == p / r
    ensures m >= 0.0 && 1.0 / r > 0.0
    ensures Square(m) >= s * (1.0 / r) <==> s * r <= Square(p)
  {
    var q := 1.0 / r;
    assert m == p * q && r * q == 1.0;
    assert Square(m) * Square(r) == Square(p) by { SquareOfProduct(m, r); }
    assert (s * q) * Square(r) == s * r;
    PositiveSquare(r);
    if Square(m) >= s * q { Scale(Square(r), s * q, Square(m)); }
    if s * r <= Square(p) { CancelFactor(s * q, Square(m), Square(r)); }
  }

  /** Exactly which window sizes can ever trigger a rollback of a machine at a given sigma. */
  lemma RegressionPossibleIff(machine: string, n: nat, sigma: real)
    requires n >= 2 && sigma > 0.0
    ensures (exists rollups, from, to ::
               && WindowOf(rollups, machine, from, to).samples == n
               && Dated(Selected(rollups, machine, from, to))
               && IsRegression(WindowOf(rollups, machine, from, to), sigma))
            <==> Square(sigma) * n as real <= Square((n - 1) as real)
  {
    hide WindowOf, Selected, Dated, IsRegression, Square, Healthy;
    SingleDrop(machine, n, sigma);
    forall rollups, from, to |
      && WindowOf(rollups, machine, from, to).samples == n
      && Dated(Selected(rollups, machine, from, to))
      && IsRegression(WindowOf(rollups, machine, from, to), sigma)
      ensures Square(sigma) * n as real <= Square((n - 1) as real)
    {
      RegressionNeedsSamples(rollups, machine, from, to, sigma);
    }
  }

  // ---------------------------------------------------------------- flat and undated windows

  /**
   Exactly when a flat window regresses: when no reading is dated and the mean is positive. The
   latest reading is then the constant zero, which need not be a sample at all.
   */
  lemma FlatRegressesIff(rollups: seq<Capsule>, machine: string, from: Time, to: Time, sigma: real)
    requires var w := WindowOf(rollups, machine, from, to); w.samples >= 2 && w.variance == 0.0
    ensures var w := WindowOf(rollups, machine, from, to);
            IsRegression(w, sigma) <==> !Dated(Selected(rollups, machine, from, to)) && w.mean > 0.0
  {
    hide Selected, Mean, Variance;
    var picked := Selected(rollups, machine, from, to);
    LatestIsFirstMaximum(picked);
    if Dated(picked) {
      var k := LatestIsSample(picked);
      FlatWindow(Kpis(picked), k);
    }
  }

  /** Exactly when an undated window regresses: when its mean is positive and at least sigma standard deviations. */
  lemma UndatedRegressesIff(rollups: seq<Capsule>, machine: string, from: Time, to: Time, sigma: real)
    requires sigma > 0.0 && WindowOf(rollups, machine, from, to).samples >= 2
    requires !Dated(Selected(rollups, machine, from, to))
    ensures var w := WindowOf(rollups, machine, from, to);
            && w.latest == 0.0
            && (IsRegression(w, sigma) <==> w.mean > 0.0 && Square(w.mean) >= Square(sigma) * w.variance)
  {
    hide Selected, Mean, Variance, Square;
    var picked := Selected(rollups, machine, from, to);
    var w := WindowOf(rollups, machine, from, to);
    LatestIsFirstMaximum(picked);
    VarianceNonnegative(Kpis(picked));
    UndatedVerdict(w.mean, w.variance, Square(sigma), Square(w.mean), sigma);
  }

  lemma UndatedVerdict(m: real, v: real, s: real, mm: real, sigma: real)
    requires sigma > 0.0 && s == Square(sigma) && mm == Square(m) && v >= 0.0
    ensures FallsBelow(0.0, m, v, sigma) <==> m > 0.0 && mm >= s * v
    ensures s * v >= 0.0
  {
    PositiveSquare(sigma);
    if v > 0.0 { ProductSign(s, v, s * v); }
    if m != 0.0 { PositiveSquare(m); }
    assert m - 0.0 == m;
  }

  /** So the bound on the window size needs a dated reading: two equal positive undated ones always regress. */
  lemma UndatedPairRegresses(a: Capsule, machine: string, from: Time, to: Time, sigma: real)
    requires InWindow(a, machine, from, to) && a.createdAt == ZERO_TIME && a.lastKPI > 0.0
    ensures var w := WindowOf([a, a], machine, from, to);
            w.samples == 2 && w.variance == 0.0 && !Dated(Selected([a, a], machine, from, to)) && IsRegression(w, sigma)
  {
    hide Selected, InWindow, Mean, Variance, IsRegression, LatestOf;
    PairSelected(a, machine, from, to);
    assert Kpis([a, a]) == [a.lastKPI, a.lastKPI];
    EqualPair(a.lastKPI);
    FlatRegressesIff([a, a], machine, from, to, sigma);
  }

  lemma PairSelected(a: Capsule, machine: string, from: Time, to: Time)
    requires InWindow(a, machine, from, to)
    ensures Selected([a, a], machine, from, to) == [a, a]
  {
    hide InWindow;
    assert [a, a][..1] == [a] && [a][..0] == [];
    assert Selected([a], machine, from, to) == [] + [a];
    assert Selected([a, a], machine, from, to) == [a] + [a];
  }

  lemma EqualPair(x: real)
    ensures Mean([x, x]) == x && Variance([x, x]) == 0.0
  {
    PairSum(x, Same());
    assert Mean([x, x]) == x;
    PairSum(x, SquaredDistance(x));
    assert Square(x - x) == 0.0 by { assert x - x == 0.0; }
    assert SquaredDistance(x)(x) == Square(x - x);
    assert SquaresAbout([x, x], x) == 0.0;
  }

  lemma PairSum(x: real, f: real -> real)
    ensures SumOf([x, x], f) == f(x) + f(x)
  {
    assert [x, x][..1] == [x] && [x][..0] == [];
    assert SumOf([x], f) == SumOf([], f) + f(x);
  }

  // ---------------------------------------------------------------- order independence

  lemma {:induction false} SelectedCount(rollups: seq<Capsule>, machine: string, from: Time, to: Time, c: Capsule)
    ensures multiset(Selected(rollups, machine, from, to))[c] ==
            if InWindow(c, machine, from, to) then multiset(rollups)[c] else 0
  {
    if rollups != [] {
      var n := |rollups| - 1;
      assert rollups == rollups[..n] + [rollups[n]];
      SelectedCount(rollups[..n], machine, from, to, c);
    }
  }

  lemma ReadingsWithout(caps: seq<Capsule>, k: nat, f: real -> real)
    requires k < |caps|
    ensures SumOf(Kpis(caps), f) == SumOf(Kpis(Without(caps, k)), f) + f(caps[k].lastKPI)
  {
    SumWithout(Kpis(caps), k, f);
    assert Without(Kpis(caps), k) == Kpis(Without(caps, k));
  }

  lemma {:induction false} PermutedSums(a: seq<Capsule>, b: seq<Capsule>, f: real -> real)
    requires multiset(a) == multiset(b)
    ensures |a| == |b|
    ensures SumOf(Kpis(a), f) == SumOf(Kpis(b), f)
    decreases |a|
  {
    assert |multiset(a)| == |a| && |multiset(b)| == |b|;
    if a != [] {
      assert a[0] in multiset(b);
      var k :| 0 <= k < |b| && b[k] == a[0];
      RemovedOne(a, 0);
      RemovedOne(b, k);
      PermutedSums(Without(a, 0), Without(b, k), f);
      ReadingsWithout(a, 0, f);
      ReadingsWithout(b, k, f);
    }
  }

  lemma RemovedOne<T>(xs: seq<T>, k: nat)
    requires k < |xs|
    ensures multiset(Without(xs, k)) == multiset(xs) - multiset{xs[k]}
  {
    assert xs == xs[..k] + [xs[k]] + xs[k + 1..];
  }

  /** Samples that tie on a timestamp after the zero time carry the same reading. */
  predicate TiesAgree(picked: seq<Capsule>) {
    forall i, j :: 0 <= i < |picked| && 0 <= j < |picked| && picked[i].createdAt == picked[j].createdAt > ZERO_TIME
      ==> picked[i].lastKPI == picked[j].lastKPI
  }

  lemma SameLatest(a: seq<Capsule>, b: seq<Capsule>)
    requires multiset(a) == multiset(b) && TiesAgree(a)
    ensures LatestOf(a).lastKPI == LatestOf(b).lastKPI
  {
    LatestIsFirstMaximum(a);
    LatestIsFirstMaximum(b);
    assert forall i :: 0 <= i < |a| ==> a[i] in multiset(b);
    assert forall i :: 0 <= i < |b| ==> b[i] in multiset(a);
    var k, l := LatestIndex(a), LatestIndex(b);
    if k >= 0 {
      assert a[k] in b;
      assert b[l] in a;
      var i :| 0 <= i < |a| && a[i] == b[l];
      assert a[i].createdAt == a[k].createdAt;
    }
  }

  /** The order in which rollups are listed matters only through timestamp ties. */
  lemma OrderIndependence(r1: seq<Capsule>, r2: seq<Capsule>, machine: string, from: Time, to: Time, sigma: real)
    requires multiset(r1) == multiset(r2)
    ensures var w1, w2 := WindowOf(r1, machine, from, to), WindowOf(r2, machine, from, to);
            && w1.samples == w2.samples && w1.mean == w2.mean && w1.variance == w2.variance
            && (TiesAgree(Selected(r1, machine, from, to)) ==>
                w1 == w2 && IsRegression(w1, sigma) == IsRegression(w2, sigma))
  {
    var a, b := Selected(r1, machine, from, to), Selected(r2, machine, from, to);
    forall c ensures multiset(a)[c] == multiset(b)[c] {
      SelectedCount(r1, machine, from, to, c);
      SelectedCount(r2, machine, from, to, c);
    }
    assert multiset(a) == multiset(b);
    PermutedSums(a, b, Same());
    if |a| >= 2 { PermutedSums(a, b, SquaredDistance(Mean(Kpis(a)))); }
    if TiesAgree(a) { SameLatest(a, b); }
  }

  // ---------------------------------------------------------------- scale independence

  /** A change of unit and offset. */
  ghost predicate Affine(f: real -> real, a: real, b: real) { forall x :: f(x) == a * x + b }

  /** Every reading replaced by its image under `f`. */
  function Mapped(caps: seq<Capsule>, f: real -> real): (r: seq<Capsule>)
    ensures |r| == |caps|
    ensures forall i :: 0 <= i < |caps| ==> r[i] == caps[i].(lastKPI := f(caps[i].lastKPI))
  {
    seq(|caps|, i requires 0 <= i < |caps| => caps[i].(lastKPI := f(caps[i].lastKPI)))
  }

  lemma {:induction false} MappedSelected(rollups: seq<Capsule>, machine: string, from: Time, to: Time, f: real -> real)
    ensures Selected(Mapped(rollups, f), machine, from, to) == Mapped(Selected(rollups, machine, from, to), f)
  {
    if rollups != [] {
      var n := |rollups| - 1;
      MappedSelected(rollups[..n], machine, from, to, f);
      assert Mapped(rollups, f)[..n] == Mapped(rollups[..n], f);
    }
  }

  lemma MappedLatest(caps: seq<Capsule>, f: real -> real)
    requires Dated(caps)
    ensures LatestOf(Mapped(caps, f)).lastKPI == f(LatestOf(caps).lastKPI)
  {
    var r := Mapped(caps, f);
    LatestIsFirstMaximum(caps);
    LatestIsFirstMaximum(r);
    var k := LatestIndex(caps);
    assert FirstLatest(r, k) && Dated(r);
    FirstLatestUnique(r, k, LatestIndex(r));
  }

  lemma {:induction false} RescaledSum(xs: seq<real>, ys: seq<real>, f: real -> real, a: real, b: real, n: real)
    requires |xs| == |ys| && forall i :: 0 <= i < |xs| ==> ys[i] == f(xs[i])
    requires Affine(f, a, b)
    requires n == |xs| as real
    ensures Sum(ys) == a * Sum(xs) + n * b
  {
    if xs != [] {
      var k := |xs| - 1;
      RescaledSum(xs[..k], ys[..k], f, a, b, n - 1.0);
      RescaleStep(Sum(xs[..k]), Sum(xs), n, xs[k], f(xs[k]), a, b);
    }
  }

  lemma {:induction false} RescaledSquares(xs: seq<real>, ys: seq<real>, f: real -> real, a: real, b: real, m: real, s: real)
    requires |xs| == |ys| && forall i :: 0 <= i < |xs| ==> ys[i] == f(xs[i])
    requires Affine(f, a, b)
    requires s == Square(a)
    ensures SquaresAbout(ys, f(m)) == s * SquaresAbout(xs, m)
  {
    hide Square;
    if xs != [] {
      var k := |xs| - 1;
      RescaledSquares(xs[..k], ys[..k], f, a, b, m, s);
      RescaleSquareStep(SquaresAbout(ys[..k], f(m)), SquaresAbout(xs[..k], m), SquaresAbout(xs, m),
                        xs[k], m, f(xs[k]), f(m), a, b, s);
    }
  }

  lemma RescaleStep(sum: real, sum': real, n: real, x: real, y: real, a: real, b: real)
    requires sum' == sum + x && y == a * x + b
    ensures a * sum + (n - 1.0) * b + y == a * sum' + n * b
  {
  }

  lemma RescaleSquareStep(z: real, q: real, q': real, x: real, m: real, y: real, c: real, a: real, b: real, s: real)
    requires z == s * q && q' == q + Square(x - m) && y == a * x + b && c == a * m + b && s == Square(a)
    ensures z + Square(y - c) == s * q'
  {
    assert y - c == a * (x - m);
    SquareOfProduct(a, x - m);
  }

  /** The verdict does not depend on the unit or the offset in which KPIs are expressed. */
  lemma ScaleIndependence(rollups: seq<Capsule>, machine: string, from: Time, to: Time, sigma: real,
                          f: real -> real, a: real, b: real)
    requires a > 0.0 && Affine(f, a, b)
    requires Dated(Selected(rollups, machine, from, to))
    ensures IsRegression(WindowOf(Mapped(rollups, f), machine, from, to), sigma)
            == IsRegression(WindowOf(rollups, machine, from, to), sigma)
  {
    MappedSelected(rollups, machine, from, to, f);
    var picked := Selected(rollups, machine, from, to);
    if |picked| >= 2 { SameVerdictOn(picked, f, a, b, sigma); }
  }

  lemma SameVerdictOn(picked: seq<Capsule>, f: real -> real, a: real, b: real, sigma: real)
    requires |picked| >= 2 && Dated(picked)
    requires a > 0.0 && Affine(f, a, b)
    ensures var xs, ys, x, y := Kpis(picked), Kpis(Mapped(picked, f)), LatestOf(picked).lastKPI, LatestOf(Mapped(picked, f)).lastKPI;
            FallsBelow(y, Mean(ys), Variance(ys), sigma) == FallsBelow(x, Mean(xs), Variance(xs), sigma)
  {
    hide LatestOf, Mean, Variance, FallsBelow, Affine;
    MappedLatest(picked, f);
    var x := LatestOf(picked).lastKPI;
    SameVerdict(Kpis(picked), Kpis(Mapped(picked, f)), f, a, b, x, f(x), sigma);
  }

  lemma SameVerdict(xs: seq<real>, ys: seq<real>, f: real -> real, a: real, b: real, x: real, y: real, sigma: real)
    requires |xs| == |ys| >= 2 && forall i :: 0 <= i < |xs| ==> ys[i] == f(xs[i])
    requires a > 0.0 && Affine(f, a, b) && y == f(x)
    ensures FallsBelow(y, Mean(ys), Variance(ys), sigma) == FallsBelow(x, Mean(xs), Variance(xs), sigma)
  {
    RescaledStatistics(xs, ys, f, a, b);
    var m, v, m', v' := Mean(xs), Variance(xs), Mean(ys), Variance(ys);
    assert m' - y == a * (m - x);
    RescaledVerdict(m - x, v, sigma, a, m' - y, v');
  }

  lemma RescaledStatistics(xs: seq<real>, ys: seq<real>, f: real -> real, a: real, b: real)
    requires |xs| == |ys| >= 2 && forall i :: 0 <= i < |xs| ==> ys[i] == f(xs[i])
    requires Affine(f, a, b)
    ensures Mean(ys) == f(Mean(xs))
    ensures Variance(ys) == Square(a) * Variance(xs)
  {
    RescaledMean(xs, ys, f, a, b);
    hide Affine, Mean, Square, SumOf;
    RescaledSquares(xs, ys, f, a, b, Mean(xs), Square(a));
    QuotientStep(Square(a), SquaresAbout(xs, Mean(xs)), (|xs| - 1) as real);
  }

  lemma RescaledMean(xs: seq<real>, ys: seq<real>, f: real -> real, a: real, b: real)
    requires |xs| == |ys| >= 1 && forall i :: 0 <= i < |xs| ==> ys[i] == f(xs[i])
    requires Affine(f, a, b)
    ensures Mean(ys) == f(Mean(xs))
  {
    hide SumOf;
    var n := |xs| as real;
    RescaledSum(xs, ys, f, a, b, n);
    MeanStep(Sum(xs), n, a, b);
  }

  lemma MeanStep(s: real, n: real, a: real, b: real)
    requires n > 0.0
    ensures (a * s + n * b) / n == a * (s / n) + b
  {
    assert s == (s / n) * n;
    assert a * s + n * b == (a * (s / n) + b) * n;
  }

  lemma QuotientStep(c: real, q: real, p: real)
    requires p > 0.0
    ensures (c * q) / p == c * (q / p)
  {
    assert q == (q / p) * p;
    assert c * q == (c * (q / p)) * p;
  }

  lemma RescaledVerdict(delta: real, v: real, sigma: real, a: real, delta': real, v': real)
    requires a > 0.0 && delta' == a * delta && v' == Square(a) * v
    ensures delta' > 0.0 <==> delta > 0.0
    ensures v' == 0.0 <==> v == 0.0
    ensures AtLeastSigma(delta', sigma, v') == AtLeastSigma(delta, sigma, v)
  {
    ProductSign(a, delta, delta');
    ProductSign(a, -delta, -delta');
    SquareOfProduct(a, delta);
    PositiveSquare(a);
    var s, q := Square(a), Square(sigma) * v;
    assert Square(sigma) * v' == s * q;
    if Square(delta) >= q { Scale(s, q, Square(delta)); } else { CancelStrict(s, Square(delta), q); }
    if Square(delta) <= q { Scale(s, Square(delta), q); } else { CancelStrict(s, q, Square(delta)); }
  }

  lemma CancelStrict(s: real, x: real, y: real)
    requires s > 0.0 && x < y
    ensures s * x < s * y
  {
    ProductSign(s, y - x, s * (y - x));
  }
}
