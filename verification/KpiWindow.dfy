/**
 The rolling KPI window and the regression test of the promoter, over exact reals.

 The window carries the variance instead of its square root. `ComparisonIsSigmaTest` shows that
 the comparison of squares decides exactly what `mean - latest >= sigma * stdev` decides.
 */
module KpiWindow {
  import opened Capsules

  datatype RegressionWindow = RegressionWindow(
    machine: string,
    from: Time,
    to: Time,
    samples: nat,
    mean: real,
    variance: real,
    latest: real)

  // ---------------------------------------------------------------- selecting and summing

  /** An undated capsule is never outside the window. */
  predicate InRange(c: Capsule, from: Time, to: Time) {
    c.createdAt == ZERO_TIME || from <= c.createdAt <= to
  }

  predicate InWindow(c: Capsule, machine: string, from: Time, to: Time) {
    c.kind == Rollup && (machine == "" || c.machine == machine) && InRange(c, from, to)
  }

  function Selected(rollups: seq<Capsule>, machine: string, from: Time, to: Time): seq<Capsule> {
    if rollups == [] then []
    else
      var n := |rollups| - 1;
      Selected(rollups[..n], machine, from, to) +
      if InWindow(rollups[n], machine, from, to) then [rollups[n]] else []
  }

  function Kpis(caps: seq<Capsule>): (xs: seq<real>)
    ensures |xs| == |caps|
    ensures forall i :: 0 <= i < |caps| ==> xs[i] == caps[i].lastKPI
  {
    seq(|caps|, i requires 0 <= i < |caps| => caps[i].lastKPI)
  }

  function SumOf(xs: seq<real>, f: real -> real): real {
    if xs == [] then 0.0 else SumOf(xs[..|xs| - 1], f) + f(xs[|xs| - 1])
  }

  function Same(): real -> real { x => x }

  function Square(x: real): real { x * x }

  function SquaredDistance(m: real): real -> real { x => Square(x - m) }

  function Sum(xs: seq<real>): real { SumOf(xs, Same()) }

  /** The sum of the squared distances from `m`. */
  function SquaresAbout(xs: seq<real>, m: real): real { SumOf(xs, SquaredDistance(m)) }

  function Mean(xs: seq<real>): real
    requires xs != []
  {
    Sum(xs) / |xs| as real
  }

  function Variance(xs: seq<real>): real
    requires |xs| >= 2
  {
    SquaresAbout(xs, Mean(xs)) / (|xs| - 1) as real
  }

  /** The scan both loops run: keep the first capsule strictly later than everything before it. */
  function LatestOf(caps: seq<Capsule>): Capsule {
    if caps == [] then ZERO_CAPSULE
    else
      var n := |caps| - 1;
      var best := LatestOf(caps[..n]);
      if caps[n].createdAt > best.createdAt then caps[n] else best
  }

  function WindowOf(rollups: seq<Capsule>, machine: string, from: Time, to: Time): RegressionWindow {
    var picked := Selected(rollups, machine, from, to);
    if |picked| < 2 then RegressionWindow(machine, from, to, 0, 0.0, 0.0, 0.0)
    else
      var xs := Kpis(picked);
      RegressionWindow(machine, from, to, |xs|, Mean(xs), Variance(xs), LatestOf(picked).lastKPI)
  }

  /** Some sample of the window carries a timestamp after the zero time. */
  predicate Dated(picked: seq<Capsule>) {
    exists i :: 0 <= i < |picked| && picked[i].createdAt > ZERO_TIME
  }

  // ---------------------------------------------------------------- the loops

  /** What one more selected capsule adds to each accumulator. */
  lemma OneMore(caps: seq<Capsule>, c: Capsule)
    ensures Kpis(caps + [c]) == Kpis(caps) + [c.lastKPI]
    ensures LatestOf(caps + [c]) == if c.createdAt > LatestOf(caps).createdAt then c else LatestOf(caps)
  {
    assert (caps + [c])[..|caps|] == caps;
  }

  lemma SumUpTo(xs: seq<real>, i: nat, f: real -> real)
    requires i < |xs|
    ensures SumOf(xs[..i + 1], f) == SumOf(xs[..i], f) + f(xs[i])
  {
    assert xs[..i + 1][..i] == xs[..i];
  }

  lemma OneMoreRollup(rollups: seq<Capsule>, i: nat, machine: string, from: Time, to: Time)
    requires i < |rollups|
    ensures Selected(rollups[..i + 1], machine, from, to) ==
            Selected(rollups[..i], machine, from, to) +
            if InWindow(rollups[i], machine, from, to) then [rollups[i]] else []
  {
    assert rollups[..i + 1][..i] == rollups[..i];
  }

  method RollingKPIWindow(rollups: seq<Capsule>, machine: string, from: Time, to: Time)
    returns (w: RegressionWindow)
    ensures w == WindowOf(rollups, machine, from, to)
  {
    w := RegressionWindow(machine, from, to, 0, 0.0, 0.0, 0.0);
    var xs: seq<real> := [];
    var latest := 0.0;
    var latestAt := ZERO_TIME;
    ghost var picked: seq<Capsule> := [];
    for i := 0 to |rollups|
      invariant picked == Selected(rollups[..i], machine, from, to)
      invariant xs == Kpis(picked)
      invariant latest == LatestOf(picked).lastKPI && latestAt == LatestOf(picked).createdAt
    {
      var c := rollups[i];
      OneMoreRollup(rollups, i, machine, from, to);
      if c.kind != Rollup { continue; }
      if machine != "" && c.machine != machine { continue; }
      if c.createdAt != ZERO_TIME && (c.createdAt < from || c.createdAt > to) { continue; }
      OneMore(picked, c);
      picked := picked + [c];
      xs := xs + [c.lastKPI];
      if c.createdAt > latestAt {
        latest := c.lastKPI;
        latestAt := c.createdAt;
      }
    }
    assert rollups[..|rollups|] == rollups;
    if |xs| < 2 { return; }
    var mean, variance := MeanAndVariance(xs);
    w := w.(samples := |xs|, mean := mean, variance := variance, latest := latest);
  }

  method MeanAndVariance(xs: seq<real>) returns (mean: real, variance: real)
    requires |xs| >= 2
    ensures mean == Mean(xs) && variance == Variance(xs)
  {
    var sum := 0.0;
    for i := 0 to |xs|
      invariant sum == Sum(xs[..i])
    {
      SumUpTo(xs, i, Same());
      sum := sum + xs[i];
    }
    assert xs[..|xs|] == xs;
    mean := sum / |xs| as real;
    var sq := 0.0;
    for i := 0 to |xs|
      invariant sq == SquaresAbout(xs[..i], mean)
    {
      SumUpTo(xs, i, SquaredDistance(mean));
      var d := xs[i] - mean;
      assert d * d == Square(d);
      sq := sq + d * d;
    }
    variance := sq / (|xs| - 1) as real;
  }

  /** The second scan: its own filter, which has no exemption for the empty machine name. */
  function LatestRollup(caps: seq<Capsule>, machine: string, from: Time, to: Time): Capsule {
    if caps == [] then ZERO_CAPSULE
    else
      var n := |caps| - 1;
      var best := LatestRollup(caps[..n], machine, from, to);
      if caps[n].kind == Rollup && caps[n].machine == machine && InRange(caps[n], from, to)
         && caps[n].createdAt > best.createdAt
      then caps[n] else best
  }

  method LatestRollupID(caps: seq<Capsule>, machine: string, from: Time, to: Time) returns (id: string)
    ensures id == LatestRollup(caps, machine, from, to).id
  {
    var best := ZERO_CAPSULE;
    for i := 0 to |caps|
      invariant best == LatestRollup(caps[..i], machine, from, to)
    {
      var c := caps[i];
      assert caps[..i + 1][..i] == caps[..i];
      if c.kind != Rollup || c.machine != machine { continue; }
      if c.createdAt != ZERO_TIME && (c.createdAt < from || c.createdAt > to) { continue; }
      if c.createdAt > best.createdAt { best := c; }
    }
    assert caps[..|caps|] == caps;
    id := best.id;
  }

  // ---------------------------------------------------------------- what the scans find

  /** `k` is the first position holding the greatest timestamp, and that timestamp is not zero. */
  predicate FirstLatest(caps: seq<Capsule>, k: int) {
    && 0 <= k < |caps|
    && caps[k].createdAt > ZERO_TIME
    && (forall j :: 0 <= j < |caps| ==> caps[j].createdAt <= caps[k].createdAt)
    && (forall j :: 0 <= j < k ==> caps[j].createdAt < caps[k].createdAt)
  }

  /** The position the scan ends on, or -1 when nothing is dated. */
  function LatestIndex(caps: seq<Capsule>): (k: int)
    ensures -1 <= k < |caps|
  {
    if caps == [] then -1
    else
      var n := |caps| - 1;
      var k := LatestIndex(caps[..n]);
      if caps[n].createdAt > (if k < 0 then ZERO_TIME else caps[k].createdAt) then n else k
  }

  lemma {:induction false} LatestIsFirstMaximum(caps: seq<Capsule>)
    ensures var k := LatestIndex(caps);
            && (k < 0 <==> !Dated(caps))
            && (k < 0 ==> LatestOf(caps) == ZERO_CAPSULE)
            && (k >= 0 ==> FirstLatest(caps, k) && LatestOf(caps) == caps[k])
  {
    if caps != [] {
      var n := |caps| - 1;
      var init := caps[..n];
      assert forall j :: 0 <= j < n ==> init[j] == caps[j];
      LatestIsFirstMaximum(init);
    }
  }

  lemma FirstLatestUnique(caps: seq<Capsule>, k: int, l: int)
    requires FirstLatest(caps, k) && FirstLatest(caps, l)
    ensures k == l
  {
  }

  lemma {:induction false} LatestRollupScansSelected(caps: seq<Capsule>, machine: string, from: Time, to: Time)
    requires machine != ""
    ensures LatestRollup(caps, machine, from, to) == LatestOf(Selected(caps, machine, from, to))
  {
    if caps != [] {
      var n := |caps| - 1;
      LatestRollupScansSelected(caps[..n], machine, from, to);
      var init := Selected(caps[..n], machine, from, to);
      if InWindow(caps[n], machine, from, to) {
        OneMore(init, caps[n]);
      } else {
        assert Selected(caps, machine, from, to) == init;
      }
    }
  }

  /**
   The statistics and the rollback target come from two separate scans; they describe the same
   capsule, namely the first one with the greatest timestamp, or the zero capsule if none is dated.
   */
  lemma TwoScansAgree(rollups: seq<Capsule>, machine: string, from: Time, to: Time)
    requires machine != ""
    ensures var picked := Selected(rollups, machine, from, to);
            var source := LatestRollup(rollups, machine, from, to);
            && (|picked| >= 2 ==> WindowOf(rollups, machine, from, to).latest == source.lastKPI)
            && (Dated(picked) ==> FirstLatest(picked, LatestIndex(picked)) && source == picked[LatestIndex(picked)])
            && (!Dated(picked) ==> source == ZERO_CAPSULE)
  {
    LatestRollupScansSelected(rollups, machine, from, to);
    LatestIsFirstMaximum(Selected(rollups, machine, from, to));
  }

  // ---------------------------------------------------------------- the regression test

  /** `delta >= sigma * sqrt(variance)`, decided on squares. */
  predicate AtLeastSigma(delta: real, sigma: real, variance: real) {
    if sigma > 0.0
    then delta >= 0.0 && Square(delta) >= Square(sigma) * variance
    else delta >= 0.0 || Square(delta) <= Square(sigma) * variance
  }

  predicate IsRegression(w: RegressionWindow, sigma: real) {
    w.samples >= 2 && FallsBelow(w.latest, w.mean, w.variance, sigma)
  }

  predicate FallsBelow(latest: real, mean: real, variance: real, sigma: real) {
    if variance == 0.0 then latest < mean else AtLeastSigma(mean - latest, sigma, variance)
  }

  lemma ProductSign(a: real, b: real, p: real)
    requires p == a * b
    ensures (a > 0.0 && b > 0.0) || (a < 0.0 && b < 0.0) ==> p > 0.0
  {
  }

  lemma PositiveSquare(a: real)
    ensures Square(a) >= 0.0
    ensures a != 0.0 ==> Square(a) > 0.0
  {
    ProductSign(a, a, Square(a));
  }

  lemma SquareOrder(a: real, b: real)
    requires b >= 0.0
    ensures Square(a) >= Square(b) <==> a >= b || a <= -b
  {
    assert Square(a) - Square(b) == (a - b) * (a + b);
    if a > b { ProductSign(a - b, a + b, (a - b) * (a + b)); }
    else if a < -b { ProductSign(b - a, -a - b, (b - a) * (-a - b)); }
    else if -b < a < b { ProductSign(b - a, a + b, (b - a) * (a + b)); }
  }

  lemma SquareOfProduct(a: real, b: real)
    ensures Square(a * b) == Square(a) * Square(b)
  {
    calc {
      Square(a * b);
      (a * b) * (a * b);
      a * (b * (a * b));
      { assert b * (a * b) == a * (b * b); }
      a * (a * (b * b));
      Square(a) * Square(b);
    }
  }

  lemma SigmaTestOnSquares(delta: real, sigma: real, s: real)
    requires s > 0.0
    ensures delta >= sigma * s <==>
            if sigma > 0.0 then delta >= 0.0 && Square(delta) >= Square(sigma * s)
            else delta >= 0.0 || Square(delta) <= Square(sigma * s)
  {
    var t := sigma * s;
    if sigma > 0.0 {
      ProductSign(sigma, s, sigma * s);
      SquareOrder(delta, t);
    } else {
      if sigma < 0.0 { ProductSign(-sigma, s, -sigma * s); }
      assert t <= 0.0;
      if delta < 0.0 {
        SquareOrder(t, -delta);
        assert Square(-delta) == Square(delta);
      }
    }
  }

  /** For the standard deviation `s` itself, whatever sigma is, the verdict is the documented one. */
  lemma ComparisonIsSigmaTest(w: RegressionWindow, sigma: real, s: real)
    requires s >= 0.0 && Square(s) == w.variance
    ensures IsRegression(w, sigma) <==>
            w.samples >= 2 && if s == 0.0 then w.latest < w.mean else w.mean - w.latest >= sigma * s
  {
    var delta := w.mean - w.latest;
    if s == 0.0 {
    } else {
      PositiveSquare(s);
      SquareOfProduct(sigma, s);
      SigmaTestOnSquares(delta, sigma, s);
    }
  }
}
