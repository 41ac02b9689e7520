/** `walk_forward_splits`: time-ordered cross-validation folds. */
module WalkForward {
  import opened Common

  /** Half-open index ranges of one fold. */
  datatype Fold = Fold(trainStart: int, testStart: int, testEnd: int)

  datatype SplitError = TooFewFolds | TooFewSamples | NoTestData
  datatype Splits = Folds(folds: seq<Fold>) | Failed(error: SplitError)

  function MaxInt(a: int, b: int): int {
    if a >= b then a else b
  }

  function DefaultMinTrain(n: int, folds: int): int
    requires folds >= 2
  {
    MaxInt(n / (folds + 1), folds)
  }

  function TrainSize(n: int, folds: int, minTrain: Option<int>): int
    requires folds >= 2
  {
    match minTrain case None => DefaultMinTrain(n, folds) case Some(m) => m
  }

  /** The folds' test ranges are non-empty and consecutive, and cover [lo, hi). */
  ghost predicate Partitions(fs: seq<Fold>, lo: int, hi: int) {
    if fs == [] then lo == hi
    else
      var last := fs[|fs| - 1];
      last.testStart < last.testEnd == hi && Partitions(fs[..|fs| - 1], lo, last.testStart)
  }

  /** Where each fold's training range starts, given the training size `m`. */
  ghost predicate TrainStarts(fs: seq<Fold>, m: int, sliding: bool) {
    forall k :: 0 <= k < |fs| ==>
      fs[k].trainStart == if sliding then MaxInt(0, fs[k].testStart - m) else 0
  }

  /** All folds but the last hold `size` test samples. */
  ghost predicate EvenlySized(fs: seq<Fold>, size: int) {
    forall k :: 0 <= k < |fs| - 1 ==> fs[k].testEnd - fs[k].testStart == size
  }

  ghost predicate Tested(fs: seq<Fold>, x: int) {
    exists k :: 0 <= k < |fs| && fs[k].testStart <= x < fs[k].testEnd
  }

  /** The generator, with the yielded folds collected. `n - m` is positive where it
      is divided, so Dafny's division is Python's. */
  method WalkForwardSplits(n: int, folds: int, minTrain: Option<int>, sliding: bool) returns (r: Splits)
    ensures r.Failed? && r.error == TooFewFolds <==> folds < 2
    ensures r.Failed? && r.error == TooFewSamples <==> folds >= 2 && n < folds + 1
    ensures r.Failed? && r.error == NoTestData <==> folds >= 2 && n >= folds + 1 && TrainSize(n, folds, minTrain) >= n
    ensures r.Folds? ==>
              var m := TrainSize(n, folds, minTrain);
              && |r.folds| == (if n - m < folds then n - m else folds)
              && Partitions(r.folds, m, n)
              && EvenlySized(r.folds, if (n - m) / folds > 1 then (n - m) / folds else 1)
              && TrainStarts(r.folds, m, sliding)
  {
    if folds < 2 {
      return Failed(TooFewFolds);
    }
    if n < folds + 1 {
      return Failed(TooFewSamples);
    }
    var m := TrainSize(n, folds, minTrain);
    if m >= n {
      return Failed(NoTestData);
    }
    TestSizeFits(n - m, folds);
    var out := YieldFolds(n, m, folds, TestSize(n - m, folds), sliding);
    return Folds(out);
  }

  function TestSize(span: int, folds: int): int
    requires folds >= 2
  {
    MaxInt(span / folds, 1)
  }

  ghost predicate SizeFits(span: int, folds: int, t: int) {
    t >= 1 && (if span >= folds then folds * t <= span else t == 1)
  }

  lemma TestSizeFits(span: int, folds: int)
    requires span > 0 && folds >= 2
    ensures SizeFits(span, folds, TestSize(span, folds))
  {
  }

  /** The generator's loop. */
  method YieldFolds(n: int, m: int, folds: int, testSize: int, sliding: bool) returns (out: seq<Fold>)
    requires m < n && folds >= 2 && SizeFits(n - m, folds, testSize)
    ensures |out| == (if n - m < folds then n - m else folds)
    ensures Partitions(out, m, n) && EvenlySized(out, testSize) && TrainStarts(out, m, sliding)
  {
    out := [];
    var k := 0;
    while k < folds
      invariant 0 <= k <= folds && |out| == k && k <= n - m && Start(m, testSize, k) <= n
      invariant Partitions(out, m, if k < folds then Start(m, testSize, k) else n)
      invariant EvenlySized(out, testSize)
      invariant k < folds && k > 0 ==> out[k - 1].testEnd - out[k - 1].testStart == testSize
      invariant TrainStarts(out, m, sliding)
    {
      var testStart := Start(m, testSize, k);
      var testEnd := if k < folds - 1 then testStart + testSize else n;
      if testStart >= n {
        break;
      }
      StepFits(n, m, folds, k, testSize);
      var fold := Fold(if sliding then MaxInt(0, testStart - m) else 0, testStart, testEnd);
      assert (out + [fold])[..k] == out;
      out := out + [fold];
      k := k + 1;
    }
    LastFold(n, m, folds, k, testSize);
  }

  /** `m + k * t`, one fold at a time. */
  function Start(m: int, t: int, k: nat): int {
    if k == 0 then m else Start(m, t, k - 1) + t
  }

  lemma {:induction false} StartClosed(m: int, t: int, k: nat)
    ensures Start(m, t, k) == m + k * t
  {
    if k > 0 { StartClosed(m, t, k - 1); }
  }

  lemma StepFits(n: int, m: int, folds: int, k: nat, t: int)
    requires SizeFits(n - m, folds, t) && k < folds && Start(m, t, k) < n
    ensures Start(m, t, k + 1) <= n && k + 1 <= n - m
  {
    StartClosed(m, t, k);
    StartClosed(m, t, k + 1);
    if n - m >= folds {
      Mono(k + 1, folds, t);
    }
  }

  lemma LastFold(n: int, m: int, folds: int, k: nat, t: int)
    requires n > m && folds >= 2 && k <= folds && SizeFits(n - m, folds, t)
    requires Start(m, t, k) <= n && (k == folds || Start(m, t, k) >= n)
    ensures k > 0 && (k < folds ==> Start(m, t, k) == n)
    ensures k == if n - m < folds then n - m else folds
  {
    StartClosed(m, t, k);
    if k < folds && n - m >= folds {
      Mono(k + 1, folds, t);
    }
  }

  lemma Mono(a: int, b: int, t: int)
    requires a <= b && t >= 0
    ensures a * t <= b * t
  {
  }

  /** Every training index precedes every test index of its fold, and test indices
      are real sample indices, exactly when the training size is not negative; then
      sliding folds train on exactly `m` samples. The source does not reject a
      negative size. */
  lemma TrainPrecedesTest(n: int, m: int, sliding: bool, fs: seq<Fold>)
    requires m < n && Partitions(fs, m, n) && TrainStarts(fs, m, sliding)
    ensures m >= 0 <==> forall k :: 0 <= k < |fs| ==> 0 <= fs[k].trainStart <= fs[k].testStart && fs[k].testEnd <= n
    ensures m >= 0 && sliding ==> forall k :: 0 <= k < |fs| ==> fs[k].testStart - fs[k].trainStart == m
    ensures forall k :: 0 <= k < |fs| ==> fs[k].testStart < fs[k].testEnd
    ensures forall j, k :: 0 <= j < k < |fs| ==> fs[j].testEnd <= fs[k].testStart
    ensures forall x :: m <= x < n ==> Tested(fs, x)
  {
    forall k | 0 <= k < |fs|
      ensures m <= fs[k].testStart < fs[k].testEnd <= n
      ensures forall j :: k < j < |fs| ==> fs[k].testEnd <= fs[j].testStart
    {
      FoldInRange(fs, m, n, k);
    }
    FirstFold(fs, m, n);
    forall x | m <= x < n ensures Tested(fs, x) {
      Covered(fs, m, n, x);
    }
  }

  lemma {:induction false} FirstFold(fs: seq<Fold>, lo: int, hi: int)
    requires Partitions(fs, lo, hi) && lo < hi
    ensures |fs| > 0 && fs[0].testStart == lo
  {
    if |fs| > 1 {
      FoldInRange(fs[..|fs| - 1], lo, fs[|fs| - 1].testStart, 0);
      FirstFold(fs[..|fs| - 1], lo, fs[|fs| - 1].testStart);
    }
  }

  lemma {:induction false} FoldInRange(fs: seq<Fold>, lo: int, hi: int, k: nat)
    requires Partitions(fs, lo, hi) && k < |fs|
    ensures lo <= fs[k].testStart < fs[k].testEnd <= hi
    ensures forall j :: k < j < |fs| ==> fs[k].testEnd <= fs[j].testStart
  {
    var rest, last := fs[..|fs| - 1], fs[|fs| - 1];
    if k < |rest| {
      FoldInRange(rest, lo, last.testStart, k);
    } else if rest != [] {
      FoldInRange(rest, lo, last.testStart, 0);
    }
  }

  lemma {:induction false} Covered(fs: seq<Fold>, lo: int, hi: int, x: int)
    requires Partitions(fs, lo, hi) && lo <= x < hi
    ensures Tested(fs, x)
  {
    var rest, last := fs[..|fs| - 1], fs[|fs| - 1];
    if x < last.testStart {
      Covered(rest, lo, last.testStart, x);
      var k :| 0 <= k < |rest| && rest[k].testStart <= x < rest[k].testEnd;
      assert fs[k] == rest[k];
    }
  }

  /** The default training size is the largest share that leaves as much for each fold, but at
      least one sample per fold; a given size is taken as it is. */
  lemma TrainSizeIs(n: int, folds: int, minTrain: Option<int>)
    requires folds >= 2 && n >= 0
    ensures var m := TrainSize(n, folds, minTrain);
            if minTrain.Some? then m == minTrain.value
            else m >= folds && (m * (folds + 1) <= n || m == folds) && n < (m + 1) * (folds + 1)
  {
    if minTrain.None? {
      var q := n / (folds + 1);
      assert n == q * (folds + 1) + n % (folds + 1);
      Mono(q + 1, MaxInt(q, folds) + 1, folds + 1);
    }
  }

  /** Left to its default, the training size never triggers the "no test data" error. */
  lemma DefaultNeverFails(n: int, folds: int)
    requires folds >= 2 && n >= folds + 1
    ensures folds <= DefaultMinTrain(n, folds) < n
  {
    Mono(1, folds + 1, n / (folds + 1));
  }
}
