/**
 * The stride subsample of tts.js:136-146. When the sweep is longer than
 * `count`, an order-preserving filter walks it with a running threshold
 * `selectNext` that starts at 0: index `ix` is kept iff `ix > selectNext`,
 * and every keep advances the threshold by `selectEvery = N / count`.
 * The threshold is modelled with exact reals; a zero count gives the
 * JavaScript stride +Infinity, after which nothing more is kept.
 */
module Subsample {

  /** `Number(program.count)`: either NaN or an integer. */
  datatype CountArg = NaN | Number(value: int)

  /** The values the threshold and the stride can take. */
  datatype Bound = Finite(value: real) | PosInfinity

  function Plus(a: Bound, b: Bound): Bound {
    if a.Finite? && b.Finite? then Finite(a.value + b.value) else PosInfinity
  }

  /** JavaScript's `ix > selectNext`; nothing exceeds +Infinity. */
  predicate Exceeds(ix: nat, b: Bound) {
    b.Finite? && ix as real > b.value
  }

  /** `allOpts.length / count`, for a count the filter is entered with. */
  function Stride(n: nat, c: int): Bound {
    if c == 0 then PosInfinity else Finite(n as real / c as real)
  }

  /** The guard of tts.js:136: `allOpts.length > count`, false for NaN. */
  predicate Subsamples(n: nat, count: CountArg) {
    count.Number? && n > count.value
  }

  ghost predicate Increasing(kept: seq<nat>) {
    forall j, k :: 0 <= j < k < |kept| ==> kept[j] < kept[k]
  }

  /** The indices the filter keeps from position ix on, given the current
      threshold `next` and the stride `every`. */
  function Scan(n: nat, ix: nat, next: Bound, every: Bound): (kept: seq<nat>)
    ensures forall j :: 0 <= j < |kept| ==> ix <= kept[j] < n
    ensures Increasing(kept)
    ensures kept == [] || ix + |kept| <= n
    decreases n - ix
  {
    if ix >= n then []
    else if Exceeds(ix, next) then [ix] + Scan(n, ix + 1, Plus(next, every), every)
    else Scan(n, ix + 1, next, every)
  }

  /** The kept indices of the whole filter: the threshold starts at 0. */
  function KeptIndices(n: nat, c: int): seq<nat> {
    Scan(n, 0, Finite(0.0), Stride(n, c))
  }

  /** The elements of xs at the given positions, in that order. */
  function Pick<T>(xs: seq<T>, idx: seq<nat>): seq<T>
    requires forall j :: 0 <= j < |idx| ==> idx[j] < |xs|
  {
    seq(|idx|, j requires 0 <= j < |idx| => xs[idx[j]])
  }

  /** What `allOpts` is after line 146. */
  function Subsampled<T>(opts: seq<T>, count: CountArg): (r: seq<T>)
    ensures |r| <= |opts|
    ensures !Subsamples(|opts|, count) ==> r == opts
  {
    if Subsamples(|opts|, count) then Pick(opts, KeptIndices(|opts|, count.value)) else opts
  }

  /** The filter of tts.js:136-146, walking the options once and keeping
      those whose index exceeds the running threshold. */
  method Subsample<T>(allOpts: seq<T>, count: CountArg) returns (opts: seq<T>)
    ensures opts == Subsampled(allOpts, count)
  {
    opts := allOpts;
    var n := |allOpts|;
    if count.Number? && n > count.value {
      var selectEvery := Stride(n, count.value);
      var selectNext := Finite(0.0);
      var kept: seq<T> := [];
      ghost var keptIx: seq<nat> := [];
      for ix := 0 to n
        invariant keptIx + Scan(n, ix, selectNext, selectEvery) == KeptIndices(n, count.value)
        invariant forall j :: 0 <= j < |keptIx| ==> keptIx[j] < ix
        invariant kept == Pick(allOpts, keptIx)
      {
        if Exceeds(ix, selectNext) {
          selectNext := Plus(selectNext, selectEvery);
          kept := kept + [allOpts[ix]];
          keptIx := keptIx + [ix];
        }
      }
      opts := kept;
    }
  }

  // ---- The filter's result in closed form ----

  /** The threshold after k keeps: k times the stride, exactly. */
  function Threshold(k: nat, n: nat, c: int): Bound
    requires c > 0
  {
    Finite((k * n) as real / c as real)
  }

  /** The index the filter keeps k-th (counting from 0): floor(k*n/c) + 1. */
  function KthKept(k: nat, n: nat, c: int): nat
    requires c > 0
  {
    (k * n) / c + 1
  }

  lemma ThresholdStep(k: nat, n: nat, c: int)
    requires c > 0
    ensures Plus(Threshold(k, n, c), Stride(n, c)) == Threshold(k + 1, n, c)
  {
    var a := (k * n) as real;
    var x := n as real;
    var cc := c as real;
    assert ((k + 1) * n) as real == a + x;
    assert a / cc + x / cc == (a + x) / cc;
  }

  lemma ThresholdZero(n: nat, c: int)
    requires c > 0
    ensures Threshold(0, n, c) == Finite(0.0)
  {
  }

  /** `ix > k*n/c` over the reals is the integer test `ix*c > k*n`. */
  lemma ExceedsIff(ix: nat, k: nat, n: nat, c: int)
    requires c > 0
    ensures Exceeds(ix, Threshold(k, n, c)) <==> ix * c > k * n
  {
    var a := (k * n) as real;
    var cc := c as real;
    var x := ix as real;
    assert x > a / cc <==> x * cc > a;
    assert (ix * c) as real == x * cc;
  }

  lemma DivBounds(a: nat, c: int)
    requires c > 0
    ensures (a / c) * c <= a < (a / c + 1) * c
  {
  }

  lemma KthAbove(k: nat, n: nat, c: int)
    requires c > 0
    ensures KthKept(k, n, c) * c > k * n
  {
    DivBounds(k * n, c);
  }

  lemma BelowKth(ix: nat, k: nat, n: nat, c: int)
    requires c > 0 && ix < KthKept(k, n, c)
    ensures ix * c <= k * n
  {
    var q := (k * n) / c;
    DivBounds(k * n, c);
    assert ix <= q;
    assert ix * c <= q * c;
  }

  lemma KthGrows(k: nat, n: nat, c: int)
    requires 0 < c < n
    ensures KthKept(k + 1, n, c) > KthKept(k, n, c)
  {
    var a := k * n;
    var q := a / c;
    var b := (k + 1) * n;
    assert b == a + n;
    DivBounds(a, c);
    DivBounds(b, c);
  }

  lemma KthInRange(k: nat, n: nat, c: int)
    requires 0 < c < n && k < c
    ensures KthKept(k, n, c) < n
  {
    var a := k * n;
    var q := a / c;
    DivBounds(a, c);
    MulMono(k, c - 1, n);
    if q >= n - 1 {
      MulMono(n - 1, q, c);
      assert false;
    }
  }

  lemma MulMono(x: nat, y: nat, z: nat)
    requires x <= y
    ensures x * z <= y * z
  {
  }

  lemma {:induction false} ScanClosedForm(n: nat, c: int, ix: nat, k: nat)
    requires 0 < c < n && k <= c
    requires k < c ==> ix <= KthKept(k, n, c)
    ensures Scan(n, ix, Threshold(k, n, c), Stride(n, c)) == seq(c - k, j requires 0 <= j < c - k => KthKept(k + j, n, c))
    decreases n - ix
  {
    var goal := seq(c - k, j requires 0 <= j < c - k => KthKept(k + j, n, c));
    if k < c {
      KthInRange(k, n, c);
    }
    if ix >= n {
      assert k == c;
    } else if k == c {
      ExceedsIff(ix, c, n, c);
      assert ix * c < c * n;
      ScanClosedForm(n, c, ix + 1, c);
    } else if ix < KthKept(k, n, c) {
      ExceedsIff(ix, k, n, c);
      BelowKth(ix, k, n, c);
      ScanClosedForm(n, c, ix + 1, k);
    } else {
      ExceedsIff(ix, k, n, c);
      KthAbove(k, n, c);
      ThresholdStep(k, n, c);
      KthGrows(k, n, c);
      ScanClosedForm(n, c, ix + 1, k + 1);
      var rest := seq(c - (k + 1), j requires 0 <= j < c - (k + 1) => KthKept(k + 1 + j, n, c));
      assert [ix] + rest == goal;
    }
  }

  /** Exact count: for an integer count c with 1 <= c < N, exactly c options
      survive and the k-th of them is the one at index floor(k*N/c) + 1. */
  lemma ExactCount<T>(opts: seq<T>, c: int)
    requires 1 <= c < |opts|
    ensures |Subsampled(opts, Number(c))| == c
    ensures forall k :: 0 <= k < c ==>
      KthKept(k, |opts|, c) < |opts| && Subsampled(opts, Number(c))[k] == opts[KthKept(k, |opts|, c)]
  {
    var n := |opts|;
    ThresholdZero(n, c);
    ScanClosedForm(n, c, 0, 0);
    assert KeptIndices(n, c) == seq(c, j requires 0 <= j < c => KthKept(j, n, c));
  }

  /** Subsequence: whenever the filter runs, the result is the options at
      strictly increasing source indices, and index 0 is never among them
      because the first test is 0 > 0. */
  lemma SubsampleIsSubsequence<T>(opts: seq<T>, count: CountArg)
    requires Subsamples(|opts|, count)
    ensures var kept := KeptIndices(|opts|, count.value);
      Increasing(kept)
      && (forall j :: 0 <= j < |kept| ==> 1 <= kept[j] < |opts|)
      && |Subsampled(opts, count)| == |kept|
      && (forall j :: 0 <= j < |kept| ==> Subsampled(opts, count)[j] == opts[kept[j]])
  {
    var n := |opts|;
    if n > 0 {
      assert !Exceeds(0, Finite(0.0));
      assert KeptIndices(n, count.value) == Scan(n, 1, Finite(0.0), Stride(n, count.value));
    }
  }

  lemma {:induction false} ScanAllFrom(n: nat, ix: nat, t: real, e: real)
    requires 1 <= ix <= n && t <= 0.0 && e <= 0.0
    ensures Scan(n, ix, Finite(t), Finite(e)) == seq(n - ix, j requires 0 <= j < n - ix => ix + j)
    decreases n - ix
  {
    if ix < n {
      ScanAllFrom(n, ix + 1, t + e, e);
      assert [ix] + seq(n - (ix + 1), j requires 0 <= j < n - (ix + 1) => ix + 1 + j)
          == seq(n - ix, j requires 0 <= j < n - ix => ix + j);
    }
  }

  lemma {:induction false} ScanNoneFrom(n: nat, ix: nat)
    ensures Scan(n, ix, PosInfinity, PosInfinity) == []
    decreases n - ix
  {
    if ix < n {
      ScanNoneFrom(n, ix + 1);
    }
  }

  /** A negative count makes the stride negative: after index 0 fails the
      first test, the threshold only falls, so every later option is kept. */
  lemma NegativeCount<T>(opts: seq<T>, c: int)
    requires c < 0 && |opts| >= 1
    ensures Subsampled(opts, Number(c)) == opts[1..]
  {
    var n := |opts|;
    assert n as real / c as real <= 0.0;
    assert !Exceeds(0, Finite(0.0));
    ScanAllFrom(n, 1, 0.0, n as real / c as real);
  }

  /** A zero count makes the stride +Infinity: only index 1 is kept. */
  lemma ZeroCount<T>(opts: seq<T>)
    requires |opts| >= 2
    ensures Subsampled(opts, Number(0)) == [opts[1]]
  {
    var n := |opts|;
    assert !Exceeds(0, Finite(0.0)) && Exceeds(1, Finite(0.0));
    assert Plus(Finite(0.0), PosInfinity) == PosInfinity;
    ScanNoneFrom(n, 2);
    assert Scan(n, 1, Finite(0.0), PosInfinity) == [1] + Scan(n, 2, PosInfinity, PosInfinity);
    assert KeptIndices(n, 0) == Scan(n, 1, Finite(0.0), PosInfinity);
  }
}
