/** The rate history shown in the chart: a window of the most recent samples. */
module HistoryWindow {

  /** One sampled rate. `rate` is in units of 1e-5, the precision the rate is
      rounded to; `unix` is the wall-clock time in milliseconds. */
  datatype Sample = Sample(time: string, rate: int, unix: int)

  /** The most samples the history ever keeps. */
  const Capacity: nat := 24

  function Min(a: int, b: int): int {
    if a <= b then a else b
  }

  /** `a.slice(-n)` for a positive `n`: the last `n` elements of `a`, or all of
      `a` when it is shorter. */
  function SliceLast<T>(a: seq<T>, n: nat): (r: seq<T>)
    ensures |r| == Min(|a|, n)
  {
    if |a| <= n then a else a[|a| - n..]
  }

  lemma SliceLastIsSuffix<T>(a: seq<T>, n: nat)
    ensures SliceLast(a, n) == a[|a| - Min(|a|, n)..]
  {
    if |a| <= n { assert a[0..] == a; }
  }

  /** One check's history update `[...prev.slice(-23), sample]`. */
  function Append(history: seq<Sample>, sample: Sample): (r: seq<Sample>)
    ensures |r| == Min(|history| + 1, Capacity) && |r| <= Capacity
    ensures r[|r| - 1] == sample
    ensures r[..|r| - 1] == history[|history| - (|r| - 1)..]
  {
    SliceLast(history, Capacity - 1) + [sample]
  }

  /** The buffer discipline the window follows: after an append, drop the
      oldest sample until at most Capacity are left. */
  function EvictOldest(s: seq<Sample>): seq<Sample>
    decreases |s|
  {
    if |s| <= Capacity then s else EvictOldest(s[1..])
  }

  /** Evicting from the head leaves the newest Capacity samples. */
  lemma {:induction false} EvictOldestKeepsNewest(s: seq<Sample>)
    ensures EvictOldest(s) == SliceLast(s, Capacity)
    decreases |s|
  {
    if |s| > Capacity {
      EvictOldestKeepsNewest(s[1..]);
      assert s[1..][|s| - 1 - Min(|s| - 1, Capacity)..] == s[|s| - Capacity..];
    }
  }

  /** The slice-and-append update is the first-in, first-out buffer: append
      at the tail, then evict from the head down to Capacity. */
  lemma AppendIsFifo(history: seq<Sample>, sample: Sample)
    ensures Append(history, sample) == EvictOldest(history + [sample])
  {
    var h := history + [sample];
    EvictOldestKeepsNewest(h);
    var k := |h| - Min(|h|, Capacity);
    SliceLastIsSuffix(h, Capacity);
    SliceLastIsSuffix(history, Capacity - 1);
    assert h[k..] == history[k..] + [sample];
  }

  /** One check keeps the newest Capacity samples of the old history and the new one. */
  lemma AppendKeepsNewest(history: seq<Sample>, sample: Sample)
    ensures Append(history, sample) == SliceLast(history + [sample], Capacity)
  {
    AppendIsFifo(history, sample);
    EvictOldestKeepsNewest(history + [sample]);
  }

  lemma SplitFirst<T>(a: seq<T>, b: seq<T>)
    requires b != []
    ensures a + [b[0]] + b[1..] == a + b
  {
    assert [b[0]] + b[1..] == b;
  }

  /** The history after a series of checks, oldest sample first. */
  function AppendAll(history: seq<Sample>, samples: seq<Sample>): seq<Sample>
    decreases |samples|
  {
    if samples == [] then history else AppendAll(Append(history, samples[0]), samples[1..])
  }

  /** Taking the last `n` twice, with more appended in between, is taking the
      last `n` once. */
  lemma SliceLastOfSliceLast<T>(a: seq<T>, b: seq<T>, n: nat)
    ensures SliceLast(SliceLast(a, n) + b, n) == SliceLast(a + b, n)
  {
    var l := SliceLast(a, n);
    var x := SliceLast(l + b, n);
    var y := SliceLast(a + b, n);
    assert |x| == |y|;
    forall k | 0 <= k < |x| ensures x[k] == y[k] {
      var i := |l + b| - |x| + k;
      var j := |a + b| - |y| + k;
      if i < |l| {
        assert x[k] == l[i] == a[|a| - |l| + i];
        assert j == |a| - |l| + i;
      } else {
        assert x[k] == b[i - |l|];
      }
    }
  }

  /** However many checks run, the history is the newest Capacity samples of
      everything ever recorded, in the order they were taken. */
  lemma {:induction false} AppendAllKeepsNewest(history: seq<Sample>, samples: seq<Sample>)
    requires |history| <= Capacity
    ensures AppendAll(history, samples) == SliceLast(history + samples, Capacity)
    decreases |samples|
  {
    if samples == [] {
      assert history + samples == history;
    } else {
      var extended := history + [samples[0]];
      var next := Append(history, samples[0]);
      AppendAllKeepsNewest(next, samples[1..]);
      AppendKeepsNewest(history, samples[0]);
      calc {
        AppendAll(history, samples);
        AppendAll(next, samples[1..]);
        SliceLast(next + samples[1..], Capacity);
        SliceLast(SliceLast(extended, Capacity) + samples[1..], Capacity);
        { SliceLastOfSliceLast(extended, samples[1..], Capacity); }
        SliceLast(extended + samples[1..], Capacity);
        { SplitFirst(history, samples); }
        SliceLast(history + samples, Capacity);
      }
    }
  }

  /** Samples ordered by time, oldest first. */
  predicate UnixOrdered(s: seq<Sample>) {
    forall i, j :: 0 <= i < j < |s| ==> s[i].unix <= s[j].unix
  }

  lemma UnixOrderedSuffix(s: seq<Sample>, k: nat)
    requires UnixOrdered(s) && k <= |s|
    ensures UnixOrdered(s[k..])
  {
    forall i, j | 0 <= i < j < |s[k..]| ensures s[k..][i].unix <= s[k..][j].unix {
      assert s[k..][i] == s[k + i] && s[k..][j] == s[k + j];
    }
  }

  lemma UnixOrderedSnoc(s: seq<Sample>, x: Sample)
    requires UnixOrdered(s)
    requires s != [] ==> s[|s| - 1].unix <= x.unix
    ensures UnixOrdered(s + [x])
  {
    var t := s + [x];
    forall i, j | 0 <= i < j < |t| ensures t[i].unix <= t[j].unix {
      if j < |s| {
        assert t[i] == s[i] && t[j] == s[j];
      } else {
        assert t[i] == s[i] && t[j] == x;
        assert s[i].unix <= s[|s| - 1].unix;
      }
    }
  }

  /** A sample no older than the newest one keeps the history in time order.
      The code does not check this: it holds as long as the wall clock behind
      `Date.now()` is not set back between checks. */
  lemma AppendKeepsUnixOrder(history: seq<Sample>, sample: Sample)
    requires UnixOrdered(history)
    requires history != [] ==> history[|history| - 1].unix <= sample.unix
    ensures UnixOrdered(Append(history, sample))
  {
    var t := history + [sample];
    AppendKeepsNewest(history, sample);
    UnixOrderedSnoc(history, sample);
    SliceLastIsSuffix(t, Capacity);
    UnixOrderedSuffix(t, |t| - Min(|t|, Capacity));
  }
}
