/** A container's samples thinned out to 300 points. */
module ContainerChart {
  import opened Numeric
  import opened Samples
  import opened Floats
  import opened Wrappers

  const CHUNKS := 300
  const FULL_LENGTH := 400

  /** Where each chunk of a series begins, and where the last one ends. */
  type Bounds = nat -> nat

  /** The bounds grow from nought, and only the last of them may reach the end of a series of `n` points. */
  ghost predicate Grows(b: Bounds, n: nat) {
    && b(0) == 0 && b(CHUNKS - 1) < n
    && forall i :: 0 <= i < CHUNKS ==> b(i) < b(i + 1)
  }

  /** A slice that would end beyond the series ends with it. */
  function Cut(b: Bounds, n: nat, i: nat): nat {
    if b(i) < n then b(i) else n
  }

  lemma {:induction false} BoundsInOrder(b: Bounds, n: nat, i: nat, j: nat)
    requires Grows(b, n) && i < j <= CHUNKS
    ensures b(i) < b(j)
  {
    assert b(j - 1) < b(j);
    if i < j - 1 {
      BoundsInOrder(b, n, i, j - 1);
    }
  }

  lemma CutsInOrder(b: Bounds, n: nat, i: nat, j: nat)
    requires Grows(b, n) && i < j <= CHUNKS
    ensures Cut(b, n, i) == b(i) < Cut(b, n, j) <= n
  {
    BoundsInOrder(b, n, i, j);
    if i < CHUNKS - 1 {
      BoundsInOrder(b, n, i, CHUNKS - 1);
    }
  }

  /** The points from `lo` to `hi`, and the last point of all if there are none. */
  function Chunk(pts: seq<Sample>, lo: nat, hi: nat): (c: seq<Sample>)
    requires lo <= hi <= |pts| && pts != []
    ensures c != []
    ensures lo < hi ==> c == pts[lo..hi]
  {
    if pts[lo..hi] == [] then [pts[|pts| - 1]] else pts[lo..hi]
  }

  function Chunks(pts: seq<Sample>, b: Bounds, k: nat): (chunks: seq<seq<Sample>>)
    requires Grows(b, |pts|) && k <= CHUNKS
    ensures |chunks| == k && forall i :: 0 <= i < k ==> chunks[i] != []
  {
    if k == 0 then []
    else
      CutsInOrder(b, |pts|, k - 1, k);
      Chunks(pts, b, k - 1) + [Chunk(pts, Cut(b, |pts|, k - 1), Cut(b, |pts|, k))]
  }

  function Thinned(chunk: seq<Sample>): Sample
    requires chunk != []
  {
    Averaged(chunk[|chunk| / 2].at, chunk)
  }

  /** A point is at the time of its middle sample: as many come before as after, or one more. */
  lemma ThinnedIsMedian(chunk: seq<Sample>)
    requires chunk != []
    ensures exists m :: 0 <= m < |chunk| && Thinned(chunk).at == chunk[m].at && 0 <= m - (|chunk| - 1 - m) <= 1
  {
    assert Thinned(chunk).at == chunk[|chunk| / 2].at;
  }

  /** A chunk of one sample is shown as it is, nought for a missing figure. */
  lemma ThinnedOfOne(s: Sample)
    ensures Thinned([s]) == Sample(s.at, Some(OrNought(s.ths)), Some(OrNought(s.online)), Some(OrNought(s.offline)),
                                   Some(OrNought(s.total)), Some(OrNought(s.kw)))
  {
    MeanOfOne(s);
  }

  function Joined(chunks: seq<seq<Sample>>): seq<Sample> {
    if |chunks| == 0 then [] else Joined(chunks[..|chunks| - 1]) + chunks[|chunks| - 1]
  }

  lemma {:induction false} JoinOneMore(chunks: seq<seq<Sample>>, chunk: seq<Sample>)
    ensures Joined(chunks + [chunk]) == Joined(chunks) + chunk
  {
    assert (chunks + [chunk])[..|chunks|] == chunks;
  }

  lemma {:induction false} JoinSlice(chunks: seq<seq<Sample>>, pts: seq<Sample>, lo: nat, hi: nat)
    requires lo < hi <= |pts| && Joined(chunks) == pts[..lo]
    ensures Joined(chunks + [Chunk(pts, lo, hi)]) == pts[..hi]
  {
    JoinOneMore(chunks, Chunk(pts, lo, hi));
    assert pts[..hi] == pts[..lo] + pts[lo..hi];
  }

  /** The chunks put end to end are the series up to the last bound. */
  lemma {:induction false} ChunksJoin(pts: seq<Sample>, b: Bounds, k: nat)
    requires Grows(b, |pts|) && k <= CHUNKS
    ensures Joined(Chunks(pts, b, k)) == pts[..Cut(b, |pts|, k)]
  {
    if k > 0 {
      ChunksJoin(pts, b, k - 1);
      CutsInOrder(b, |pts|, k - 1, k);
      JoinSlice(Chunks(pts, b, k - 1), pts, Cut(b, |pts|, k - 1), Cut(b, |pts|, k));
    }
  }

  /** Whatever the bounds, the chunks are the whole series exactly when the last bound reaches its end. */
  lemma {:induction false} ChunksCoverIff(pts: seq<Sample>, b: Bounds)
    requires Grows(b, |pts|)
    ensures Joined(Chunks(pts, b, CHUNKS)) == pts <==> b(CHUNKS) >= |pts|
  {
    ChunksJoin(pts, b, CHUNKS);
    assert pts[..|pts|] == pts;
  }

  /** Every chunk is a slice that is not empty, so that none is the stand-in for an empty one. */
  lemma {:induction false} ChunkAt(pts: seq<Sample>, b: Bounds, k: nat, i: nat)
    requires Grows(b, |pts|) && i < k <= CHUNKS
    ensures Cut(b, |pts|, i) < Cut(b, |pts|, i + 1) <= |pts|
    ensures Chunks(pts, b, k)[i] == pts[Cut(b, |pts|, i)..Cut(b, |pts|, i + 1)]
  {
    CutsInOrder(b, |pts|, i, i + 1);
    if i < k - 1 {
      ChunkAt(pts, b, k - 1, i);
    }
  }

  /** The thinned points, each counted as many times as it stands for. */
  function Weights(chunks: seq<seq<Sample>>, m: Metric): real
    requires forall i :: 0 <= i < |chunks| ==> chunks[i] != []
  {
    if |chunks| == 0 then 0.0 else Weights(chunks[..|chunks| - 1], m) + Weight(chunks[|chunks| - 1], m)
  }

  lemma {:induction false} WeightsAddUp(chunks: seq<seq<Sample>>, m: Metric)
    requires forall i :: 0 <= i < |chunks| ==> chunks[i] != []
    ensures Weights(chunks, m) == Sum(Joined(chunks), m)
  {
    if |chunks| > 0 {
      WeightsAddUp(chunks[..|chunks| - 1], m);
      SumConcat(Joined(chunks[..|chunks| - 1]), chunks[|chunks| - 1], m);
    }
  }

  /** Each thinned point counted as many times as it stands for, they add up to the series up to the last bound. */
  lemma {:induction false} ThinningConserves(pts: seq<Sample>, b: Bounds, m: Metric)
    requires Grows(b, |pts|)
    ensures Weights(Chunks(pts, b, CHUNKS), m) == Sum(pts[..Cut(b, |pts|, CHUNKS)], m)
    ensures b(CHUNKS) >= |pts| ==> Weights(Chunks(pts, b, CHUNKS), m) == Sum(pts, m)
  {
    WeightsAddUp(Chunks(pts, b, CHUNKS), m);
    ChunksJoin(pts, b, CHUNKS);
    assert pts[..|pts|] == pts;
  }

  lemma MiddlesInOrder(pts: seq<Sample>, lo: nat, mid: nat, mid': nat, hi: nat)
    requires lo < mid <= mid' < hi <= |pts|
    requires forall p, q :: 0 <= p < q < |pts| ==> pts[p].at < pts[q].at
    ensures Thinned(pts[lo..mid]).at < Thinned(pts[mid'..hi]).at
  {
    var a, b := pts[lo..mid], pts[mid'..hi];
    assert a[|a| / 2] == pts[lo + |a| / 2] && b[|b| / 2] == pts[mid' + |b| / 2];
  }

  /** Thinned points are in order of time, as the series was. */
  lemma {:induction false} ThinnedInOrder(pts: seq<Sample>, b: Bounds, i: nat, j: nat)
    requires Grows(b, |pts|) && i < j < CHUNKS
    requires forall p, q :: 0 <= p < q < |pts| ==> pts[p].at < pts[q].at
    ensures var chunks := Chunks(pts, b, CHUNKS); Thinned(chunks[i]).at < Thinned(chunks[j]).at
  {
    var n := |pts|;
    ChunkAt(pts, b, CHUNKS, i);
    ChunkAt(pts, b, CHUNKS, j);
    if i + 1 < j {
      CutsInOrder(b, n, i + 1, j);
    }
    MiddlesInOrder(pts, Cut(b, n, i), Cut(b, n, i + 1), Cut(b, n, j), Cut(b, n, j + 1));
  }

  // ---------- the bounds of the program ----------

  /** A three-hundredth of the length, in double precision. */
  function Step(n: nat): (step: real)
    requires n > FULL_LENGTH
    ensures step > 1.33
    ensures n as real / 300.0 - n as real / 300.0 / TWO_POW_53 <= step
    ensures step <= n as real / 300.0 + n as real / 300.0 / TWO_POW_53
  {
    DoubleIsNear(n as real / 300.0);
    Double(n as real / 300.0)
  }

  function Product(i: nat, step: real): real {
    step * i as real
  }

  /** `i` steps. */
  function Steps(n: nat, i: nat): real
    requires n > FULL_LENGTH
  {
    Product(i, Step(n))
  }

  lemma StepsAreLong(n: nat, i: nat)
    requires n > FULL_LENGTH
    ensures if i == 0 then Steps(n, i) == 0.0 else Steps(n, i) >= 1.33
  {
    if i > 0 {
      Scales(1.0, i as real, Step(n));
    }
  }

  lemma {:induction false} RepeatedGrows(step: real, i: nat, j: nat)
    requires i <= j && step > 0.0
    ensures 0.0 <= Repeated(step, i) <= Repeated(step, j)
  {
    if i < j {
      RepeatedGrows(step, i, j - 1);
    } else if i > 0 {
      RepeatedGrows(step, i - 1, i - 1);
    }
  }

  lemma {:induction false} ProductIsRepeated(i: nat, step: real)
    ensures Product(i, step) == Repeated(step, i)
    ensures i == 299 ==> Product(i, step) == 299.0 * step
  {
    RepeatedIsProduct(step, i);
  }

  lemma Multiples(i: nat, step: real)
    requires i < CHUNKS && step > 0.0
    ensures Product(i + 1, step) == Product(i, step) + step
    ensures 0.0 <= Product(i, step) <= 299.0 * step
  {
    ProductIsRepeated(i, step);
    ProductIsRepeated(i + 1, step);
    RepeatedGrows(step, i, 299);
    ProductIsRepeated(299, step);
  }

  /** The whole part of a number in double precision. */
  function WholeOf(x: real): (w: nat)
    requires x == 0.0 || x >= 1.0
    ensures x - x / TWO_POW_53 - 1.0 < w as real <= x + x / TWO_POW_53
  {
    DoubleIsNear(x);
    Double(x).Floor
  }

  lemma WholesGrow(step: real, x: real, y: real)
    requires step > 1.33 && (x == 0.0 || 1.0 <= x) && x <= 299.0 * step && y == x + step
    ensures WholeOf(x) < WholeOf(y)
  {
    assert y - y / TWO_POW_53 > x + x / TWO_POW_53 + 1.0;
  }

  /** The whole part of `i` steps, multiplied in double precision: where chunk `i` begins. */
  function Bound(n: nat, i: nat): nat
    requires n > FULL_LENGTH
  {
    StepsAreLong(n, i);
    WholeOf(Steps(n, i))
  }

  function ProgramBounds(n: nat): Bounds
    requires n > FULL_LENGTH
  {
    (i: nat) => Bound(n, i)
  }

  lemma NextBound(n: nat, i: nat)
    requires n > FULL_LENGTH && i < CHUNKS
    ensures Bound(n, i) < Bound(n, i + 1)
  {
    StepsAreLong(n, i);
    Multiples(i, Step(n));
    WholesGrow(Step(n), Steps(n, i), Steps(n, i + 1));
  }

  lemma LastIsBelow(length: real, step: real, x: real)
    requires 0.0 < length && step <= length / 300.0 + length / 300.0 / TWO_POW_53 && x == step * 299.0
    ensures x + x / TWO_POW_53 < length
  {
  }

  lemma LastBegins(n: nat)
    requires n > FULL_LENGTH
    ensures Bound(n, 0) == 0 && Bound(n, CHUNKS - 1) < n
  {
    StepsAreLong(n, CHUNKS - 1);
    LastIsBelow(n as real, Step(n), Steps(n, CHUNKS - 1));
  }

  /** The program's bounds grow for every length: no chunk is empty. */
  lemma ProgramBoundsGrow(n: nat)
    requires n > FULL_LENGTH
    ensures Grows(ProgramBounds(n), n)
  {
    forall i | 0 <= i < CHUNKS ensures Bound(n, i) < Bound(n, i + 1) {
      NextBound(n, i);
    }
    LastBegins(n);
  }

  /**
   The program's chunks are the whole series exactly when 300 steps, as the machine multiplies them, come to
   its length.
   */
  lemma {:induction false} ProgramCoversIff(pts: seq<Sample>)
    requires |pts| > FULL_LENGTH
    ensures Grows(ProgramBounds(|pts|), |pts|)
    ensures Joined(Chunks(pts, ProgramBounds(|pts|), CHUNKS)) == pts <==> Bound(|pts|, CHUNKS) >= |pts|
  {
    ProgramBoundsGrow(|pts|);
    ChunksCoverIff(pts, ProgramBounds(|pts|));
  }

  /** Of a series of any length that fits in memory the program's chunks miss the newest sample at most. */
  lemma NewestMissedAtMost(n: nat)
    requires FULL_LENGTH < n < 0x8_0000_0000_0000
    ensures n - 1 <= Bound(n, CHUNKS) <= n
  {
  }

  /** In exact fractions the last bound would always be the length. */
  function ExactBounds(n: nat): Bounds {
    (i: nat) => i * n / CHUNKS
  }

  lemma ExactBoundsReachTheEnd(n: nat)
    requires n > FULL_LENGTH
    ensures Grows(ExactBounds(n), n) && ExactBounds(n)(CHUNKS) == n
  {
    forall i | 0 <= i < CHUNKS ensures ExactBounds(n)(i) < ExactBounds(n)(i + 1) {
      assert (i + 1) * n == i * n + n;
    }
  }

  /** So in exact fractions the chunks would always be the whole series. */
  lemma {:induction false} ExactChunksCoverSeries(pts: seq<Sample>)
    requires |pts| > FULL_LENGTH
    ensures Grows(ExactBounds(|pts|), |pts|)
    ensures Joined(Chunks(pts, ExactBounds(|pts|), CHUNKS)) == pts
  {
    ExactBoundsReachTheEnd(|pts|);
    ChunksCoverIff(pts, ExactBounds(|pts|));
  }

  // ---------- a series that loses its newest sample ----------

  lemma {:induction false} UlpBelow512(x: real)
    requires 256.0 <= x < 512.0
    ensures Ulp(x) == 256.0 / TWO_POW_52
  {
    assert Ulp(x / 256.0) == 1.0 / TWO_POW_52;
    assert Ulp(x / 128.0) == 2.0 * Ulp(x / 256.0);
    assert Ulp(x / 64.0) == 2.0 * Ulp(x / 128.0);
    assert Ulp(x / 32.0) == 2.0 * Ulp(x / 64.0);
    assert Ulp(x / 16.0) == 2.0 * Ulp(x / 32.0);
    assert Ulp(x / 8.0) == 2.0 * Ulp(x / 16.0);
    assert Ulp(x / 4.0) == 2.0 * Ulp(x / 8.0);
    assert Ulp(x / 2.0) == 2.0 * Ulp(x / 4.0);
  }

  lemma StepOf417()
    ensures Step(417) == 6_260_003_482_044_989.0 / TWO_POW_52
  {
    var x := 417.0 / 300.0;
    assert Ulp(x) == 1.0 / TWO_POW_52;
    assert RoundHalfEven(x / Ulp(x)) == 6_260_003_482_044_989;
  }

  /** Of 417 samples the last is in no chunk: the machine makes 300 steps a little less than 417. */
  lemma NewestOf417IsMissed()
    ensures Bound(417, CHUNKS) == 416
  {
    StepOf417();
    StepsAreLong(417, CHUNKS);
    var x := Steps(417, CHUNKS);
    assert x == 300.0 * (6_260_003_482_044_989.0 / TWO_POW_52);
    UlpBelow512(x);
    assert RoundHalfEven(x / Ulp(x)) == 7_335_941_580_521_471;
    assert Double(x) == 7_335_941_580_521_471.0 * (256.0 / TWO_POW_52);
  }

  // ---------- the chart ----------

  /** Chunk `i` as the program slices it. */
  function ProgramChunk(pts: seq<Sample>, i: nat): (chunk: seq<Sample>)
    requires |pts| > FULL_LENGTH && i < CHUNKS
    ensures Grows(ProgramBounds(|pts|), |pts|) && chunk != []
    ensures chunk == Chunks(pts, ProgramBounds(|pts|), CHUNKS)[i]
  {
    var n := |pts|;
    ProgramBoundsGrow(n);
    ChunkAt(pts, ProgramBounds(n), CHUNKS, i);
    CutsInOrder(ProgramBounds(n), n, i, i + 1);
    var lo, hi := Bound(n, i), Bound(n, i + 1);
    Chunk(pts, lo, if hi < n then hi else n)
  }

  /** A short series as it is, a long one as the averages of its 300 chunks. */
  method ContainerHistory(pts: seq<Sample>) returns (out: seq<Sample>)
    ensures |pts| <= FULL_LENGTH ==> out == pts
    ensures |pts| > FULL_LENGTH ==>
              && Grows(ProgramBounds(|pts|), |pts|) && |out| == CHUNKS
              && forall i :: 0 <= i < CHUNKS ==> out[i] == Thinned(Chunks(pts, ProgramBounds(|pts|), CHUNKS)[i])
  {
    if |pts| <= FULL_LENGTH {
      return pts;
    }
    ProgramBoundsGrow(|pts|);
    out := [];
    for i := 0 to CHUNKS
      invariant |out| == i
      invariant forall j :: 0 <= j < i ==> out[j] == Thinned(Chunks(pts, ProgramBounds(|pts|), CHUNKS)[j])
    {
      out := out + [Thinned(ProgramChunk(pts, i))];
    }
  }
}
