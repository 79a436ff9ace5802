/** Samples of the farm, and averages of them. */
module Samples {
  import opened Wrappers

  /** What was measured at one moment, in microseconds since the epoch; a missing figure counts as nought. */
  datatype Sample = Sample(at: int, ths: Option<real>, online: Option<real>, offline: Option<real>,
                           total: Option<real>, kw: Option<real>)

  datatype Metric = Ths | Online | Offline | Total | Kw

  function OrNought(x: Option<real>): real {
    if x.Some? then x.value else 0.0
  }

  function Value(s: Sample, m: Metric): real {
    match m
    case Ths => OrNought(s.ths)
    case Online => OrNought(s.online)
    case Offline => OrNought(s.offline)
    case Total => OrNought(s.total)
    case Kw => OrNought(s.kw)
  }

  function Sum(samples: seq<Sample>, m: Metric): real {
    if |samples| == 0 then 0.0 else Sum(samples[..|samples| - 1], m) + Value(samples[|samples| - 1], m)
  }

  function Mean(samples: seq<Sample>, m: Metric): real
    requires samples != []
  {
    Sum(samples, m) / |samples| as real
  }

  /** The average of one sample is that sample. */
  lemma MeanOfOne(s: Sample)
    ensures Mean([s], Ths) == OrNought(s.ths) && Mean([s], Online) == OrNought(s.online)
    ensures Mean([s], Offline) == OrNought(s.offline) && Mean([s], Total) == OrNought(s.total)
    ensures Mean([s], Kw) == OrNought(s.kw)
  {
    forall m ensures Sum([s], m) == Value(s, m) {
      assert [s][..0] == [];
      assert Sum([], m) == 0.0;
    }
  }

  /** `samples` as one sample at the moment `at`. */
  function Averaged(at: int, samples: seq<Sample>): Sample
    requires samples != []
  {
    Sample(at, Some(Mean(samples, Ths)), Some(Mean(samples, Online)), Some(Mean(samples, Offline)),
           Some(Mean(samples, Total)), Some(Mean(samples, Kw)))
  }

  /** `x` added up `n` times. */
  function Repeated(x: real, n: nat): real {
    if n == 0 then 0.0 else Repeated(x, n - 1) + x
  }

  lemma {:induction false} RepeatedIsProduct(x: real, n: nat)
    ensures Repeated(x, n) == x * n as real
  {
    if n > 0 {
      RepeatedIsProduct(x, n - 1);
      var before := (n - 1) as real;
      assert n as real == before + 1.0 && x * (before + 1.0) == x * before + x;
    }
  }

  lemma {:induction false} SumBetween(samples: seq<Sample>, m: Metric, lo: real, hi: real)
    requires forall s :: s in samples ==> lo <= Value(s, m) <= hi
    ensures Repeated(lo, |samples|) <= Sum(samples, m) <= Repeated(hi, |samples|)
  {
    if |samples| > 0 {
      var init, last := samples[..|samples| - 1], samples[|samples| - 1];
      assert samples == init + [last];
      SumBetween(init, m, lo, hi);
    }
  }

  lemma NotPositive(a: real, n: real)
    requires n > 0.0 && a * n <= 0.0
    ensures a <= 0.0
  {
  }

  lemma Quotient(x: real, n: real, lo: real, hi: real)
    requires n > 0.0 && lo * n <= x <= hi * n
    ensures lo <= x / n <= hi
  {
    var y := x / n;
    assert x == y * n;
    assert (lo - y) * n == lo * n - y * n && (y - hi) * n == y * n - hi * n;
    NotPositive(lo - y, n);
    NotPositive(y - hi, n);
  }

  /** An average lies between the least and the greatest of what it averages. */
  lemma MeanBetween(samples: seq<Sample>, m: Metric, lo: real, hi: real)
    requires samples != [] && forall s :: s in samples ==> lo <= Value(s, m) <= hi
    ensures lo <= Mean(samples, m) <= hi
  {
    SumBetween(samples, m, lo, hi);
    RepeatedIsProduct(lo, |samples|);
    RepeatedIsProduct(hi, |samples|);
    Quotient(Sum(samples, m), |samples| as real, lo, hi);
  }

  /** An average counted as many times as it has samples. */
  function Weight(samples: seq<Sample>, m: Metric): (w: real)
    requires samples != []
    ensures w == Sum(samples, m)
  {
    Mean(samples, m) * |samples| as real
  }

  lemma {:induction false} SumConcat(a: seq<Sample>, b: seq<Sample>, m: Metric)
    ensures Sum(a + b, m) == Sum(a, m) + Sum(b, m)
  {
    if |b| == 0 {
      assert a + b == a;
    } else {
      var init := b[..|b| - 1];
      assert (a + b)[..|a + b| - 1] == a + init;
      SumConcat(a, init, m);
    }
  }
}
