/**
 * The first pass: the lengths of all records, their mean, and the two-sigma
 * accept-bounds derived from the mean and a standard deviation.
 */
module ReadLengths {
  import opened Results
  import opened Fasta

  /** Why no statistics can be derived: the input held no records. */
  datatype StatsError = NoReads

  /** A standard deviation: never negative. */
  type StdDev = r: real | 0.0 <= r

  /** Length statistics of one input, fixed before filtering starts. */
  datatype ReadLengthStats = ReadLengthStats(mean: real, sd: StdDev, minAllowed: real, maxAllowed: real)

  function Sum(xs: seq<real>): real
  {
    if |xs| == 0 then 0.0 else xs[0] + Sum(xs[1..])
  }

  /** Arithmetic mean; only defined for a non-empty list. */
  function Mean(xs: seq<real>): real
    requires |xs| > 0
  {
    Sum(xs) / (|xs| as real)
  }

  /** The lengths of all records, in input order; no records is an error, not an empty list. */
  function GetReadLengths(records: seq<Record>): (r: Result<seq<real>, StatsError>)
    ensures r.Err? <==> |records| == 0
    ensures r.Ok? ==> |r.value| == |records| > 0
    ensures r.Ok? ==> forall i :: 0 <= i < |records| ==> r.value[i] == |records[i].sq| as real
  {
    if |records| == 0 then Err(NoReads)
    else Ok(seq(|records|, i requires 0 <= i < |records| => |records[i].sq| as real))
  }

  /**
   * Statistics from a non-empty list of lengths and a standard deviation of
   * them: the accept-bounds lie two deviations either side of the mean.
   */
  function GetReadLengthStats(lengths: seq<real>, sd: StdDev): (s: ReadLengthStats)
    requires |lengths| > 0
    ensures s.mean == Mean(lengths) && s.sd == sd
    ensures s.minAllowed <= s.mean <= s.maxAllowed
    ensures s.maxAllowed - s.mean == s.mean - s.minAllowed == 2.0 * sd
    ensures s.minAllowed == s.maxAllowed <==> sd == 0.0
  {
    var mean := Mean(lengths);
    ReadLengthStats(mean, sd, mean - 2.0 * sd, mean + 2.0 * sd)
  }

  /** Both halves of the first pass: collect the lengths, then derive the statistics. */
  function NewStats(records: seq<Record>, sd: StdDev): (r: Result<ReadLengthStats, StatsError>)
    ensures r.Err? <==> |records| == 0
    ensures r.Ok? ==> r.value == GetReadLengthStats(GetReadLengths(records).value, sd)
  {
    match GetReadLengths(records)
    case Err(e) => Err(e)
    case Ok(lengths) => Ok(GetReadLengthStats(lengths, sd))
  }

  lemma {:induction false} SumOfConstant(xs: seq<real>, k: real)
    requires forall i :: 0 <= i < |xs| ==> xs[i] == k
    ensures Sum(xs) == |xs| as real * k
  {
    if |xs| > 0 {
      SumOfConstant(xs[1..], k);
    }
  }

  /** When every record has the same length, the mean is that length. */
  lemma MeanOfEqualLengths(xs: seq<real>, k: real)
    requires |xs| > 0
    requires forall i :: 0 <= i < |xs| ==> xs[i] == k
    ensures Mean(xs) == k
  {
    SumOfConstant(xs, k);
  }

  lemma {:induction false} SumWithin(xs: seq<real>, lo: real, hi: real)
    requires forall i :: 0 <= i < |xs| ==> lo <= xs[i] <= hi
    ensures |xs| as real * lo <= Sum(xs) <= |xs| as real * hi
  {
    if |xs| > 0 {
      SumWithin(xs[1..], lo, hi);
    }
  }

  /** The mean lies between the shortest and the longest length. */
  lemma MeanWithinLengthRange(xs: seq<real>, lo: real, hi: real)
    requires |xs| > 0
    requires forall i :: 0 <= i < |xs| ==> lo <= xs[i] <= hi
    ensures lo <= Mean(xs) <= hi
  {
    SumWithin(xs, lo, hi);
    var n := |xs| as real;
    assert Mean(xs) * n == Sum(xs);
  }

  /** With equal lengths and no deviation, both bounds collapse onto that length. */
  lemma EqualLengthsCollapseBounds(records: seq<Record>, k: nat)
    requires |records| > 0
    requires forall i :: 0 <= i < |records| ==> |records[i].sq| == k
    ensures NewStats(records, 0.0) == Ok(ReadLengthStats(k as real, 0.0, k as real, k as real))
  {
    MeanOfEqualLengths(GetReadLengths(records).value, k as real);
  }
}
