/**
 * The second pass: keep, in input order, exactly the records whose length
 * lies within the accept-bounds and whose residues hold no `N`/`n`.
 */
module Filter {
  import opened Results
  import opened Fasta
  import opened Ambiguity
  import opened ReadLengths

  /** Inclusive at both ends; the integer length is compared as a real. */
  predicate LengthWithinBounds(len: nat, stats: ReadLengthStats)
  {
    stats.minAllowed <= len as real && len as real <= stats.maxAllowed
  }

  /** The acceptance test applied to each record. */
  predicate SeqIsGood(r: Record, stats: ReadLengthStats)
  {
    LengthWithinBounds(|r.sq|, stats) && !HasAmbiguousBases(r.sq)
  }

  /** The records of the second pass that are emitted, in order. */
  function FilterRecords(records: seq<Record>, stats: ReadLengthStats): (out: seq<Record>)
    ensures |out| <= |records|
    ensures forall r :: r in out ==> r in records && SeqIsGood(r, stats)
    ensures forall r :: r in records && SeqIsGood(r, stats) ==> r in out
  {
    if |records| == 0 then []
    else if SeqIsGood(records[0], stats) then [records[0]] + FilterRecords(records[1..], stats)
    else FilterRecords(records[1..], stats)
  }

  /** `xs` is `ys` with some elements dropped and none reordered. */
  ghost predicate IsSubsequence<T>(xs: seq<T>, ys: seq<T>)
    decreases |ys|
  {
    if |xs| == 0 then true
    else if |ys| == 0 then false
    else if xs[0] == ys[0] then IsSubsequence(xs[1..], ys[1..])
    else IsSubsequence(xs, ys[1..])
  }

  /** A record is accepted exactly when its length is within both bounds and no residue is `N` or `n`. */
  lemma SeqIsGoodExactly(r: Record, stats: ReadLengthStats)
    ensures SeqIsGood(r, stats) <==>
              && stats.minAllowed <= |r.sq| as real
              && |r.sq| as real <= stats.maxAllowed
              && forall i :: 0 <= i < |r.sq| ==> r.sq[i] != UPPER_N && r.sq[i] != LOWER_N
  {
  }

  /** Filtering one more record appends it when it is good and nothing otherwise. */
  lemma {:induction false} FilterAppend(records: seq<Record>, x: Record, stats: ReadLengthStats)
    ensures FilterRecords(records + [x], stats)
            == FilterRecords(records, stats) + (if SeqIsGood(x, stats) then [x] else [])
  {
    if |records| > 0 {
      assert (records + [x])[1..] == records[1..] + [x];
      FilterAppend(records[1..], x, stats);
    }
  }

  /** One step of the second pass over a prefix of the input. */
  lemma FilterPrefixStep(records: seq<Record>, i: nat, stats: ReadLengthStats)
    requires i < |records|
    ensures FilterRecords(records[..i + 1], stats)
            == FilterRecords(records[..i], stats) + (if SeqIsGood(records[i], stats) then [records[i]] else [])
  {
    assert records[..i + 1] == records[..i] + [records[i]];
    FilterAppend(records[..i], records[i], stats);
  }

  /** The output keeps the input's order: it is a subsequence of the input. */
  lemma {:induction false} FilterIsSubsequence(records: seq<Record>, stats: ReadLengthStats)
    ensures IsSubsequence(FilterRecords(records, stats), records)
  {
    if |records| > 0 {
      var rest := FilterRecords(records[1..], stats);
      FilterIsSubsequence(records[1..], stats);
      if SeqIsGood(records[0], stats) {
        assert ([records[0]] + rest)[1..] == rest;
      } else if |rest| > 0 {
        assert rest[0] in rest;
      }
    }
  }

  /** Each good record appears as often as in the input, every other record not at all. */
  lemma {:induction false} FilterCounts(records: seq<Record>, stats: ReadLengthStats, x: Record)
    ensures multiset(FilterRecords(records, stats))[x]
            == if SeqIsGood(x, stats) then multiset(records)[x] else 0
  {
    if |records| > 0 {
      FilterCounts(records[1..], stats, x);
      assert records == [records[0]] + records[1..];
      assert multiset(records) == multiset{records[0]} + multiset(records[1..]);
    }
  }

  /** Filtering the output again with the same bounds changes nothing. */
  lemma {:induction false} FilterIdempotent(records: seq<Record>, stats: ReadLengthStats)
    ensures FilterRecords(FilterRecords(records, stats), stats) == FilterRecords(records, stats)
  {
    if |records| > 0 {
      FilterIdempotent(records[1..], stats);
      var rest := FilterRecords(records[1..], stats);
      if SeqIsGood(records[0], stats) {
        assert ([records[0]] + rest)[1..] == rest;
      }
    }
  }

  /** A record holding `N` or `n` is never emitted, whatever its length. */
  lemma AmbiguousNeverEmitted(records: seq<Record>, stats: ReadLengthStats, r: Record, i: nat)
    requires i < |r.sq| && IsAmbiguousBase(r.sq[i])
    ensures r !in FilterRecords(records, stats)
  {
  }

  /**
   * With a zero deviation the bounds are `[mean, mean]`: a record is emitted
   * exactly when it is in the input, its length equals the mean and it has no `N`/`n`.
   */
  lemma ZeroDeviationKeepsMeanLength(records: seq<Record>, r: Record)
    requires |records| > 0
    ensures var stats := NewStats(records, 0.0).value;
            r in FilterRecords(records, stats)
            <==> r in records && |r.sq| as real == stats.mean && !HasAmbiguousBases(r.sq)
  {
  }

  /** The text of each record, in order. */
  function FormatAll(records: seq<Record>): (texts: seq<Text>)
    ensures |texts| == |records|
    ensures forall i :: 0 <= i < |records| ==> texts[i] == FormatRecord(records[i])
  {
    seq(|records|, i requires 0 <= i < |records| => FormatRecord(records[i]))
  }

  lemma FormatAllAppend(records: seq<Record>, r: Record)
    ensures FormatAll(records + [r]) == FormatAll(records) + [FormatRecord(r)]
  {
  }

  /** Every emitted text reads back as the record it was written from, as long as the reader could have produced that record. */
  lemma FormattedTextsReadBack(records: seq<Record>)
    requires forall i :: 0 <= i < |records| ==> Printable(records[i])
    ensures forall i :: 0 <= i < |records| ==> ParseRecord(FormatAll(records)[i]) == Some(records[i])
  {
    forall i | 0 <= i < |records|
      ensures ParseRecord(FormatAll(records)[i]) == Some(records[i])
    {
      ParseFormatRoundTrip(records[i]);
    }
  }

  /**
   * Two records of length 50, the second holding an `N`: with no deviation the
   * bounds are `[50, 50]` and only the first record is emitted.
   */
  lemma TwoEqualLengthsScenario()
    ensures var clean := Record([114, 49], None, seq(50, _ => 65));
            var dirty := Record([114, 50], None, seq(50, i => if i == 7 then UPPER_N else 67));
            var stats := NewStats([clean, dirty], 0.0).value;
            && stats == ReadLengthStats(50.0, 0.0, 50.0, 50.0)
            && FilterRecords([clean, dirty], stats) == [clean]
  {
    var clean := Record([114, 49], None, seq(50, _ => 65));
    var dirty := Record([114, 50], None, seq(50, i => if i == 7 then UPPER_N else 67));
    EqualLengthsCollapseBounds([clean, dirty], 50);
    var stats := NewStats([clean, dirty], 0.0).value;
    assert !HasAmbiguousBases(clean.sq);
    assert IsAmbiguousBase(dirty.sq[7]);
    assert [clean, dirty][1..] == [dirty];
  }

  /**
   * Three clean records of lengths 10, 10 and 100 have mean 40. Any deviation
   * of at least 30 (the population and the sample deviation both are) widens
   * the bounds enough that all three records are emitted, in order.
   */
  lemma ThreeLengthsScenario(sd: StdDev)
    requires sd >= 30.0
    ensures var a := Record([97], None, seq(10, _ => 65));
            var b := Record([98], None, seq(10, _ => 67));
            var c := Record([99], None, seq(100, _ => 71));
            var stats := NewStats([a, b, c], sd).value;
            && stats.mean == 40.0
            && FilterRecords([a, b, c], stats) == [a, b, c]
  {
    var a := Record([97], None, seq(10, _ => 65));
    var b := Record([98], None, seq(10, _ => 67));
    var c := Record([99], None, seq(100, _ => 71));
    var lengths := GetReadLengths([a, b, c]).value;
    assert lengths == [10.0, 10.0, 100.0];
    assert Sum(lengths) == 120.0 by {
      assert [100.0][1..] == [];
      assert Sum([100.0]) == 100.0;
      assert [10.0, 100.0][1..] == [100.0];
      assert Sum([10.0, 100.0]) == 110.0;
      assert [10.0, 10.0, 100.0][1..] == [10.0, 100.0];
    }
    var stats := NewStats([a, b, c], sd).value;
    assert stats.mean == 40.0;
    assert !HasAmbiguousBases(a.sq) && !HasAmbiguousBases(b.sq) && !HasAmbiguousBases(c.sq);
    assert SeqIsGood(a, stats) && SeqIsGood(b, stats) && SeqIsGood(c, stats);
    assert [c][1..] == [];
    assert FilterRecords([c], stats) == [c];
    assert [b, c][1..] == [c];
    assert FilterRecords([b, c], stats) == [b, c];
    assert [a, b, c][1..] == [b, c];
  }

  /** What one run reports: the statistics of the first pass and the emitted records with their text. */
  datatype Report = Report(stats: ReadLengthStats, emitted: seq<Record>, texts: seq<Text>)

  /** A run either reports or stops because the input held no records. */
  type RunResult = Result<Report, StatsError>

  /**
   * The second pass: walk the input once, keeping each good record together
   * with the text it is written as.
   */
  method EmitGoodRecords(records: seq<Record>, stats: ReadLengthStats) returns (emitted: seq<Record>, texts: seq<Text>)
    ensures emitted == FilterRecords(records, stats)
    ensures texts == FormatAll(emitted)
  {
    emitted, texts := [], [];
    var i := 0;
    while i < |records|
      invariant 0 <= i <= |records|
      invariant emitted == FilterRecords(records[..i], stats)
      invariant texts == FormatAll(emitted)
    {
      var rec := records[i];
      FilterPrefixStep(records, i, stats);
      if SeqIsGood(rec, stats) {
        FormatAllAppend(emitted, rec);
        emitted := emitted + [rec];
        texts := texts + [FormatRecord(rec)];
      }
      i := i + 1;
    }
    assert records[..i] == records;
  }

  /**
   * The whole run over a buffered input, with the standard deviation of the
   * record lengths supplied from outside: statistics first, then the second
   * pass over the same records.
   */
  method Run(records: seq<Record>, sd: StdDev) returns (outcome: RunResult)
    ensures outcome.Err? <==> |records| == 0
    ensures outcome.Ok? ==> && GetReadLengths(records).Ok?
                            && outcome.value.stats == GetReadLengthStats(GetReadLengths(records).value, sd)
    ensures outcome.Ok? ==> outcome.value.emitted == FilterRecords(records, outcome.value.stats)
    ensures outcome.Ok? ==> outcome.value.texts == FormatAll(outcome.value.emitted)
  {
    var first := NewStats(records, sd);
    if first.Err? {
      outcome := Err(first.error);
    } else {
      var emitted, texts := EmitGoodRecords(records, first.value);
      outcome := Ok(Report(first.value, emitted, texts));
    }
  }
}
