# filter_454 in Dafny

A model of the filtering logic of `filter_454`, a tool that reads a FASTA file
twice. The first pass collects every record's length and derives two-sigma
accept-bounds: mean minus and plus twice the standard deviation. The second
pass writes out, in input order, every record whose length lies within those
bounds (inclusive) and whose residues contain no `N` or `n`.

The model is pure and works over an input that has already been parsed:

- `Results`: `Option` and `Result` wrappers.
- `Fasta`: residues, identifiers and descriptions as byte strings
  (`Byte = 0..255`), the `Record` datatype and `FormatRecord`, the text written
  for an emitted record. A reference reader, `ParseRecord`, serves as the
  formatter's inverse. It splits the header at its first space and takes
  everything after the first newline as residues.
- `Ambiguity`: the `N`/`n` test, both as a recursive predicate and as the
  early-returning byte loop of the source.
- `ReadLengths`: record lengths, their mean over `real`, the
  `ReadLengthStats` value and the error for an input with no records. The
  standard deviation is a parameter of type `StdDev`, which admits any real
  `sd >= 0`. It is not computed here.
- `Filter`: the acceptance test, the order-preserving filter, and `Run`, the
  two passes over one buffered `seq<Record>`.

The length of a record is its number of residue bytes, as in the source. The
source compares that length, converted to a float, with the bounds, and the
model compares `len as real` with them.

## Model

| member | source | states |
|---|---|---|
| `Fasta.FormatRecord` | src/lib.rs:84-92 | The text starts with the `>` marker and is at least two bytes longer than identifier and residues together. A single newline precedes the residues, and the text ends with the residues unchanged. |
| `Fasta.FormatRecordLayout` | src/lib.rs:88-91 | The identifier follows the marker. With a description, a space and the description follow and fill the rest of the header. Without one, the header holds nothing but the identifier. |
| `Fasta.ParseFormatRoundTrip` | src/lib.rs:84-92 | A record whose identifier has no space or newline and whose description has no newline reads back from its formatted text with the same identifier, description and residues. |
| `Fasta.FormatParseRoundTrip` | src/lib.rs:84-92 | Every text the reference reader accepts is exactly the formatting of the record it reads, and that record is printable. So the header layout is unambiguous. |
| `Ambiguity.HasAmbiguousBases` | src/lib.rs:74-82 | True exactly when some position of the residues holds `N` or `n`. |
| `Ambiguity.ScanForAmbiguousBase` | src/lib.rs:74-82 | The early-returning byte loop answers true exactly when some byte is `N` (78) or `n` (110). It agrees with the predicate on every input. |
| `Ambiguity.OtherCodesAreNotAmbiguous` | src/lib.rs:76 | Residues made only of A/C/G/T/U and the other IUPAC ambiguity codes, in either case, are never reported as ambiguous. |
| `Ambiguity.AmbiguityOfConcatenation` | src/lib.rs:74-82 | One `N`/`n` anywhere is enough: a concatenation is ambiguous exactly when one of its parts is. |
| `ReadLengths.GetReadLengths` | src/lib.rs:24-50 | No records gives the `NoReads` error. Otherwise there is one length per record, in input order, each equal to that record's residue count. |
| `ReadLengths.GetReadLengthStats` | src/lib.rs:53-65 | The mean is the mean of the lengths, and `min_allowed <= mean <= max_allowed`. Both bounds are exactly `2*sd` from the mean. They coincide exactly when `sd = 0`. |
| `ReadLengths.NewStats` | src/lib.rs:67-71 | Statistics exist exactly when the input holds a record. When they exist, they are the statistics of that input's lengths. |
| `ReadLengths.MeanOfEqualLengths` | src/lib.rs:54 | When all lengths equal `k`, the mean is `k`. |
| `ReadLengths.MeanWithinLengthRange` | src/lib.rs:54 | The mean lies between any lower and upper bound of the lengths. |
| `ReadLengths.EqualLengthsCollapseBounds` | src/lib.rs:53-57 | All records of length `k` with `sd = 0` give mean `k` and bounds `[k, k]`. |
| `Filter.SeqIsGoodExactly` | src/lib.rs:100-105 | A record is accepted exactly when `min_allowed <= len`, `len <= max_allowed` (both inclusive) and no residue is `N` or `n`. |
| `Filter.FilterRecords` | src/lib.rs:114-121 | Output is no longer than input. Every output record is an input record that is accepted. Every accepted input record appears in the output. |
| `Filter.FilterAppend` | src/lib.rs:114-121 | Processing one more record appends it if it is accepted and appends nothing otherwise. This is the loop's step. |
| `Filter.FilterIsSubsequence` | src/lib.rs:114-121 | The output is a subsequence of the input, so no record is reordered. |
| `Filter.FilterCounts` | src/lib.rs:114-121 | Each accepted record occurs in the output as often as in the input, and a rejected record does not occur. No record is duplicated, lost or invented. |
| `Filter.FilterIdempotent` | src/lib.rs:114-121 | Filtering the output again with the same statistics returns it unchanged. |
| `Filter.AmbiguousNeverEmitted` | src/lib.rs:100-121 | A record with an `N` or `n` at any position is never emitted, whatever its length. |
| `Filter.ZeroDeviationKeepsMeanLength` | src/lib.rs:53-105 | With `sd = 0`, a record is emitted exactly when it is in the input, its length equals the mean and it has no `N`/`n`. |
| `Filter.FormattedTextsReadBack` | src/lib.rs:84-98 | Each written text of printable records reads back as the record it was written from. |
| `Filter.TwoEqualLengthsScenario` | src/lib.rs:100-121 | Take two records of length 50, the second containing an `N`, with `sd = 0`. The bounds are `[50, 50]` and only the first record is emitted. |
| `Filter.ThreeLengthsScenario` | src/lib.rs:53-121 | Three records of lengths 10, 10 and 100 with no `N` have mean 40. With any `sd >= 30`, all three are emitted in input order. The population deviation (about 42.4) and the sample deviation (about 52.0) both qualify. |
| `Filter.EmitGoodRecords` | src/lib.rs:114-121 | One walk over the records keeps exactly `FilterRecords` of them, in order, together with each kept record's formatted text. |
| `Filter.Run` | src/lib.rs:107-121 | Fails exactly when the input is empty. Otherwise the statistics are those of the input's lengths with the given deviation. The emitted records are exactly `FilterRecords` of the input in order, and each comes with its formatted text. |

## Left out

- Command-line parsing (`CliArgs`, `structopt`, src/main.rs): glue over an external library.
- Opening the file and the FASTA reader (`bio::io::fasta`): foreign I/O. The input is an already-parsed `seq<Record>`, and the model reads that buffer in both passes. Open and parse failures, which end the process, are not modelled. Only the empty-input error is, as `NoReads`.
- `process::exit` and the `eprintln!` diagnostics: process-level side effects. The error becomes `Err(NoReads)`. The statistics printed for debugging are returned in `Report.stats`.
- `ReadLengths.GetReadLengthStats`: the standard deviation comes from the `statrs` crate (`std_dev`), whose code is not part of this model. The model takes it as a parameter constrained only by `sd >= 0`. Nothing in the code settles whether `std_dev` is the population or the sample deviation, or what it returns for a single record. The model therefore fixes neither, and every property holds for any non-negative deviation.
- `f64` semantics (rounding, `sqrt`, NaN comparisons): the mean and bounds are exact `real`s. A NaN deviation would make every bound comparison false and emit nothing, and that case is not modelled.
- `Fasta.FormatRecord`: the UTF-8 check (`str::from_utf8(...).unwrap()`) is not modelled. The output is the byte string, which for valid UTF-8 is the same text, and invalid residues, which would panic, are not treated as an error.
- `println!`'s trailing newline after each record: the model gives each record's text without it.
- `Fasta.ParseRecord` is not part of the source. It is an independent reference reader for one record, used to state that the output format is faithful.
