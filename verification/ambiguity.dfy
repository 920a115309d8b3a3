/**
 * Ambiguous-base detection: a residue string is ambiguous when it holds an
 * `N` or an `n`. No other IUPAC ambiguity code counts.
 */
module Ambiguity {
  import opened Fasta

  const UPPER_N: Byte := 78  // 'N'
  const LOWER_N: Byte := 110 // 'n'

  /** The only residues treated as undetermined. */
  predicate IsAmbiguousBase(b: Byte)
  {
    b == UPPER_N || b == LOWER_N
  }

  /** Whether any residue of `s` is ambiguous, scanning from the front. */
  function HasAmbiguousBases(s: Text): (r: bool)
    ensures r <==> exists i :: 0 <= i < |s| && IsAmbiguousBase(s[i])
  {
    |s| > 0 && (IsAmbiguousBase(s[0]) || HasAmbiguousBases(s[1..]))
  }

  /** The byte loop: stops with `true` at the first `N` or `n`, `false` once every byte was seen. */
  method ScanForAmbiguousBase(s: Text) returns (found: bool)
    ensures found <==> exists i :: 0 <= i < |s| && (s[i] == UPPER_N || s[i] == LOWER_N)
    ensures found == HasAmbiguousBases(s)
  {
    var i := 0;
    while i < |s|
      invariant 0 <= i <= |s|
      invariant forall j :: 0 <= j < i ==> s[j] != UPPER_N && s[j] != LOWER_N
    {
      if s[i] == UPPER_N || s[i] == LOWER_N {
        return true;
      }
      i := i + 1;
    }
    return false;
  }

  /** The IUPAC nucleotide codes other than N, in both cases: R Y S W K M B D H V and r y s w k m b d h v. */
  const OTHER_IUPAC_CODES: set<Byte> := {82, 89, 83, 87, 75, 77, 66, 68, 72, 86,
                                         114, 121, 115, 119, 107, 109, 98, 100, 104, 118}

  /** Residues drawn from the plain bases and the other ambiguity codes never make a record ambiguous. */
  lemma OtherCodesAreNotAmbiguous(s: Text)
    requires forall i :: 0 <= i < |s| ==> s[i] in OTHER_IUPAC_CODES || s[i] in {65, 67, 71, 84, 85, 97, 99, 103, 116, 117}
    ensures !HasAmbiguousBases(s)
  {
  }

  /** Ambiguity of a concatenation is ambiguity of either part: one `N` anywhere disqualifies the whole. */
  lemma {:induction false} AmbiguityOfConcatenation(a: Text, b: Text)
    ensures HasAmbiguousBases(a + b) <==> HasAmbiguousBases(a) || HasAmbiguousBases(b)
  {
    if |a| > 0 {
      assert (a + b)[1..] == a[1..] + b;
      AmbiguityOfConcatenation(a[1..], b);
    } else {
      assert a + b == b;
    }
  }
}
