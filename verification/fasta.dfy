/**
 * FASTA records as the filter sees them once the reader has parsed them, and
 * the text a surviving record is written back as.
 */
module Fasta {
  import opened Results

  /** One byte of the input; identifiers, descriptions and residues are byte strings. */
  type Byte = b: int | 0 <= b < 256
  type Text = seq<Byte>

  const GREATER_THAN: Byte := 62  // '>', the header marker
  const SPACE: Byte := 32         // ' ', between identifier and description
  const NEWLINE: Byte := 10       // '\n', between header and residues

  /** A parsed record: identifier, optional free-text description, residues. */
  datatype Record = Record(id: Text, desc: Option<Text>, sq: Text)

  /** The header text after the marker: the identifier, then a space and the description if present. */
  function Header(r: Record): Text
  {
    match r.desc
    case Some(d) => r.id + [SPACE] + d
    case None => r.id
  }

  /**
   * The text of one emitted record: marker, identifier, an optional space and
   * description, a newline and the residues, with no line wrapping.
   */
  function FormatRecord(r: Record): (t: Text)
    ensures |t| >= |r.id| + |r.sq| + 2
    ensures t[0] == GREATER_THAN
    ensures t[|t| - |r.sq| - 1] == NEWLINE
    ensures t[|t| - |r.sq|..] == r.sq
  {
    [GREATER_THAN] + Header(r) + [NEWLINE] + r.sq
  }

  /** Where identifier and description sit in the formatted text, and that nothing else is written. */
  lemma FormatRecordLayout(r: Record)
    ensures var t := FormatRecord(r);
            && t[1..1 + |r.id|] == r.id
            && (r.desc.None? ==> |t| == |r.id| + |r.sq| + 2)
            && (r.desc.Some? ==>
                  && |t| == |r.id| + |r.desc.value| + |r.sq| + 3
                  && t[1 + |r.id|] == SPACE
                  && t[2 + |r.id|..|t| - |r.sq| - 1] == r.desc.value)
  {
  }

  /** Position of the first occurrence of `b` in `t`, if any. */
  function IndexOf(t: Text, b: Byte): (k: Option<nat>)
    ensures k.Some? ==> k.value < |t| && t[k.value] == b
    ensures k.Some? ==> forall i :: 0 <= i < k.value ==> t[i] != b
    ensures k.None? ==> forall i :: 0 <= i < |t| ==> t[i] != b
  {
    if |t| == 0 then None
    else if t[0] == b then Some(0)
    else
      match IndexOf(t[1..], b)
      case Some(k) => Some(k + 1)
      case None => None
  }

  /**
   * A reference reader for one formatted record: the header runs from the
   * marker to the first newline and splits at its first space; everything
   * after that newline is the residue text.
   */
  function ParseRecord(t: Text): (r: Option<Record>)
  {
    if |t| == 0 || t[0] != GREATER_THAN then None
    else
      match IndexOf(t, NEWLINE)
      case None => None
      case Some(k) =>
        var header := t[1..k];
        match IndexOf(header, SPACE)
        case None => Some(Record(header, None, t[k + 1..]))
        case Some(j) => Some(Record(header[..j], Some(header[j + 1..]), t[k + 1..]))
  }

  /** Records a FASTA reader can produce: no whitespace in the identifier, no newline in the description. */
  predicate Printable(r: Record)
  {
    && SPACE !in r.id
    && NEWLINE !in r.id
    && (r.desc.Some? ==> NEWLINE !in r.desc.value)
  }

  /** The first `b` in `p + [b] + q` is the one right after `p` when `p` holds none. */
  lemma {:induction false} IndexOfFirstSeparator(p: Text, b: Byte, q: Text)
    requires b !in p
    ensures IndexOf(p + [b] + q, b) == Some(|p|)
  {
    if |p| > 0 {
      assert (p + [b] + q)[1..] == p[1..] + [b] + q;
      IndexOfFirstSeparator(p[1..], b, q);
    }
  }

  /** Reading back an emitted record gives the identifier, description and residues it was written from. */
  lemma ParseFormatRoundTrip(r: Record)
    requires Printable(r)
    ensures ParseRecord(FormatRecord(r)) == Some(r)
  {
    var t := FormatRecord(r);
    var h := Header(r);
    assert NEWLINE !in h;
    assert t == ([GREATER_THAN] + h) + [NEWLINE] + r.sq;
    IndexOfFirstSeparator([GREATER_THAN] + h, NEWLINE, r.sq);
    assert t[1..1 + |h|] == h;
    assert t[2 + |h|..] == r.sq;
    match r.desc
    case None =>
    case Some(d) =>
      IndexOfFirstSeparator(r.id, SPACE, d);
      assert h[..|r.id|] == r.id;
      assert h[|r.id| + 1..] == d;
  }

  /** Every text the reference reader accepts is exactly the formatting of the record it reads. */
  lemma FormatParseRoundTrip(t: Text)
    requires ParseRecord(t).Some?
    ensures Printable(ParseRecord(t).value)
    ensures FormatRecord(ParseRecord(t).value) == t
  {
    var k := IndexOf(t, NEWLINE).value;
    var header := t[1..k];
    assert NEWLINE !in header by {
      assert forall x :: x in header ==> x in t[..k];
    }
    assert t == [t[0]] + header + [NEWLINE] + t[k + 1..];
    match IndexOf(header, SPACE)
    case None =>
    case Some(j) =>
      assert header == header[..j] + [SPACE] + header[j + 1..];
      assert NEWLINE !in header[..j] by {
        assert forall x :: x in header[..j] ==> x in header;
      }
      assert NEWLINE !in header[j + 1..] by {
        assert forall x :: x in header[j + 1..] ==> x in header;
      }
  }
}
