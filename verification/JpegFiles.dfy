/**
 * JPEG headers built from an orientation, and the round trip: whatever precedes the Exif segment,
 * however it is padded and in either byte order, the orientation is read back.
 */
module JpegFiles {
  import opened JpegOrientation

  // ---- Writing numbers ----

  function WordBytes(w: int, big: bool): (b: Bytes)
    requires 0 <= w < 0x10000
    ensures |b| == 2 && Word(b, 0, big) == w
  {
    var hi, lo := (w / 256) as byte, (w % 256) as byte;
    if big then [hi, lo] else [lo, hi]
  }

  function LongBytes(w: int, big: bool): (b: Bytes)
    requires 0 <= w < 0x1_0000_0000
    ensures |b| == 4 && Long(b, 0, big) == w
  {
    var hi, lo := WordBytes(w / 0x10000, big), WordBytes(w % 0x10000, big);
    var b := if big then hi + lo else lo + hi;
    assert b[..2] == (if big then hi else lo) && b[2..] == (if big then lo else hi);
    WordWithin([], b[..2], b[2..], 0, big);
    WordWithin(b[..2], b[2..], [], 0, big);
    assert [] + b[..2] + b[2..] == b && b[..2] + b[2..] + [] == b;
    b
  }

  /** A number reads the same inside a longer stream. */
  lemma WordWithin(a: Bytes, x: Bytes, b: Bytes, at: nat, big: bool)
    requires at + 2 <= |x|
    ensures Word(a + x + b, |a| + at, big) == Word(x, at, big)
  {
    assert (a + x + b)[|a| + at] == x[at] && (a + x + b)[|a| + at + 1] == x[at + 1];
  }

  lemma LongWithin(a: Bytes, x: Bytes, b: Bytes, at: nat, big: bool)
    requires at + 4 <= |x|
    ensures Long(a + x + b, |a| + at, big) == Long(x, at, big)
  {
    WordWithin(a, x, b, at, big);
    WordWithin(a, x, b, at + 2, big);
  }

  // ---- The TIFF stream ----

  /** Twelve bytes; only the tag of an entry other than the orientation matters. */
  predicate IsEntry(e: Bytes)
  {
    |e| == 12
  }

  function OrientationEntry(v: int, big: bool, pad: Bytes): (e: Bytes)
    requires 1 <= v <= 8 && |pad| == 2
    ensures IsEntry(e)
  {
    WordBytes(ORIENTATION_TAG, big) + WordBytes(TYPE_SHORT, big) + LongBytes(1, big) + WordBytes(v, big) + pad
  }

  lemma OrientationEntryReads(v: int, big: bool, pad: Bytes)
    requires 1 <= v <= 8 && |pad| == 2
    ensures var e := OrientationEntry(v, big, pad);
            Word(e, 0, big) == ORIENTATION_TAG && Word(e, 2, big) == TYPE_SHORT && Long(e, 4, big) == 1 &&
              Word(e, 8, big) == v
  {
    var e := OrientationEntry(v, big, pad);
    var tag, kind, count, value := WordBytes(ORIENTATION_TAG, big), WordBytes(TYPE_SHORT, big), LongBytes(1, big),
      WordBytes(v, big);
    assert e == [] + tag + (kind + count + value + pad);
    WordWithin([], tag, kind + count + value + pad, 0, big);
    assert e == tag + kind + (count + value + pad);
    WordWithin(tag, kind, count + value + pad, 0, big);
    assert e == (tag + kind) + count + (value + pad);
    LongWithin(tag + kind, count, value + pad, 0, big);
    assert e == (tag + kind + count) + value + pad;
    WordWithin(tag + kind + count, value, pad, 0, big);
  }

  function Flat(es: seq<Bytes>): Bytes
  {
    if es == [] then [] else es[0] + Flat(es[1..])
  }

  lemma {:induction false} FlatEntries(es: seq<Bytes>, k: nat)
    requires forall e :: e in es ==> IsEntry(e)
    ensures |Flat(es)| == 12 * |es|
    ensures k < |es| ==> Flat(es)[k * 12..k * 12 + 12] == es[k]
  {
    if es != [] {
      FlatEntries(es[1..], if k > 0 then k - 1 else 0);
      assert IsEntry(es[0]);
      if 0 < k < |es| {
        var rest := Flat(es[1..]);
        assert Flat(es)[k * 12..k * 12 + 12] == rest[(k - 1) * 12..(k - 1) * 12 + 12];
      }
    }
  }

  /** Everything that is free in a stream with orientation `v` as its first such entry. */
  datatype Layout = Layout(big: bool, gap: Bytes, before: seq<Bytes>, pad: Bytes, after: seq<Bytes>, rest: Bytes)

  ghost predicate Good(l: Layout)
  {
    && 8 + |l.gap| < 0x1_0000_0000 && |l.before| + 1 + |l.after| < 0x10000 && |l.pad| == 2
    && (forall e :: e in l.before ==> IsEntry(e) && Word(e, 0, l.big) != ORIENTATION_TAG)
    && forall e :: e in l.after ==> IsEntry(e)
  }

  function Entries(l: Layout, v: int): (es: seq<Bytes>)
    requires |l.pad| == 2 && 1 <= v <= 8
    ensures |es| == |l.before| + 1 + |l.after|
  {
    l.before + [OrientationEntry(v, l.big, l.pad)] + l.after
  }

  function Preamble(l: Layout): (b: Bytes)
    requires 8 + |l.gap| < 0x1_0000_0000
    ensures |b| == 8
  {
    (if l.big then [0x4D, 0x4D] else [0x49, 0x49]) + WordBytes(42, l.big) + LongBytes(8 + |l.gap|, l.big)
  }

  ghost function Tiff(l: Layout, v: int): Bytes
    requires Good(l) && 1 <= v <= 8
  {
    Preamble(l) + l.gap + WordBytes(|Entries(l, v)|, l.big) + Flat(Entries(l, v)) + l.rest
  }

  lemma PreambleReads(l: Layout, rest: Bytes)
    requires 8 + |l.gap| < 0x1_0000_0000
    ensures var t := Preamble(l) + rest;
            && t[0] == t[1] == (if l.big then 0x4D else 0x49)
            && Word(t, 2, l.big) == 42 && Long(t, 4, l.big) == 8 + |l.gap|
  {
    var t := Preamble(l) + rest;
    var order: Bytes := if l.big then [0x4D, 0x4D] else [0x49, 0x49];
    var magic, offset := WordBytes(42, l.big), LongBytes(8 + |l.gap|, l.big);
    assert t == order + magic + (offset + rest);
    WordWithin(order, magic, offset + rest, 0, l.big);
    assert t == (order + magic) + offset + rest;
    LongWithin(order + magic, offset, rest, 0, l.big);
  }

  lemma TiffHasDirectory(l: Layout, v: int)
    requires Good(l) && 1 <= v <= 8
    ensures HasDirectory(Tiff(l, v), l.big, 8 + |l.gap|, |Entries(l, v)|)
  {
    var t, es := Tiff(l, v), Entries(l, v);
    var count := WordBytes(|es|, l.big);
    assert t == Preamble(l) + (l.gap + count + Flat(es) + l.rest);
    PreambleReads(l, l.gap + count + Flat(es) + l.rest);
    assert t == (Preamble(l) + l.gap) + count + (Flat(es) + l.rest);
    WordWithin(Preamble(l) + l.gap, count, Flat(es) + l.rest, 0, l.big);
    AllEntries(l, v);
    FlatEntries(es, 0);
  }

  lemma AllEntries(l: Layout, v: int)
    requires Good(l) && 1 <= v <= 8
    ensures forall e :: e in Entries(l, v) ==> IsEntry(e)
  {
  }

  /** The twelve bytes of entry `k` of the stream. */
  lemma TiffEntry(l: Layout, v: int, k: nat)
    requires Good(l) && 1 <= v <= 8 && k < |Entries(l, v)|
    ensures var at := 8 + |l.gap| + 2 + k * 12;
            at + 12 <= |Tiff(l, v)| && Tiff(l, v)[at..at + 12] == Entries(l, v)[k]
  {
    var t, es := Tiff(l, v), Entries(l, v);
    var head := Preamble(l) + l.gap + WordBytes(|es|, l.big);
    AllEntries(l, v);
    FlatEntries(es, k);
    assert t == head + Flat(es) + l.rest && |head| == 8 + |l.gap| + 2;
    assert t[|head| + k * 12..|head| + k * 12 + 12] == Flat(es)[k * 12..k * 12 + 12];
  }

  lemma EntryReads(t: Bytes, at: nat, e: Bytes, big: bool)
    requires at + 12 <= |t| && t[at..at + 12] == e
    ensures Word(t, at, big) == Word(e, 0, big) && Word(t, at + 2, big) == Word(e, 2, big)
    ensures Long(t, at + 4, big) == Long(e, 4, big) && Word(t, at + 8, big) == Word(e, 8, big)
  {
    assert t == t[..at] + e + t[at + 12..];
    WordWithin(t[..at], e, t[at + 12..], 0, big);
    WordWithin(t[..at], e, t[at + 12..], 2, big);
    LongWithin(t[..at], e, t[at + 12..], 4, big);
    WordWithin(t[..at], e, t[at + 12..], 8, big);
  }

  /** An entry of the stream has its own tag. */
  lemma TiffTag(l: Layout, v: int, k: nat)
    requires Good(l) && 1 <= v <= 8 && k < |Entries(l, v)|
    requires HasDirectory(Tiff(l, v), l.big, 8 + |l.gap|, |Entries(l, v)|)
    ensures |Entries(l, v)[k]| == 12
    ensures Tag(Tiff(l, v), l.big, 8 + |l.gap|, |Entries(l, v)|, k) == Word(Entries(l, v)[k], 0, l.big)
  {
    TiffEntry(l, v, k);
    AllEntries(l, v);
    hide HasDirectory, Tiff, Word, Long, Entries;
    EntryReads(Tiff(l, v), 8 + |l.gap| + 2 + k * 12, Entries(l, v)[k], l.big);
  }

  /** The value of an entry depends on its own twelve bytes. */
  lemma ValueOfEntry(t: Bytes, big: bool, off: nat, n: nat, k: nat, e: Bytes)
    requires HasDirectory(t, big, off, n) && k < n
    requires var at := off + 2 + k * 12; at + 12 <= |t| && t[at..at + 12] == e
    requires Word(e, 2, big) == TYPE_SHORT && Long(e, 4, big) == 1 && 1 <= Word(e, 8, big) <= 8
    ensures Value(t, big, off, n, k) == Word(e, 8, big)
  {
    hide HasDirectory, Word, Long;
    EntryReads(t, off + 2 + k * 12, e, big);
  }

  /** The orientation entry of the stream has the value `v`. */
  lemma TiffValue(l: Layout, v: int)
    requires Good(l) && 1 <= v <= 8
    requires HasDirectory(Tiff(l, v), l.big, 8 + |l.gap|, |Entries(l, v)|)
    ensures Value(Tiff(l, v), l.big, 8 + |l.gap|, |Entries(l, v)|, |l.before|) == v
  {
    hide HasDirectory, Tiff, Word, Long, OrientationEntry, Value;
    var e := OrientationEntry(v, l.big, l.pad);
    TiffEntry(l, v, |l.before|);
    OrientationEntryReads(v, l.big, l.pad);
    ValueOfEntry(Tiff(l, v), l.big, 8 + |l.gap|, |Entries(l, v)|, |l.before|, e);
  }

  /** The stream's orientation is `v`, whatever surrounds the entry. */
  lemma TiffRoundTrip(l: Layout, v: int)
    requires Good(l) && 1 <= v <= 8
    ensures IsExifValue(Tiff(l, v), v)
  {
    var t, n, off, k := Tiff(l, v), |Entries(l, v)|, 8 + |l.gap|, |l.before|;
    TiffHasDirectory(l, v);
    forall j: nat | j <= k
      ensures Tag(t, l.big, off, n, j) == ORIENTATION_TAG <==> j == k
    {
      TiffTag(l, v, j);
      if j < k {
        assert l.before[j] in l.before && Entries(l, v)[j] == l.before[j];
      } else {
        OrientationEntryReads(v, l.big, l.pad);
      }
    }
    hide Tag, Value, Tiff, Word, HasDirectory, Entries, IsExifValue;
    TiffValue(l, v);
    FirstTag(t, l.big, off, n, k);
  }

  // ---- The segments before it ----

  /** A marker alone, or a segment with a payload; either after any number of fill bytes. */
  datatype Piece = Bare(fill: nat, marker: byte) | Sized(fill: nat, marker: byte, payload: Bytes)

  /** A piece that may come before the Exif segment. */
  predicate Harmless(p: Piece)
  {
    match p
    case Bare(_, marker) => Standalone(marker)
    case Sized(_, marker, payload) =>
      && !Standalone(marker) && marker != 0xDA && marker != 0xFF && |payload| + 2 < 0x10000
      && !(marker == 0xE1 && StartsExif(payload))
  }

  function Fill(n: nat): (b: Bytes)
    ensures |b| == n && forall i :: 0 <= i < n ==> b[i] == 0xFF
  {
    seq(n, _ => 0xFF)
  }

  function Sized2(marker: byte, payload: Bytes): (b: Bytes)
    requires |payload| + 2 < 0x10000
    ensures |b| == |payload| + 4
  {
    [0xFF, marker] + WordBytes(|payload| + 2, true) + payload
  }

  function PieceBytes(p: Piece): Bytes
    requires Harmless(p)
  {
    match p
    case Bare(fill, marker) => Fill(fill) + [0xFF, marker]
    case Sized(fill, marker, payload) => Fill(fill) + Sized2(marker, payload)
  }

  function Pieces(ps: seq<Piece>): Bytes
    requires forall p :: p in ps ==> Harmless(p)
  {
    if ps == [] then [] else PieceBytes(ps[0]) + Pieces(ps[1..])
  }

  lemma {:induction false} MarkerAfterFill(data: Bytes, i: nat, n: nat)
    requires i + n + 1 < |data| && (forall k :: i <= k <= i + n ==> data[k] == 0xFF) && data[i + n + 1] != 0xFF
    ensures MarkerAt(data, i) == i + n
    decreases n
  {
    if n > 0 {
      MarkerAfterFill(data, i + 1, n - 1);
    }
  }

  lemma SizedReads(data: Bytes, i: nat, fill: nat, marker: byte, payload: Bytes, prefix: Bytes, suffix: Bytes)
    requires |payload| + 2 < 0x10000 && marker != 0xFF && i == |prefix|
    requires data == prefix + (Fill(fill) + Sized2(marker, payload)) + suffix
    ensures MarkerAt(data, i) == i + fill && i + fill + 4 + |payload| <= |data|
    ensures data[i + fill] == 0xFF && data[i + fill + 1] == marker
    ensures Word(data, i + fill + 2, true) == |payload| + 2 && data[i + fill + 4..i + fill + 4 + |payload|] == payload
  {
    var head := prefix + Fill(fill);
    assert data == head + ([0xFF, marker] + WordBytes(|payload| + 2, true) + payload) + suffix;
    assert forall k :: i <= k < i + fill ==> data[k] == Fill(fill)[k - i];
    assert data[i + fill] == 0xFF && data[i + fill + 1] == marker;
    MarkerAfterFill(data, i, fill);
    assert data == (head + [0xFF, marker]) + WordBytes(|payload| + 2, true) + (payload + suffix);
    WordWithin(head + [0xFF, marker], WordBytes(|payload| + 2, true), payload + suffix, 0, true);
    assert data == (head + [0xFF, marker] + WordBytes(|payload| + 2, true)) + payload + suffix;
  }

  lemma BareSkipped(data: Bytes, prefix: Bytes, fill: nat, marker: byte, suffix: Bytes)
    requires Standalone(marker) && data == prefix + (Fill(fill) + [0xFF, marker]) + suffix && |suffix| >= 2
    ensures SegmentAt(data, |prefix|) == Skip(|prefix| + fill + 2)
  {
    var i := |prefix|;
    assert data == prefix + Fill(fill) + [0xFF, marker] + suffix;
    assert forall k :: i <= k < i + fill ==> data[k] == Fill(fill)[k - i];
    assert data[i + fill] == 0xFF && data[i + fill + 1] == marker;
    MarkerAfterFill(data, i, fill);
    hide MarkerAt, Word, Fill;
  }

  lemma SizedSkipped(data: Bytes, prefix: Bytes, fill: nat, marker: byte, payload: Bytes, suffix: Bytes)
    requires Harmless(Piece.Sized(fill, marker, payload))
    requires data == prefix + (Fill(fill) + Sized2(marker, payload)) + suffix
    ensures SegmentAt(data, |prefix|) == Skip(|prefix| + fill + 4 + |payload|)
  {
    SizedReads(data, |prefix|, fill, marker, payload, prefix, suffix);
    hide MarkerAt, Word, Fill, Sized2;
  }

  lemma PieceSkipped(data: Bytes, prefix: Bytes, p: Piece, suffix: Bytes)
    requires Harmless(p) && data == prefix + PieceBytes(p) + suffix && |suffix| >= 2
    ensures SegmentAt(data, |prefix|) == Skip(|prefix| + |PieceBytes(p)|)
  {
    hide SegmentAt, MarkerAt, Word;
    match p
    case Bare(fill, marker) => BareSkipped(data, prefix, fill, marker, suffix);
    case Sized(fill, marker, payload) => SizedSkipped(data, prefix, fill, marker, payload, suffix);
  }

  lemma ExifFound(data: Bytes, prefix: Bytes, fill: nat, payload: Bytes, suffix: Bytes)
    requires |payload| + 2 < 0x10000 && StartsExif(payload)
    requires data == prefix + (Fill(fill) + Sized2(0xE1, payload)) + suffix
    ensures SegmentAt(data, |prefix|) == Exif(payload)
  {
    SizedReads(data, |prefix|, fill, 0xE1, payload, prefix, suffix);
  }

  /** Where the pieces and what follows them start. */
  function Starts(ps: seq<Piece>, at: nat): (starts: seq<nat>)
    requires forall p :: p in ps ==> Harmless(p)
    ensures |starts| == |ps| + 1 && starts[0] == at && starts[|ps|] == at + |Pieces(ps)|
  {
    if ps == [] then [at] else [at] + Starts(ps[1..], at + |PieceBytes(ps[0])|)
  }

  lemma {:induction false} PiecesSkipped(data: Bytes, prefix: Bytes, ps: seq<Piece>, suffix: Bytes, k: nat)
    requires (forall p :: p in ps ==> Harmless(p)) && data == prefix + Pieces(ps) + suffix && |suffix| >= 2
    requires k < |ps|
    ensures var starts := Starts(ps, |prefix|); SegmentAt(data, starts[k]) == Skip(starts[k + 1])
    decreases k
  {
    hide SegmentAt, PieceBytes, Harmless;
    var first := PieceBytes(ps[0]);
    assert Pieces(ps) == first + Pieces(ps[1..]);
    if k == 0 {
      assert data == prefix + first + (Pieces(ps[1..]) + suffix);
      PieceSkipped(data, prefix, ps[0], Pieces(ps[1..]) + suffix);
    } else {
      assert data == (prefix + first) + Pieces(ps[1..]) + suffix;
      PiecesSkipped(data, prefix + first, ps[1..], suffix, k - 1);
    }
  }

  /** A header: pieces, then the Exif segment with its stream, then anything. */
  ghost function File(ps: seq<Piece>, fill: nat, l: Layout, v: int, suffix: Bytes): Bytes
    requires (forall p :: p in ps ==> Harmless(p)) && Good(l) && 1 <= v <= 8
    requires |EXIF_HEADER + Tiff(l, v)| + 2 < 0x10000
  {
    [0xFF, 0xD8] + Pieces(ps) + (Fill(fill) + Sized2(0xE1, EXIF_HEADER + Tiff(l, v)) + suffix)
  }

  /**
   * The round trip: for either byte order, any fill bytes, at most 31 other segments in front, any
   * other directory entries and any bytes in between and behind, the orientation written is the
   * orientation read, and no other value is.
   */
  lemma OrientationRoundTrip(ps: seq<Piece>, fill: nat, l: Layout, v: int, suffix: Bytes, read: int)
    requires (forall p :: p in ps ==> Harmless(p)) && |ps| < 32 && Good(l) && 1 <= v <= 8
    requires |EXIF_HEADER + Tiff(l, v)| + 2 < 0x10000
    ensures IsOrientation(File(ps, fill, l, v, suffix), read) <==> read == v
  {
    hide SegmentAt, IsExifValue, Tiff, Sized2, Harmless, Good;
    var payload := EXIF_HEADER + Tiff(l, v);
    var exif := Fill(fill) + Sized2(0xE1, payload);
    var data := File(ps, fill, l, v, suffix);
    var starts := Starts(ps, 2);
    forall k | 0 <= k < |starts| - 1
      ensures SegmentAt(data, starts[k]) == Skip(starts[k + 1])
    {
      PiecesSkipped(data, [0xFF, 0xD8], ps, exif + suffix, k);
    }
    assert Chain(data, starts);
    assert data == ([0xFF, 0xD8] + Pieces(ps)) + exif + suffix;
    ExifFound(data, [0xFF, 0xD8] + Pieces(ps), fill, payload, suffix);
    assert Reaches(data, starts, payload);
    assert payload[6..] == Tiff(l, v);
    TiffRoundTrip(l, v);
    assert Shows(data, starts, payload, v);
    if IsOrientation(data, read) {
      OrientationUnique(data, read, v);
    }
  }

  // ---- Two headers byte by byte ----

  /** Start of image and an Exif segment of 34 bytes. */
  const LEAD: Bytes := [0xFF, 0xD8, 0xFF, 0xE1, 0x00, 0x22, 0x45, 0x78, 0x69, 0x66, 0x00, 0x00]

  /** A directory in big-endian order with one entry: tag 0112, short, 1 value. */
  function Motorola(v: byte): Bytes
  {
    [0x4D, 0x4D, 0x00, 0x2A, 0x00, 0x00, 0x00, 0x08, 0x00, 0x01,
     0x01, 0x12, 0x00, 0x03, 0x00, 0x00, 0x00, 0x01, 0x00, v, 0x00, 0x00, 0x00, 0x00, 0x00, 0x00]
  }

  /** The same in little-endian order. */
  function Intel(v: byte): Bytes
  {
    [0x49, 0x49, 0x2A, 0x00, 0x08, 0x00, 0x00, 0x00, 0x01, 0x00,
     0x12, 0x01, 0x03, 0x00, 0x01, 0x00, 0x00, 0x00, v, 0x00, 0x00, 0x00, 0x00, 0x00, 0x00, 0x00]
  }

  lemma LeadIsExif(tiff: Bytes)
    requires |tiff| == 26
    ensures SegmentAt(LEAD + tiff, 2) == Exif((LEAD + tiff)[6..]) && (LEAD + tiff)[6..][6..] == tiff
  {
    var data := LEAD + tiff;
    assert data[2] == 0xFF && data[3] == 0xE1 && MarkerAt(data, 2) == 2 && Word(data, 4, true) == 34;
    assert data[6..38] == data[6..] && data[6..] == LEAD[6..] + tiff && LEAD[6..] == EXIF_HEADER;
    hide MarkerAt, Word;
  }

  lemma LeadReads(tiff: Bytes, v: int)
    requires |tiff| == 26 && IsExifValue(tiff, v)
    ensures IsOrientation(LEAD + tiff, v)
  {
    var data := LEAD + tiff;
    LeadIsExif(tiff);
    assert IsJpeg(data);
    hide SegmentAt, IsExifValue;
    assert Reaches(data, [2], data[6..]);
    assert Shows(data, [2], data[6..], v);
  }

  lemma MotorolaDirectory(v: byte)
    ensures HasDirectory(Motorola(v), true, 8, 1) && Word(Motorola(v), 10, true) == 0x0112
    ensures Word(Motorola(v), 12, true) == 3 && Long(Motorola(v), 14, true) == 1
    ensures Word(Motorola(v), 18, true) == v as int
  {
  }

  lemma IntelDirectory(v: byte)
    ensures HasDirectory(Intel(v), false, 8, 1) && Word(Intel(v), 10, false) == 0x0112
    ensures Word(Intel(v), 12, false) == 3 && Long(Intel(v), 14, false) == 1
    ensures Word(Intel(v), 18, false) == v as int
  {
  }

  /** One entry at offset 10 with these numbers is an orientation. */
  lemma OnlyEntry(tiff: Bytes, big: bool, v: int)
    requires HasDirectory(tiff, big, 8, 1) && Word(tiff, 10, big) == 0x0112 && Word(tiff, 12, big) == 3
    requires Long(tiff, 14, big) == 1 && Word(tiff, 18, big) == v && 1 <= v <= 8
    ensures IsExifValue(tiff, v)
  {
    hide Word, Long, HasDirectory, HasTag, IsExifValue;
    assert Tag(tiff, big, 8, 1, 0) == 0x0112 && Value(tiff, big, 8, 1, 0) == v;
    assert FirstTagged(tiff, big, 8, 1, 0);
    FirstTag(tiff, big, 8, 1, 0);
  }

  /** An orientation entry of another type, of several values or out of range counts as 1. */
  lemma WrongEntry(tiff: Bytes, big: bool, read: int)
    requires HasDirectory(tiff, big, 8, 1) && Word(tiff, 10, big) == 0x0112
    requires Word(tiff, 12, big) != 3 || Long(tiff, 14, big) != 1 || !(1 <= Word(tiff, 18, big) <= 8)
    ensures IsExifValue(tiff, read) <==> read == 1
  {
    assert Tag(tiff, big, 8, 1, 0) == 0x0112 && Value(tiff, big, 8, 1, 0) == 1;
    hide Word, Long, HasDirectory, HasTag, IsExifValue;
    assert FirstTagged(tiff, big, 8, 1, 0);
    FirstTag(tiff, big, 8, 1, 0);
    if IsExifValue(tiff, read) {
      ExifValueUnique(tiff, read, 1);
    }
  }

  /** These very bytes are read as their orientation. */
  lemma LiteralHeaders(v: byte)
    requires 1 <= v <= 8
    ensures IsOrientation(LEAD + Motorola(v), v as int) && IsOrientation(LEAD + Intel(v), v as int)
  {
    MotorolaDirectory(v);
    IntelDirectory(v);
    hide Word, Long, HasDirectory, IsExifValue, IsOrientation;
    OnlyEntry(Motorola(v), true, v as int);
    OnlyEntry(Intel(v), false, v as int);
    LeadReads(Motorola(v), v as int);
    LeadReads(Intel(v), v as int);
  }

  /** Nothing behind the start of the scan is read. */
  lemma NothingBehindScan(rest: Bytes)
    ensures IsOrientation([0xFF, 0xD8, 0xFF, 0xDA] + rest, 1)
  {
    var data := [0xFF, 0xD8, 0xFF, 0xDA] + rest;
    assert MarkerAt(data, 2) == 2;
    assert SegmentAt(data, 2) == Stop;
    NothingReached(data, [2]);
  }
}
