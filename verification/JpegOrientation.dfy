/**
 * Reading the EXIF orientation out of a JPEG: the byte loops, a declarative reading of the same
 * bytes, and the equality of the two for every input.
 */
module JpegOrientation {
  import opened Wrappers

  newtype byte = x: int | 0 <= x < 256

  type Bytes = seq<byte>

  const EXIF_HEADER: Bytes := [0x45, 0x78, 0x69, 0x66, 0, 0]
  const ORIENTATION_TAG := 0x0112
  const TYPE_SHORT := 3
  const MAX_SEGMENTS := 32

  // ---- Numbers in either byte order ----

  function Word(b: Bytes, at: nat, big: bool): (w: int)
    requires at + 2 <= |b|
    ensures 0 <= w < 0x10000
  {
    if big then b[at] as int * 256 + b[at + 1] as int else b[at + 1] as int * 256 + b[at] as int
  }

  function Long(b: Bytes, at: nat, big: bool): (w: int)
    requires at + 4 <= |b|
    ensures 0 <= w < 0x1_0000_0000
  {
    if big then Word(b, at, big) * 0x10000 + Word(b, at + 2, big) else Word(b, at + 2, big) * 0x10000 + Word(b, at, big)
  }

  // ---- The first IFD of an Exif payload ----

  predicate StartsExif(b: Bytes)
  {
    EXIF_HEADER <= b
  }

  /** The TIFF stream of a payload with a readable first directory of `n` entries at `off`. */
  predicate HasDirectory(tiff: Bytes, big: bool, off: nat, n: nat)
  {
    && |tiff| >= 8
    && (tiff[0] == tiff[1] == (if big then 0x4D else 0x49))
    && Word(tiff, 2, big) == 42
    && Long(tiff, 4, big) == off && off >= 8 && off + 2 <= |tiff|
    && Word(tiff, off, big) == n && off + 2 + n * 12 <= |tiff|
  }

  /** The tag of the directory's entry `k`. */
  function Tag(tiff: Bytes, big: bool, off: nat, n: nat, k: nat): int
    requires HasDirectory(tiff, big, off, n) && k < n
  {
    Word(tiff, off + 2 + k * 12, big)
  }

  /** The value of entry `k` if it is one short between 1 and 8, else 1. */
  function Value(tiff: Bytes, big: bool, off: nat, n: nat, k: nat): int
    requires HasDirectory(tiff, big, off, n) && k < n
  {
    var at := off + 2 + k * 12;
    if Word(tiff, at + 2, big) == TYPE_SHORT && Long(tiff, at + 4, big) == 1 && 1 <= Word(tiff, at + 8, big) <= 8
    then Word(tiff, at + 8, big)
    else 1
  }

  ghost predicate FirstTagged(tiff: Bytes, big: bool, off: nat, n: nat, k: nat)
    requires HasDirectory(tiff, big, off, n)
  {
    && k < n && Tag(tiff, big, off, n, k) == ORIENTATION_TAG
    && forall j: nat :: j < k ==> Tag(tiff, big, off, n, j) != ORIENTATION_TAG
  }

  ghost predicate Tagged(tiff: Bytes, big: bool, off: nat, n: nat, k: nat)
  {
    HasDirectory(tiff, big, off, n) && FirstTagged(tiff, big, off, n, k)
  }

  ghost predicate ValueAt(tiff: Bytes, big: bool, off: nat, n: nat, k: nat, v: int)
  {
    Tagged(tiff, big, off, n, k) && v == Value(tiff, big, off, n, k)
  }

  ghost predicate HasTag(tiff: Bytes)
  {
    exists big, off, n, k :: Tagged(tiff, big, off, n, k)
  }

  /** `v` is the value of the first orientation entry, and 1 if nothing readable leads to one. */
  ghost predicate IsExifValue(tiff: Bytes, v: int)
  {
    if HasTag(tiff) then exists big, off, n, k :: ValueAt(tiff, big, off, n, k, v) else v == 1
  }

  lemma ExifValueUnique(tiff: Bytes, v: int, w: int)
    requires IsExifValue(tiff, v) && IsExifValue(tiff, w)
    ensures v == w && 1 <= v <= 8
  {
  }

  /** A stream that is too short, of unknown byte order or without the magic number 42 says nothing. */
  lemma UnreadableMeansOne(tiff: Bytes)
    requires |tiff| < 8 || tiff[..4] !in {[0x49, 0x49, 0x2A, 0x00], [0x4D, 0x4D, 0x00, 0x2A]}
    ensures IsExifValue(tiff, 1)
  {
    forall big, off, n, k
      ensures !Tagged(tiff, big, off, n, k)
    {
      if HasDirectory(tiff, big, off, n) {
        DirectoryStarts(tiff, big, off, n);
      }
    }
  }

  lemma DirectoryStarts(tiff: Bytes, big: bool, off: nat, n: nat)
    requires HasDirectory(tiff, big, off, n)
    ensures |tiff| >= 8 && tiff[..4] == if big then [0x4D, 0x4D, 0x00, 0x2A] else [0x49, 0x49, 0x2A, 0x00]
  {
  }

  method ExifOrientation(seg: Bytes) returns (v: int)
    ensures 1 <= v <= 8
    ensures if StartsExif(seg) then IsExifValue(seg[6..], v) else v == 1
  {
    if |seg| < 6 || seg[..6] != EXIF_HEADER {
      assert !StartsExif(seg);
      return 1;
    }
    assert StartsExif(seg);
    var tiff := seg[6..];
    if |tiff| < 8 {
      return 1;
    }
    var big;
    if tiff[0] == 0x49 && tiff[1] == 0x49 {
      big := false;
    } else if tiff[0] == 0x4D && tiff[1] == 0x4D {
      big := true;
    } else {
      return 1;
    }
    if Word(tiff, 2, big) != 42 {
      return 1;
    }
    var off := Long(tiff, 4, big);
    if off < 8 || off + 2 > |tiff| {
      return 1;
    }
    var n := Word(tiff, off, big);
    if n * 12 > |tiff[off + 2..]| {
      return 1;
    }
    v := ScanEntries(tiff, big, off, n);
  }

  /** The loop over the directory's entries. */
  method ScanEntries(tiff: Bytes, big: bool, off: nat, n: nat) returns (v: int)
    requires HasDirectory(tiff, big, off, n)
    ensures 1 <= v <= 8 && IsExifValue(tiff, v)
  {
    hide HasTag, Word, Long;
    var entries := tiff[off + 2..];
    for k := 0 to n
      invariant forall j: nat :: j < k ==> Tag(tiff, big, off, n, j) != ORIENTATION_TAG
    {
      var e := entries[k * 12..k * 12 + 12];
      EntryWords(tiff, entries, e, big, off, k);
      if Word(e, 0, big) != ORIENTATION_TAG {
        continue;
      }
      FirstTag(tiff, big, off, n, k);
      if Word(e, 2, big) != TYPE_SHORT || Long(e, 4, big) != 1 {
        return 1;
      }
      var value := Word(e, 8, big);
      if value < 1 || value > 8 {
        return 1;
      }
      return value;
    }
    NoTag(tiff, big, off, n);
    return 1;
  }

  lemma FirstTag(tiff: Bytes, big: bool, off: nat, n: nat, k: nat)
    requires HasDirectory(tiff, big, off, n) && FirstTagged(tiff, big, off, n, k)
    ensures IsExifValue(tiff, Value(tiff, big, off, n, k))
  {
    assert ValueAt(tiff, big, off, n, k, Value(tiff, big, off, n, k));
  }

  lemma NoTag(tiff: Bytes, big: bool, off: nat, n: nat)
    requires HasDirectory(tiff, big, off, n) && forall j: nat :: j < n ==> Tag(tiff, big, off, n, j) != ORIENTATION_TAG
    ensures !HasTag(tiff)
  {
    forall other, o, m, l
      ensures !Tagged(tiff, other, o, m, l)
    {
      if HasDirectory(tiff, other, o, m) {
        OneDirectory(tiff, big, off, n, other, o, m);
      }
    }
  }

  lemma OneDirectory(tiff: Bytes, big: bool, off: nat, n: nat, big': bool, off': nat, n': nat)
    requires HasDirectory(tiff, big, off, n) && HasDirectory(tiff, big', off', n')
    ensures big == big' && off == off' && n == n'
  {
    assert tiff[0] == if big then 0x4D else 0x49;
  }

  /** Reading inside the slice of an entry is reading the stream. */
  lemma EntryWords(tiff: Bytes, entries: Bytes, e: Bytes, big: bool, off: nat, k: nat)
    requires off + 2 <= |tiff| && entries == tiff[off + 2..] && k * 12 + 12 <= |entries| &&
             e == entries[k * 12..k * 12 + 12]
    ensures var at := off + 2 + k * 12;
            && Word(e, 0, big) == Word(tiff, at, big) && Word(e, 2, big) == Word(tiff, at + 2, big)
            && Long(e, 4, big) == Long(tiff, at + 4, big) && Word(e, 8, big) == Word(tiff, at + 8, big)
  {
    forall x | 0 <= x < 12
      ensures e[x] == tiff[off + 2 + k * 12 + x]
    {
      assert entries[k * 12 + x] == tiff[off + 2 + (k * 12 + x)];
    }
  }

  // ---- The segments of a JPEG ----

  /** The last 0xFF of the run of fill bytes at `i`. */
  function MarkerAt(data: Bytes, i: nat): (j: nat)
    ensures i <= j && !Filled(data, j) && forall k: nat :: i <= k < j ==> Filled(data, k)
    decreases |data| - i
  {
    if Filled(data, i) then MarkerAt(data, i + 1) else i
  }

  predicate Filled(data: Bytes, i: nat)
  {
    i + 1 < |data| && data[i] == 0xFF && data[i + 1] == 0xFF
  }

  predicate Standalone(marker: byte)
  {
    marker == 0x01 || 0xD0 <= marker <= 0xD7
  }

  /** TEM and the restart markers. */
  lemma StandaloneAre(marker: byte)
    ensures Standalone(marker) <==> marker in {0x01, 0xD0, 0xD1, 0xD2, 0xD3, 0xD4, 0xD5, 0xD6, 0xD7}
  {
  }

  datatype Segment = Skip(next: nat) | Exif(payload: Bytes) | Stop

  /** What begins at `i`: something to skip, the Exif segment, or the end of the search. */
  function SegmentAt(data: Bytes, i: nat): Segment
  {
    var j := MarkerAt(data, i);
    if j + 4 > |data| || data[j] != 0xFF then Stop
    else
      var marker := data[j + 1];
      if Standalone(marker) then Skip(j + 2)
      else
        var length := Word(data, j + 2, true);
        if marker == 0xDA || length < 2 || j + 2 + length > |data| then Stop
        else if marker == 0xE1 && StartsExif(data[j + 4..j + 2 + length]) then Exif(data[j + 4..j + 2 + length])
        else Skip(j + 2 + length)
  }

  predicate IsJpeg(data: Bytes)
  {
    |data| >= 4 && data[0] == 0xFF && data[1] == 0xD8
  }

  /** The starts of consecutive segments from the first one on. */
  ghost predicate Chain(data: Bytes, starts: seq<nat>)
  {
    && starts != [] && starts[0] == 2
    && forall k :: 0 <= k < |starts| - 1 ==> SegmentAt(data, starts[k]) == Skip(starts[k + 1])
  }

  /** The Exif segment among the first 32. */
  ghost predicate Reaches(data: Bytes, starts: seq<nat>, payload: Bytes)
  {
    && IsJpeg(data) && Chain(data, starts) && |starts| <= MAX_SEGMENTS
    && SegmentAt(data, starts[|starts| - 1]) == Exif(payload)
  }

  /** The orientation is that of the first Exif segment among the first 32, and 1 without one. */
  ghost predicate IsOrientation(data: Bytes, v: int)
  {
    if HasExif(data) then exists starts, payload :: Shows(data, starts, payload, v) else v == 1
  }

  ghost predicate HasExif(data: Bytes)
  {
    exists starts, payload :: Reaches(data, starts, payload)
  }

  ghost predicate Shows(data: Bytes, starts: seq<nat>, payload: Bytes, v: int)
  {
    Reaches(data, starts, payload) && |payload| >= 6 && IsExifValue(payload[6..], v)
  }

  lemma {:induction false} ChainsAgree(data: Bytes, a: seq<nat>, b: seq<nat>, k: nat)
    requires Chain(data, a) && Chain(data, b) && k < |a| && k < |b|
    ensures a[k] == b[k]
  {
    if k > 0 {
      ChainsAgree(data, a, b, k - 1);
      assert SegmentAt(data, a[k - 1]) == Skip(a[k]) && SegmentAt(data, b[k - 1]) == Skip(b[k]);
    }
  }

  lemma SkipsAt(data: Bytes, starts: seq<nat>, k: nat)
    requires Chain(data, starts) && k < |starts| - 1
    ensures SegmentAt(data, starts[k]).Skip?
  {
    assert SegmentAt(data, starts[k]) == Skip(starts[k + 1]);
  }

  /** No walk goes on beyond the Exif segment. */
  lemma NotBeyond(data: Bytes, starts: seq<nat>, other: seq<nat>, payload: Bytes)
    requires Chain(data, starts) && Reaches(data, other, payload)
    ensures |starts| <= |other|
  {
    if |starts| > |other| {
      SkipsAt(data, starts, |other| - 1);
      ChainsAgree(data, starts, other, |other| - 1);
    }
  }

  lemma ReachesUnique(data: Bytes, a: seq<nat>, p: Bytes, b: seq<nat>, q: Bytes)
    requires Reaches(data, a, p) && Reaches(data, b, q)
    ensures p == q
  {
    NotBeyond(data, a, b, q);
    NotBeyond(data, b, a, p);
    ChainsAgree(data, a, b, |a| - 1);
  }

  /** Every input has exactly one orientation, from 1 to 8. */
  lemma OrientationUnique(data: Bytes, v: int, w: int)
    requires IsOrientation(data, v) && IsOrientation(data, w)
    ensures v == w && 1 <= v <= 8
  {
    if HasExif(data) {
      var starts, payload :| Shows(data, starts, payload, v);
      var starts', payload' :| Shows(data, starts', payload', w);
      ReachesUnique(data, starts, payload, starts', payload');
      ExifValueUnique(payload[6..], v, w);
    }
  }

  /** A walk that stops, or has skipped 32 segments, rules out every other walk. */
  lemma NothingReached(data: Bytes, starts: seq<nat>)
    requires Chain(data, starts) && |starts| <= 33
    requires |starts| == 33 || SegmentAt(data, starts[|starts| - 1]) == Stop
    ensures IsOrientation(data, 1)
  {
    forall other, payload
      ensures !Reaches(data, other, payload)
    {
      if Reaches(data, other, payload) {
        NotBeyond(data, starts, other, payload);
        if |starts| < |other| {
          SkipsAt(data, other, |starts| - 1);
        }
        ChainsAgree(data, starts, other, |starts| - 1);
      }
    }
  }

  /** One turn of the walk: the fill bytes, the marker and the length of the segment at `start`. */
  method ReadSegment(data: Bytes, start: nat) returns (segment: Segment)
    ensures segment == SegmentAt(data, start)
  {
    var i := start;
    while i + 1 < |data| && data[i] == 0xFF && data[i + 1] == 0xFF
      invariant start <= i && MarkerAt(data, start) == MarkerAt(data, i)
      decreases |data| - i
    {
      i := i + 1;
    }
    if i + 4 > |data| || data[i] != 0xFF {
      return Stop;
    }
    var marker := data[i + 1];
    if marker == 0x01 || (marker >= 0xD0 && marker <= 0xD7) {
      return Skip(i + 2);
    }
    if marker == 0xDA {
      return Stop;
    }
    var length := data[i + 2] as int * 256 + data[i + 3] as int;
    if length < 2 || i + 2 + length > |data| {
      return Stop;
    }
    if marker == 0xE1 {
      var payload := data[i + 4..i + 2 + length];
      if |payload| >= 6 && payload[..6] == EXIF_HEADER {
        return Exif(payload);
      }
    }
    return Skip(i + 2 + length);
  }

  method JpegOrientation(data: Bytes) returns (v: int)
    ensures 1 <= v <= 8 && IsOrientation(data, v)
  {
    if |data| < 4 || data[0] != 0xFF || data[1] != 0xD8 {
      return 1;
    }
    var i: nat := 2;
    ghost var starts: seq<nat> := [2];
    assert IsJpeg(data) && Chain(data, starts);
    hide SegmentAt, StartsExif, Chain, IsOrientation, IsExifValue;
    for seg := 0 to MAX_SEGMENTS
      invariant |starts| == seg + 1 && starts[seg] == i && Chain(data, starts)
    {
      var segment := ReadSegment(data, i);
      match segment {
        case Stop =>
          NothingReached(data, starts);
          return 1;
        case Exif(payload) =>
          ExifStarts(data, i, payload);
          v := ExifOrientation(payload);
          ExifReached(data, starts, payload, v);
          return;
        case Skip(next) =>
          ChainGrows(data, starts, next);
          i := next;
          starts := starts + [i];
      }
    }
    NothingReached(data, starts);
    return 1;
  }

  lemma ExifStarts(data: Bytes, i: nat, payload: Bytes)
    requires SegmentAt(data, i) == Exif(payload)
    ensures StartsExif(payload)
  {
  }

  lemma ExifReached(data: Bytes, starts: seq<nat>, payload: Bytes, v: int)
    requires IsJpeg(data) && Chain(data, starts) && |starts| <= MAX_SEGMENTS
    requires SegmentAt(data, starts[|starts| - 1]) == Exif(payload) && StartsExif(payload) &&
             IsExifValue(payload[6..], v)
    ensures IsOrientation(data, v)
  {
    hide SegmentAt, IsExifValue;
    assert Reaches(data, starts, payload);
    assert Shows(data, starts, payload, v);
  }

  lemma ChainGrows(data: Bytes, starts: seq<nat>, next: nat)
    requires Chain(data, starts) && SegmentAt(data, starts[|starts| - 1]) == Skip(next)
    ensures Chain(data, starts + [next])
  {
  }
}
