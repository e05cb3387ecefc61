/** The byte layout of an index file (builder.go, format.go, index.go). */
module IndexFormat {
  import opened ByteStrings
  import opened ContentId
  import opened BlockInfo

  const ENTRY_LENGTH := 20
  const VERSION: byte := 1
  const DELETED_BIT := 0x8000_0000
  const TWO32 := 0x1_0000_0000
  const TWO64 := 0x1_0000_0000_0000_0000

  /* ----- one entry ----- */

  datatype Entry = Entry(timestampAndFlags: uint64, packFileOffset: uint32, packedOffset: uint32, packedLength: uint32)
  {
    predicate IsDeleted() { packedOffset / DELETED_BIT % 2 != 0 }
    function TimestampSeconds(): int64 { timestampAndFlags / 0x1_0000 }
    function PackedFormatVersion(): byte { timestampAndFlags / 0x100 % 0x100 }
    function PackFileLength(): byte { timestampAndFlags % 0x100 }
    function PackedOffset(): uint32 { packedOffset % DELETED_BIT }
  }

  /** `entry.parse`. */
  function ParseEntry(b: Bytes): (r: Result<Entry>)
    ensures r.Ok? <==> |b| >= ENTRY_LENGTH
  {
    if |b| < ENTRY_LENGTH then Err(ShortRead)
    else
      FromBigEndianBound(b[0..8]); FromBigEndianBound(b[8..12]);
      FromBigEndianBound(b[12..16]); FromBigEndianBound(b[16..20]);
      Pow256Values();
      Ok(Entry(FromBigEndian(b[0..8]), FromBigEndian(b[8..12]), FromBigEndian(b[12..16]), FromBigEndian(b[16..20])))
  }

  /** The 64-bit word holding timestamp, format version and pack name length. Wider values
      are shifted out or smeared over their neighbours, as `<<` and `|` on uint64 do. */
  function TimestampAndFlags(it: Info): (r: nat) {
    BitOr(BitOr((it.timestamp * 0x1_0000) % TWO64, it.formatVersion * 0x100), |it.packFile|) % TWO64
  }

  function OffsetAndDeleted(it: Info): (r: nat) {
    if it.deleted then BitOr(it.packOffset, DELETED_BIT) % TWO32 else it.packOffset
  }

  /** `formatEntry` for an entry whose pack name starts at `nameOffset` in the file. */
  function EntryBytes(it: Info, nameOffset: uint32): (r: Bytes)
    ensures |r| == ENTRY_LENGTH
  {
    BigEndian(8, TimestampAndFlags(it)) + BigEndian(4, nameOffset)
    + BigEndian(4, OffsetAndDeleted(it)) + BigEndian(4, it.length)
  }

  /** The field values that fit their slots in an entry. */
  predicate Representable(it: Info) {
    && 0 <= it.timestamp < 0x1_0000_0000_0000
    && |it.packFile| < 0x100
    && it.packOffset < DELETED_BIT
  }

  predicate Describes(e: Entry, it: Info, nameOffset: uint32) {
    && e.TimestampSeconds() == it.timestamp
    && e.PackedFormatVersion() == it.formatVersion
    && e.PackFileLength() == |it.packFile|
    && e.packFileOffset == nameOffset
    && e.PackedOffset() == it.packOffset
    && e.IsDeleted() == it.deleted
    && e.packedLength == it.length
  }

  lemma {:induction false} BitOrCommutes(a: nat, b: nat)
    ensures BitOr(a, b) == BitOr(b, a)
  {
    if a > 0 && b > 0 {
      BitOrCommutes(a / 2, b / 2);
    }
  }

  lemma FlagsOfRepresentable(it: Info)
    requires Representable(it)
    ensures TimestampAndFlags(it) == it.timestamp * 0x1_0000 + it.formatVersion * 0x100 + |it.packFile|
    ensures OffsetAndDeleted(it) == it.packOffset + (if it.deleted then DELETED_BIT else 0)
  {
    hide BitOr;
    hide Pow2;
    Pow2Values();
    var t: int, v: int := it.timestamp, it.formatVersion;
    assert (t * 0x1_0000) % TWO64 == t * 0x1_0000;
    BitOrDisjoint(t, 16, v * 0x100);
    BitOrDisjoint(t * 0x100 + v, 8, |it.packFile|);
    BitOrDisjoint(1, 31, it.packOffset);
    BitOrCommutes(it.packOffset, DELETED_BIT);
  }

  lemma WordFields(t: nat, v: byte, l: byte)
    ensures var w := t * 0x1_0000 + v * 0x100 + l;
      w / 0x1_0000 == t && w / 0x100 % 0x100 == v && w % 0x100 == l
  {
    var w := t * 0x1_0000 + v * 0x100 + l;
    assert w / 0x100 == t * 0x100 + v;
  }

  lemma ParsedWords(it: Info, nameOffset: uint32)
    ensures ParseEntry(EntryBytes(it, nameOffset)).Ok?
    ensures var e := ParseEntry(EntryBytes(it, nameOffset)).value;
      && e.packFileOffset == nameOffset && e.packedLength == it.length && e.packedOffset == OffsetAndDeleted(it)
      && (Representable(it) ==> e.timestampAndFlags == TimestampAndFlags(it))
  {
    var b := EntryBytes(it, nameOffset);
    Pow256Values();
    assert b[0..8] == BigEndian(8, TimestampAndFlags(it));
    assert b[8..12] == BigEndian(4, nameOffset);
    assert b[12..16] == BigEndian(4, OffsetAndDeleted(it));
    assert b[16..20] == BigEndian(4, it.length);
    BigEndianRoundTrip(4, nameOffset);
    BigEndianRoundTrip(4, it.length);
    BigEndianRoundTrip(8, TimestampAndFlags(it));
    BigEndianRoundTrip(4, OffsetAndDeleted(it));
  }

  /** An entry is read back as it was written exactly when its fields fit their slots. */
  lemma EntryRoundTrip(it: Info, nameOffset: uint32)
    ensures ParseEntry(EntryBytes(it, nameOffset)).Ok?
    ensures Describes(ParseEntry(EntryBytes(it, nameOffset)).value, it, nameOffset) <==> Representable(it)
  {
    hide TimestampAndFlags;
    hide OffsetAndDeleted;
    hide EntryBytes;
    hide ParseEntry;
    ParsedWords(it, nameOffset);
    if Representable(it) {
      FlagsOfRepresentable(it);
      WordFields(it.timestamp, it.formatVersion, |it.packFile|);
    }
  }

  /* ----- the file written by Build ----- */

  /** Offsets of the pack names within the extra data, and the extra data itself. */
  datatype Names = Names(offsets: map<Bytes, uint32>, extra: Bytes)

  function AddName(n: Names, packFile: Bytes): (r: Names) {
    if packFile != [] && packFile !in n.offsets
    then Names(n.offsets[packFile := |n.extra| % TWO32], n.extra + packFile)
    else n
  }

  function NamesOf(s: seq<Info>): (r: Names) {
    if s == [] then Names(map[], [])
    else AddName(NamesOf(s[..|s| - 1]), s[|s| - 1].packFile)
  }

  /** A live entry at an offset with the top bit set is read back as deleted, at another place. */
  lemma HighOffsetReadsDeleted(it: Info, nameOffset: uint32)
    requires !it.deleted && it.packOffset >= DELETED_BIT
    ensures var e := ParseEntry(EntryBytes(it, nameOffset));
      e.Ok? && e.value.IsDeleted() && e.value.PackedOffset() == it.packOffset - DELETED_BIT
  {
    hide TimestampAndFlags;
    hide EntryBytes;
    hide ParseEntry;
    ParsedWords(it, nameOffset);
    var x: int := it.packOffset;
    assert x == 1 * DELETED_BIT + (x - DELETED_BIT);
    assert x / DELETED_BIT == 1 && x % DELETED_BIT == x - DELETED_BIT;
  }

  /** -1, like the untouched layout field, when there are no entries. */
  function KeyLength(s: seq<Info>): (r: int)
    ensures r >= -1
  {
    if s == [] then -1 else |ToKey(s[0].blockID)|
  }

  /** `i * w`, the offset of row `i` from the first row. */
  function RowOffset(i: nat, w: nat): (r: nat) {
    if i == 0 then 0 else RowOffset(i - 1, w) + w
  }

  lemma {:induction false} RowOffsetIsProduct(i: nat, w: nat)
    ensures RowOffset(i, w) == i * w
  {
    if i > 0 {
      RowOffsetIsProduct(i - 1, w);
      assert (i - 1) * w + w == i * w;
    }
  }

  lemma {:induction false} RowOffsetAtLeast(i: nat, w: nat)
    requires w > 0
    ensures i <= RowOffset(i, w)
  {
    if i > 0 {
      RowOffsetAtLeast(i - 1, w);
    }
  }

  function RowLength(s: seq<Info>): nat {
    KeyLength(s) + ENTRY_LENGTH
  }

  function ExtraOffset(s: seq<Info>): uint32 {
    (8 + RowOffset(|s|, RowLength(s))) % TWO32
  }

  /** `part` is found at offset `at`. */
  predicate PartAt(b: Bytes, at: nat, part: Bytes) {
    at + |part| <= |b| && b[at..at + |part|] == part
  }

  function HeaderBytes(s: seq<Info>): (r: Bytes)
    ensures |r| == 8
  {
    [VERSION, KeyLength(s) % 0x100] + BigEndian(2, ENTRY_LENGTH) + BigEndian(4, |s|)
  }

  function NameOffset(it: Info, n: Names, base: uint32): uint32 {
    (base + (if it.packFile in n.offsets then n.offsets[it.packFile] else 0)) % TWO32
  }

  function Row(it: Info, n: Names, base: uint32): (r: Bytes) {
    ToKey(it.blockID) + EntryBytes(it, NameOffset(it, n, base))
  }

  function Rows(s: seq<Info>, n: Names, base: uint32): (r: Bytes) {
    if s == [] then [] else Rows(s[..|s| - 1], n, base) + Row(s[|s| - 1], n, base)
  }

  /** The first entry that cannot be written, if any (`writeEntry`, `formatEntry`). */
  function FirstError(s: seq<Info>, keyLength: int): (r: Option<Error>) {
    if s == [] then None
    else
      var r := FirstError(s[..|s| - 1], keyLength);
      var it := s[|s| - 1];
      if r.Some? then r
      else if |ToKey(it.blockID)| != keyLength then Some(InconsistentKeyLength)
      else if it.packFile == [] then Some(EmptyPackName)
      else None
  }

  lemma {:induction false} NoError(s: seq<Info>, keyLength: int)
    ensures FirstError(s, keyLength).None? <==>
      forall i :: 0 <= i < |s| ==> |ToKey(s[i].blockID)| == keyLength && s[i].packFile != []
  {
    hide ToKey;
    if s != [] {
      var t := s[..|s| - 1];
      NoError(t, keyLength);
      assert forall i :: 0 <= i < |t| ==> t[i] == s[i];
    }
  }

  predicate HasPayload(it: Info) {
    it.payload.Some? && |it.payload.value| > 0
  }

  /** The outcome of `Build` on the sorted entries; a payload makes it panic. */
  function Encode(s: seq<Info>): (r: Result<Bytes>) {
    if exists i :: 0 <= i < |s| && HasPayload(s[i]) then Err(InlinePayload)
    else match FirstError(s, KeyLength(s))
      case Some(e) => Err(e)
      case None =>
        var n := NamesOf(s);
        Ok(HeaderBytes(s) + Rows(s, n, ExtraOffset(s)) + n.extra)
  }

  /* ----- reading a file ----- */

  datatype Header = Header(keySize: nat, valueSize: nat, entryCount: nat)

  /** `ReadAt` that must fill its buffer. */
  function ReadAt(data: Bytes, offset: nat, n: nat): (r: Option<Bytes>) {
    if offset < |data| && offset + n <= |data| then Some(data[offset..offset + n]) else None
  }

  function ReadHeader(data: Bytes): (r: Result<Header>) {
    if |data| < 8 then Err(ShortRead)
    else if data[0] != VERSION then Err(InvalidHeader)
    else if data[1] <= 1 then Err(InvalidHeader)
    else Ok(Header(data[1], FromBigEndian(data[2..4]), FromBigEndian(data[4..8])))
  }

  datatype File = File(hdr: Header, data: Bytes)
  {
    function Stride(): nat { hdr.keySize + hdr.valueSize }

    function RowAt(i: nat): (r: Option<Bytes>)
      ensures r.Some? ==> |r.value| == Stride()
    {
      ReadAt(data, 8 + RowOffset(i, Stride()), Stride())
    }

    /** `entryToInfo`. */
    function EntryToInfo(blockID: Bytes, value: Bytes): (r: Result<Info>) {
      match ParseEntry(value)
      case Err(e) => Err(e)
      case Ok(e) =>
        match ReadAt(data, e.packFileOffset, e.PackFileLength())
        case None => Err(ShortRead)
        case Some(name) =>
          Ok(Info(blockID, e.packedLength, e.TimestampSeconds(), name, e.PackedOffset(), e.IsDeleted(),
                  None, e.PackedFormatVersion()))
    }

    /** Row `i` of the file holds exactly the entry `it`. */
    predicate RowHolds(i: nat, it: Info) {
      && RowAt(i).Some?
      && RowAt(i).value[..hdr.keySize] == ToKey(it.blockID)
      && FromKey(RowAt(i).value[..hdr.keySize]) == it.blockID
      && EntryToInfo(it.blockID, RowAt(i).value[hdr.keySize..]) == Ok(it)
    }

    /** The file lists exactly `s`, which is in ascending order. */
    ghost predicate Lists(s: seq<Info>) {
      && Ascending(s)
      && hdr.entryCount == |s|
      && forall i :: 0 <= i < |s| ==> RowHolds(i, s[i])
    }
  }

  /** `openPackIndex`. */
  function Open(data: Bytes): (r: Result<File>) {
    match ReadHeader(data)
    case Err(e) => Err(e)
    case Ok(h) => Ok(File(h, data))
  }

  /** A file opens exactly if it begins with a header of this version and a key length above one,
      and then the header is read as it stands. */
  lemma OpensIff(data: Bytes, f: File)
    ensures Open(data) == Ok(f) <==>
      && f.data == data && |data| >= 8 && 1 < f.hdr.keySize < 0x100 && f.hdr.valueSize < 0x1_0000 && f.hdr.entryCount < TWO32
      && data[..8] == [1, f.hdr.keySize] + BigEndian(2, f.hdr.valueSize) + BigEndian(4, f.hdr.entryCount)
  {
    hide BigEndian;
    hide FromBigEndian;
    Pow256Values();
    if |data| >= 8 {
      BigEndianOf(data[2..4]);
      BigEndianOf(data[4..8]);
      FromBigEndianBound(data[2..4]);
      FromBigEndianBound(data[4..8]);
      assert data[..8] == [data[0], data[1]] + data[2..4] + data[4..8];
      if f.hdr.valueSize < 0x1_0000 && f.hdr.entryCount < TWO32 && 1 < f.hdr.keySize < 0x100 {
        BigEndianRoundTrip(2, f.hdr.valueSize);
        BigEndianRoundTrip(4, f.hdr.entryCount);
        var v, n := BigEndian(2, f.hdr.valueSize), BigEndian(4, f.hdr.entryCount);
        var h: Bytes := [1, f.hdr.keySize] + v + n;
        assert h[2..4] == v && h[4..8] == n && h[0] == 1 && h[1] == f.hdr.keySize;
        assert data[..8][2..4] == data[2..4] && data[..8][4..8] == data[4..8];
      }
    }
  }

  /* ----- what Build writes, Open reads ----- */

  /** Builders the format can hold: equal-length keys of 2 to 255 bytes, representable
      entries with a pack name and no payload, and 32-bit offsets throughout. */
  ghost predicate Encodable(s: seq<Info>) {
    && (s != [] ==> 2 <= KeyLength(s) <= 255)
    && (forall i :: 0 <= i < |s| ==>
          && Canonical(s[i].blockID) && |ToKey(s[i].blockID)| == KeyLength(s)
          && Representable(s[i]) && s[i].packFile != [] && s[i].payload == None)
    && 8 + RowOffset(|s|, RowLength(s)) + |NamesOf(s).extra| < TWO32
  }

  /** Every recorded name is found whole at its offset. */
  ghost predicate NamesSound(n: Names) {
    forall p :: p in n.offsets ==> PartAt(n.extra, n.offsets[p], p)
  }

  lemma AddNameSound(n: Names, p: Bytes)
    requires NamesSound(n) && |AddName(n, p).extra| < TWO32
    ensures NamesSound(AddName(n, p))
    ensures p != [] ==> p in AddName(n, p).offsets
  {
    hide PartAt;
    var m := AddName(n, p);
    forall q | q in m.offsets ensures PartAt(m.extra, m.offsets[q], q) {
      if q in n.offsets {
        PartOfFirst(n.extra, m.extra, n.offsets[q], q);
      } else {
        PartAtEnd(n.extra, p);
      }
    }
  }

  lemma PartOfFirst(a: Bytes, b: Bytes, at: nat, part: Bytes)
    requires a <= b && PartAt(a, at, part)
    ensures PartAt(b, at, part)
  {
  }

  lemma PartAtEnd(a: Bytes, part: Bytes)
    ensures PartAt(a + part, |a|, part)
  {
  }

  /** The layout records the pack name of every entry. */
  lemma {:induction false} NamesFound(s: seq<Info>)
    requires |NamesOf(s).extra| < TWO32
    ensures NamesSound(NamesOf(s))
    ensures forall i :: 0 <= i < |s| && s[i].packFile != [] ==> s[i].packFile in NamesOf(s).offsets
  {
    hide NamesSound;
    if s != [] {
      var last := |s| - 1;
      var t := s[..last];
      assert |NamesOf(t).extra| <= |NamesOf(s).extra|;
      NamesFound(t);
      AddNameSound(NamesOf(t), s[last].packFile);
      forall i | 0 <= i < last && s[i].packFile != [] ensures s[i].packFile in NamesOf(s).offsets {
        assert t[i] == s[i];
      }
    } else {
      NoNames();
    }
  }

  lemma NoNames()
    ensures NamesSound(Names(map[], []))
  {
  }

  lemma {:induction false} RowsLength(s: seq<Info>, n: Names, base: uint32, k: nat)
    requires forall i :: 0 <= i < |s| ==> |ToKey(s[i].blockID)| == k
    ensures |Rows(s, n, base)| == RowOffset(|s|, k + ENTRY_LENGTH)
  {
    hide ToKey;
    hide EntryBytes;
    if s != [] {
      RowsLength(s[..|s| - 1], n, base, k);
    }
  }

  /** Row `i` sits at its stride. */
  lemma {:induction false} RowsAt(s: seq<Info>, n: Names, base: uint32, k: nat, i: nat)
    requires forall j :: 0 <= j < |s| ==> |ToKey(s[j].blockID)| == k
    requires i < |s|
    ensures PartAt(Rows(s, n, base), RowOffset(i, k + ENTRY_LENGTH), Row(s[i], n, base))
  {
    hide ToKey;
    hide EntryBytes;
    var last := |s| - 1;
    var t := s[..last];
    RowsLength(t, n, base, k);
    if i < last {
      RowsAt(t, n, base, k, i);
      assert t[i] == s[i];
    }
  }

  lemma HeaderRead(s: seq<Info>, tail: Bytes)
    requires s == [] || 2 <= KeyLength(s) <= 255
    requires |s| < TWO32
    ensures ReadHeader(HeaderBytes(s) + tail) == Ok(Header(if s == [] then 255 else KeyLength(s), ENTRY_LENGTH, |s|))
  {
    hide ToKey;
    hide BigEndian;
    hide FromBigEndian;
    hide Pow256;
    var d := HeaderBytes(s) + tail;
    assert d[2..4] == BigEndian(2, ENTRY_LENGTH);
    assert d[4..8] == BigEndian(4, |s|);
    Pow256Values();
    BigEndianRoundTrip(2, ENTRY_LENGTH);
    BigEndianRoundTrip(4, |s|);
  }

  /** The file the encoder produces for entries it accepts. */
  function EncodedFile(s: seq<Info>): (f: File) {
    File(Header(if s == [] then 255 else KeyLength(s), ENTRY_LENGTH, |s|),
         HeaderBytes(s) + Rows(s, NamesOf(s), ExtraOffset(s)) + NamesOf(s).extra)
  }

  lemma PartOfMiddle(a: Bytes, b: Bytes, c: Bytes, at: nat, part: Bytes)
    requires PartAt(b, at, part)
    ensures PartAt(a + b + c, |a| + at, part)
  {
  }

  lemma PartOfLast(a: Bytes, b: Bytes, at: nat, part: Bytes)
    requires PartAt(b, at, part)
    ensures PartAt(a + b, |a| + at, part)
  {
  }

  lemma EncodableKeys(s: seq<Info>)
    requires Encodable(s) && s != []
    ensures KeyLength(s) >= 0
    ensures forall j :: 0 <= j < |s| ==> |ToKey(s[j].blockID)| == KeyLength(s)
  {
    hide ToKey;
    hide Canonical;
    hide Representable;
    hide NamesOf;
  }

  /** Nothing wraps around: the extra data follows the rows. */
  lemma ExtraOffsetExact(s: seq<Info>)
    requires Encodable(s) && s != []
    ensures ExtraOffset(s) == 8 + |Rows(s, NamesOf(s), ExtraOffset(s))|
    ensures ExtraOffset(s) as int + |NamesOf(s).extra| < TWO32
  {
    hide ToKey;
    hide Canonical;
    hide Representable;
    hide NamesOf;
    hide KeyLength;
    EncodableKeys(s);
    RowsLength(s, NamesOf(s), ExtraOffset(s), KeyLength(s));
  }

  lemma RowAtIs(f: File, i: nat, row: Bytes)
    requires |row| == f.Stride() > 0 && PartAt(f.data, 8 + RowOffset(i, f.Stride()), row)
    ensures f.RowAt(i) == Some(row)
  {
    hide RowOffset;
  }

  lemma EncodedFileShape(s: seq<Info>)
    requires s != [] && KeyLength(s) >= 0
    ensures EncodedFile(s).data == HeaderBytes(s) + Rows(s, NamesOf(s), ExtraOffset(s)) + NamesOf(s).extra
    ensures EncodedFile(s).Stride() == KeyLength(s) + ENTRY_LENGTH > 0
  {
    hide ToKey;
    hide EntryBytes;
    hide Rows;
    hide NamesOf;
    hide ExtraOffset;
  }

  lemma RowWidth(it: Info, n: Names, base: uint32)
    ensures |Row(it, n, base)| == |ToKey(it.blockID)| + ENTRY_LENGTH
  {
    hide ToKey;
    hide EntryBytes;
  }

  lemma EncodedRowRead(s: seq<Info>, i: nat)
    requires Encodable(s) && i < |s|
    ensures EncodedFile(s).RowAt(i) == Some(Row(s[i], NamesOf(s), ExtraOffset(s)))
  {
    hide *;
    EncodableKeys(s);
    var n, base, k := NamesOf(s), ExtraOffset(s), KeyLength(s);
    var row := Row(s[i], n, base);
    RowWidth(s[i], n, base);
    RowsAt(s, n, base, k, i);
    PartOfMiddle(HeaderBytes(s), Rows(s, n, base), n.extra, RowOffset(i, k + ENTRY_LENGTH), row);
    EncodedFileShape(s);
    RowAtIs(EncodedFile(s), i, row);
  }

  lemma EncodedNameRead(s: seq<Info>, i: nat)
    requires Encodable(s) && i < |s|
    ensures ReadAt(EncodedFile(s).data, NameOffset(s[i], NamesOf(s), ExtraOffset(s)), |s[i].packFile|) == Some(s[i].packFile)
  {
    hide ToKey;
    hide Canonical;
    hide Representable;
    hide Rows;
    hide NamesOf;
    hide HeaderBytes;
    hide ExtraOffset;
    ExtraOffsetExact(s);
    var n, base, it := NamesOf(s), ExtraOffset(s), s[i];
    NamesFound(s);
    var off := n.offsets[it.packFile];
    assert NameOffset(it, n, base) as int == base as int + off as int;
    PartOfLast(HeaderBytes(s) + Rows(s, n, base), n.extra, off, it.packFile);
  }

  lemma EncodedRowHolds(s: seq<Info>, i: nat)
    requires Encodable(s) && i < |s|
    ensures EncodedFile(s).RowHolds(i, s[i])
  {
    hide ToKey;
    hide FromKey;
    hide Canonical;
    hide Representable;
    hide Rows;
    hide NamesOf;
    hide HeaderBytes;
    hide EntryBytes;
    hide ParseEntry;
    hide ReadAt;
    hide NameOffset;
    hide ExtraOffset;
    var n, base, it, k := NamesOf(s), ExtraOffset(s), s[i], KeyLength(s);
    EncodedRowRead(s, i);
    EncodedNameRead(s, i);
    var row := Row(it, n, base);
    var at := NameOffset(it, n, base);
    assert row[..k] == ToKey(it.blockID);
    assert row[k..] == EntryBytes(it, at);
    KeyRoundTrip(it.blockID);
    EntryRoundTrip(it, at);
  }

  /** The bytes written for an encodable builder open as a file that lists its entries. */
  lemma EncodeOpens(s: seq<Info>) returns (f: File)
    requires Ascending(s) && Encodable(s)
    ensures Encode(s).Ok? && Open(Encode(s).value) == Ok(f)
    ensures f.Lists(s)
    ensures f.hdr.keySize == if s == [] then 255 else KeyLength(s)
  {
    hide ToKey;
    hide Canonical;
    hide Representable;
    hide Rows;
    hide NamesOf;
    hide FirstError;
    hide HeaderBytes;
    hide ReadHeader;
    hide Less;
    hide ExtraOffset;
    NoError(s, KeyLength(s));
    var n := NamesOf(s);
    var rows := Rows(s, n, ExtraOffset(s));
    var data := Encode(s).value;
    RowOffsetAtLeast(|s|, RowLength(s));
    assert data == HeaderBytes(s) + (rows + n.extra);
    HeaderRead(s, rows + n.extra);
    f := EncodedFile(s);
    forall i | 0 <= i < |s| ensures f.RowHolds(i, s[i]) {
      hide File.RowHolds;
      EncodedRowHolds(s, i);
    }
  }
}
