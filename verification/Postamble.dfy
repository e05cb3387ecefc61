/** The trailer of a pack file that locates its local index (block_index_recovery.go),
    over Go's unsigned LEB128 varints. */
module Postamble {
  import opened ByteStrings

  /* ----- varints ----- */

  /** `binary.PutUvarint`: seven bits a byte, least significant first. */
  function PutUvarint(x: nat): (r: Bytes)
    ensures |r| >= 1
  {
    if x < 0x80 then [x] else [x % 0x80 + 0x80] + PutUvarint(x / 0x80)
  }

  /** `binary.Uvarint` from byte number `i` of a varint on: the value and the bytes used,
      or nothing when the input ends early or the value exceeds 64 bits. */
  function Uvarint(b: Bytes, i: nat): (r: Option<(nat, nat)>)
    ensures r.Some? ==> 1 <= r.value.1 <= |b|
  {
    if b == [] then None
    else if b[0] < 0x80 then
      if i > 9 || (i == 9 && b[0] > 1) then None else Some((b[0], 1))
    else match Uvarint(b[1..], i + 1)
      case None => None
      case Some((v, n)) => Some((b[0] - 0x80 + 0x80 * v, n + 1))
  }

  /** The values that fit in a 64-bit varint from byte number `i` on: below 2^64 for i == 0. */
  function Limit(i: nat): (r: nat)
    decreases 10 - i
  {
    if i > 9 then 0 else if i == 9 then 2 else 0x80 * Limit(i + 1)
  }

  lemma LimitIs64Bits()
    ensures Limit(0) == 0x1_0000_0000_0000_0000
  {
    assert Limit(8) == 0x80 * 2 && Limit(7) == 0x80 * Limit(8) && Limit(6) == 0x80 * Limit(7);
    assert Limit(5) == 0x80 * Limit(6) && Limit(4) == 0x80 * Limit(5) && Limit(3) == 0x80 * Limit(4);
    assert Limit(2) == 0x80 * Limit(3) && Limit(1) == 0x80 * Limit(2);
  }

  lemma {:induction false} UvarintFrom(x: nat, i: nat, rest: Bytes)
    ensures Uvarint(PutUvarint(x) + rest, i) == if x < Limit(i) then Some((x, |PutUvarint(x)|)) else None
    decreases x
  {
    var b := PutUvarint(x) + rest;
    if x >= 0x80 {
      UvarintFrom(x / 0x80, i + 1, rest);
      assert b[1..] == PutUvarint(x / 0x80) + rest;
      assert x == 0x80 * (x / 0x80) + x % 0x80;
    } else {
      SmallFits(x, i);
    }
  }

  lemma {:induction false} SmallFits(x: nat, i: nat)
    requires x < 0x80
    ensures x < Limit(i) <==> i < 9 || (i == 9 && x < 2)
    decreases 10 - i
  {
    if i < 9 {
      SmallFits(0, i + 1);
    }
  }

  /** Every 64-bit value, and no other, comes back from its varint, whatever follows it. */
  lemma UvarintRoundTrip(x: nat, rest: Bytes)
    ensures Uvarint(PutUvarint(x) + rest, 0)
         == if x < 0x1_0000_0000_0000_0000 then Some((x, |PutUvarint(x)|)) else None
  {
    LimitIs64Bits();
    UvarintFrom(x, 0, rest);
  }

  lemma UvarintLength(x: nat)
    ensures x < 0x80 ==> |PutUvarint(x)| == 1
    ensures x < 0x4000 ==> |PutUvarint(x)| <= 2
    ensures x < 0x1_0000_0000 ==> |PutUvarint(x)| <= 5
  {
    if x >= 0x80 {
      var y := x / 0x80;
      assert |PutUvarint(x)| == 1 + |PutUvarint(y)|;
      if y >= 0x80 {
        var z := y / 0x80;
        assert |PutUvarint(y)| == 1 + |PutUvarint(z)|;
        if z >= 0x80 {
          var v := z / 0x80;
          assert |PutUvarint(z)| == 1 + |PutUvarint(v)|;
          if v >= 0x80 && x < 0x1_0000_0000 {
            assert v / 0x80 < 0x80;
            assert |PutUvarint(v)| == 1 + |PutUvarint(v / 0x80)|;
          }
        }
      }
    }
  }

  /* ----- the postamble ----- */

  datatype PackPostamble = PackPostamble(iv: Bytes, offset: uint32, length: uint32)

  function Payload(p: PackPostamble): (r: Bytes) {
    PutUvarint(1) + (PutUvarint(|p.iv|) + (p.iv + (PutUvarint(p.offset) + PutUvarint(p.length))))
  }

  /** `packBlockPostamble.toBytes`; `crc` is the CRC-32 of a byte string. */
  function ToBytes(crc: Bytes -> uint32, p: PackPostamble): (r: Result<Bytes>) {
    var payload := Payload(p);
    var n := |payload| + 4;
    if n > 255 then Err(TooLong) else Ok(payload + BigEndian(4, crc(payload)) + [n])
  }

  /** Reads one varint off the front. */
  function TakeUvarint(b: Bytes): (r: Option<(nat, Bytes)>) {
    match Uvarint(b, 0)
    case None => None
    case Some((v, n)) => Some((v, b[n..]))
  }

  function DecodePostamble(payload: Bytes): (r: Option<PackPostamble>) {
    match TakeUvarint(payload)
    case None => None
    case Some((flags, afterFlags)) =>
      if flags != 1 then None
      else match TakeUvarint(afterFlags)
        case None => None
        case Some((ivLength, afterLength)) =>
          if ivLength > |afterLength| then None
          else match TakeUvarint(afterLength[ivLength..])
            case None => None
            case Some((off, afterOffset)) =>
              match TakeUvarint(afterOffset)
              case None => None
              case Some((length, _)) =>
                Some(PackPostamble(afterLength[..ivLength], off % 0x1_0000_0000, length % 0x1_0000_0000))
  }

  /** `findPostamble`: the last byte gives the length of payload and checksum before it. */
  function FindPostamble(crc: Bytes -> uint32, b: Bytes): (r: Option<PackPostamble>) {
    if b == [] then None
    else
      var n := b[|b| - 1];
      if n < 5 || |b| - 1 - n < 0 then None
      else
        var body := b[|b| - 1 - n..|b| - 1];
        var payload, sum := body[..n - 4], body[n - 4..];
        if FromBigEndian(sum) != crc(payload) then None else DecodePostamble(payload)
  }

  lemma TakeRoundTrip(x: nat, rest: Bytes)
    requires x < 0x1_0000_0000
    ensures TakeUvarint(PutUvarint(x) + rest) == Some((x, rest))
  {
    hide PutUvarint;
    hide Uvarint;
    UvarintLength(x);
    UvarintRoundTrip(x, rest);
    assert (PutUvarint(x) + rest)[|PutUvarint(x)|..] == rest;
  }

  lemma DecodePayload(p: PackPostamble)
    requires |p.iv| < 0x1_0000_0000
    ensures DecodePostamble(Payload(p)) == Some(p)
  {
    hide PutUvarint;
    hide TakeUvarint;
    var last := PutUvarint(p.length);
    var afterIv := PutUvarint(p.offset) + last;
    TakeRoundTrip(1, PutUvarint(|p.iv|) + (p.iv + afterIv));
    TakeRoundTrip(|p.iv|, p.iv + afterIv);
    assert (p.iv + afterIv)[|p.iv|..] == afterIv;
    assert (p.iv + afterIv)[..|p.iv|] == p.iv;
    TakeRoundTrip(p.offset, last);
    TakeRoundTrip(p.length, []);
    assert last + [] == last;
  }

  /** A postamble is found again behind any bytes whatever. */
  lemma PostambleRoundTrip(crc: Bytes -> uint32, prefix: Bytes, p: PackPostamble)
    requires ToBytes(crc, p).Ok?
    ensures FindPostamble(crc, prefix + ToBytes(crc, p).value) == Some(p)
  {
    hide Payload;
    hide DecodePostamble;
    hide BigEndian;
    hide FromBigEndian;
    var payload := Payload(p);
    PayloadLength(p);
    var sum := BigEndian(4, crc(payload));
    var b := prefix + ToBytes(crc, p).value;
    var n := |payload| + 4;
    assert b[|b| - 1] == n;
    var body := b[|b| - 1 - n..|b| - 1];
    assert body == payload + sum;
    assert body[..n - 4] == payload && body[n - 4..] == sum;
    Pow256Values();
    BigEndianRoundTrip(4, crc(payload));
    DecodePayload(p);
  }

  /** The file ends in this payload, its checksum and the length of both. */
  predicate Framed(crc: Bytes -> uint32, b: Bytes, payload: Bytes) {
    && 1 <= |payload| <= 251
    && var frame := payload + BigEndian(4, crc(payload)) + [|payload| + 4];
    |frame| <= |b| && b[|b| - |frame|..] == frame
  }

  /** A postamble is found exactly if the file ends in one with the right checksum. */
  lemma FoundIff(crc: Bytes -> uint32, b: Bytes, p: PackPostamble)
    ensures FindPostamble(crc, b) == Some(p) <==>
      exists payload :: Framed(crc, b, payload) && DecodePostamble(payload) == Some(p)
  {
    hide *;
    if payload :| Framed(crc, b, payload) && DecodePostamble(payload) == Some(p) {
      FramedFound(crc, b, payload);
    }
    if FindPostamble(crc, b) == Some(p) {
      var payload := FoundFramed(crc, b);
    }
  }

  lemma FoundFramed(crc: Bytes -> uint32, b: Bytes) returns (payload: Bytes)
    requires FindPostamble(crc, b).Some?
    ensures Framed(crc, b, payload) && DecodePostamble(payload) == FindPostamble(crc, b)
  {
    hide DecodePostamble;
    hide BigEndian;
    hide FromBigEndian;
    var n := b[|b| - 1];
    var body := b[|b| - 1 - n..|b| - 1];
    payload := body[..n - 4];
    var sum := body[n - 4..];
    BigEndianOf(sum);
    assert b[|b| - 1 - n..] == body + [n] && body == payload + sum;
  }

  lemma FramedFound(crc: Bytes -> uint32, b: Bytes, payload: Bytes)
    requires Framed(crc, b, payload)
    ensures FindPostamble(crc, b) == DecodePostamble(payload)
  {
    hide DecodePostamble;
    hide BigEndian;
    hide FromBigEndian;
    var sum := BigEndian(4, crc(payload));
    var n := |payload| + 4;
    var frame := payload + sum + [n];
    assert b == b[..|b| - |frame|] + frame;
    assert b[|b| - 1] == n;
    var body := b[|b| - 1 - n..|b| - 1];
    assert body == payload + sum;
    assert body[..n - 4] == payload && body[n - 4..] == sum;
    Pow256Values();
    BigEndianRoundTrip(4, crc(payload));
  }

  /** The payload is a sequence of fields: flags, the vector and its length, offset, length. */
  ghost predicate Holds(payload: Bytes, p: PackPostamble, fields: (Bytes, Bytes, nat, Bytes, nat, Bytes)) {
    var (a, b, off, c, length, d) := fields;
    && TakeUvarint(payload) == Some((1, a)) && TakeUvarint(a) == Some((|p.iv|, p.iv + b))
    && TakeUvarint(b) == Some((off, c)) && TakeUvarint(c) == Some((length, d))
    && p.offset == off % 0x1_0000_0000 && p.length == length % 0x1_0000_0000
  }

  /** What is decoded is what the fields say, and the flags are 1. */
  lemma DecodedIff(payload: Bytes, p: PackPostamble)
    ensures DecodePostamble(payload) == Some(p) <==> exists fields :: Holds(payload, p, fields)
  {
    hide TakeUvarint;
    if DecodePostamble(payload) == Some(p) {
      var a := TakeUvarint(payload).value.1;
      var (n, rest) := TakeUvarint(a).value;
      var (off, c) := TakeUvarint(rest[n..]).value;
      var (length, d) := TakeUvarint(c).value;
      assert rest == p.iv + rest[n..];
      assert Holds(payload, p, (a, rest[n..], off, c, length, d));
    }
    if fields :| Holds(payload, p, fields) {
      var rest := p.iv + fields.1;
      assert rest[|p.iv|..] == fields.1 && rest[..|p.iv|] == p.iv;
    }
  }

  lemma PayloadLength(p: PackPostamble)
    ensures |p.iv| + 4 <= |Payload(p)|
    ensures |p.iv| <= 238 ==> |Payload(p)| + 4 <= 255
  {
    hide PutUvarint;
    UvarintLength(1);
    UvarintLength(|p.iv|);
    UvarintLength(p.offset);
    UvarintLength(p.length);
  }

  /** Every initialisation vector of at most 238 bytes fits, whatever the 32-bit fields. */
  lemma PostambleFits(crc: Bytes -> uint32, p: PackPostamble)
    requires |p.iv| <= 238
    ensures ToBytes(crc, p).Ok?
  {
    PayloadLength(p);
  }
}
