/** Block IDs and the binary keys under which the index stores them
    (content_id_to_bytes.go), over Go's base-16 codec. */
module ContentId {
  import opened ByteStrings

  /* ----- base 16 ----- */

  function HexDigit(n: nat): (c: byte)
    requires n < 16
  {
    if n < 10 then 48 + n else 87 + n
  }

  function HexValue(c: byte): (r: Option<nat>)
    ensures r.Some? ==> r.value < 16
  {
    if 48 <= c <= 57 then Some(c - 48)
    else if 97 <= c <= 102 then Some(c - 87)
    else if 65 <= c <= 70 then Some(c - 55)
    else None
  }

  /** `hex.EncodeToString`. */
  function HexEncode(b: Bytes): (s: Bytes)
    ensures |s| == 2 * |b|
  {
    if b == [] then []
    else [HexDigit(b[0] / 16), HexDigit(b[0] % 16)] + HexEncode(b[1..])
  }

  /** `hex.DecodeString`: both cases of letters are accepted; anything else, and an odd
      number of digits, is an error. */
  function HexDecode(s: Bytes): (r: Option<Bytes>)
    ensures r.Some? ==> |s| == 2 * |r.value|
  {
    if s == [] then Some([])
    else if |s| == 1 then None
    else
      var hi, lo := HexValue(s[0]), HexValue(s[1]);
      var rest := HexDecode(s[2..]);
      if hi.None? || lo.None? || rest.None? then None
      else Some([hi.value * 16 + lo.value] + rest.value)
  }

  predicate IsLowerHex(s: Bytes) {
    forall i :: 0 <= i < |s| ==> 48 <= s[i] <= 57 || 97 <= s[i] <= 102
  }

  lemma {:induction false} HexEncodeLower(b: Bytes)
    ensures IsLowerHex(HexEncode(b))
  {
    if b != [] {
      HexEncodeLower(b[1..]);
      var s := HexEncode(b);
      forall i | 0 <= i < |s| ensures 48 <= s[i] <= 57 || 97 <= s[i] <= 102 {
        if i >= 2 {
          assert s[i] == HexEncode(b[1..])[i - 2];
        }
      }
    }
  }

  lemma {:induction false} HexRoundTrip(b: Bytes)
    ensures HexDecode(HexEncode(b)) == Some(b)
  {
    if b != [] {
      HexRoundTrip(b[1..]);
      assert HexEncode(b)[2..] == HexEncode(b[1..]);
      assert b == [b[0]] + b[1..];
    }
  }

  /** Re-encoding what was decoded gives the text back exactly when it had no capitals. */
  lemma {:induction false} HexReencode(s: Bytes)
    requires HexDecode(s).Some?
    ensures HexEncode(HexDecode(s).value) == s <==> IsLowerHex(s)
  {
    if s != [] {
      HexReencode(s[2..]);
      var b := HexDecode(s).value;
      assert b[1..] == HexDecode(s[2..]).value;
      assert HexEncode(b) == [HexDigit(b[0] / 16), HexDigit(b[0] % 16)] + HexEncode(b[1..]);
      SplitAtTwo(HexEncode(b), s);
      LowerSplit(s);
    }
  }

  lemma SplitAtTwo(e: Bytes, s: Bytes)
    requires |e| >= 2 && |s| >= 2
    ensures e == s <==> e[0] == s[0] && e[1] == s[1] && e[2..] == s[2..]
  {
    if e[0] == s[0] && e[1] == s[1] && e[2..] == s[2..] {
      assert e == [e[0], e[1]] + e[2..] && s == [s[0], s[1]] + s[2..];
    }
  }

  lemma LowerSplit(s: Bytes)
    requires |s| >= 2
    ensures IsLowerHex(s) <==> IsLowerHex(s[..2]) && IsLowerHex(s[2..])
  {
    assert s == s[..2] + s[2..];
  }

  /* ----- keys ----- */

  const RAW_KEY: byte := 0xff

  /** The binary key of a content ID: an optional one-byte prefix followed by decoded
      base 16, or the raw text behind 0xff when the text is not base 16. */
  function ToKey(c: Bytes): (k: Bytes)
    ensures |k| >= 1
  {
    var skip := |c| % 2;
    var prefix: Bytes := if skip == 1 then c[..1] else [0];
    match HexDecode(c[skip..])
    case None => [RAW_KEY] + c
    case Some(b) => prefix + b
  }

  function FromKey(k: Bytes): (c: Bytes) {
    if k == [] then []
    else if k[0] == RAW_KEY then k[1..]
    else (if k[0] != 0 then k[..1] else []) + HexEncode(k[1..])
  }

  /** The content IDs the key format can represent: text that is not base 16, or
      lower-case base 16 after an optional prefix byte other than 0 and 0xff. */
  predicate Canonical(c: Bytes) {
    var skip := |c| % 2;
    HexDecode(c[skip..]).Some? ==>
      IsLowerHex(c[skip..]) && (skip == 1 ==> c[0] != 0 && c[0] != RAW_KEY)
  }

  /** A content ID survives the conversion to a key and back exactly when it is canonical. */
  lemma KeyRoundTrip(c: Bytes)
    ensures FromKey(ToKey(c)) == c <==> Canonical(c)
  {
    var skip := |c| % 2;
    var h := HexDecode(c[skip..]);
    if h.Some? {
      HexReencode(c[skip..]);
      assert ToKey(c)[1..] == h.value;
      if skip == 1 {
        assert c == c[..1] + c[1..];
      } else {
        assert c[0..] == c;
      }
      if skip == 1 && ToKey(c)[0] != 0 && ToKey(c)[0] != RAW_KEY {
        var f := FromKey(ToKey(c));
        assert f[1..] == HexEncode(h.value);
      }
    }
  }

  /** Distinct canonical IDs have distinct keys. */
  lemma KeyInjective(c: Bytes, d: Bytes)
    requires Canonical(c) && Canonical(d)
    ensures ToKey(c) == ToKey(d) <==> c == d
  {
    KeyRoundTrip(c);
    KeyRoundTrip(d);
  }

  /** Block IDs as the block manager makes them: a prefix of at most one letter 'g'..'z'
      followed by the base-16 form of a hash. */
  lemma HashIdCanonical(prefix: Bytes, hash: Bytes)
    requires |prefix| <= 1 && (|prefix| == 1 ==> 103 <= prefix[0] <= 122)
    ensures Canonical(prefix + HexEncode(hash))
    ensures |ToKey(prefix + HexEncode(hash))| == |hash| + 1
  {
    hide HexEncode;
    hide HexDecode;
    hide IsLowerHex;
    var h := HexEncode(hash);
    var c := prefix + h;
    HexEncodeLower(hash);
    HexRoundTrip(hash);
    assert |c| % 2 == |prefix|;
    assert c[|c| % 2..] == h;
    assert HexDecode(c[|c| % 2..]) == Some(hash);
    if |prefix| == 1 {
      assert c[0] == prefix[0];
    }
  }

  /* ----- texts that share a key ----- */

  function UpperDigit(c: byte): (r: byte) {
    if 97 <= c <= 102 then c - 32 else c
  }

  /** The same base-16 text in capitals. */
  function Upper(s: Bytes): (r: Bytes)
    ensures |r| == |s|
  {
    if s == [] then [] else [UpperDigit(s[0])] + Upper(s[1..])
  }

  lemma {:induction false} UpperDecodes(s: Bytes)
    ensures HexDecode(Upper(s)) == HexDecode(s)
  {
    if |s| >= 2 {
      UpperDecodes(s[2..]);
      assert s[1..][1..] == s[2..];
      assert Upper(s)[2..] == Upper(s[2..]);
    } else if |s| == 1 {
      assert |Upper(s)| == 1;
    }
  }

  predicate HasLetter(s: Bytes) {
    exists i :: 0 <= i < |s| && 97 <= s[i] <= 102
  }

  lemma {:induction false} UpperAt(s: Bytes, i: nat)
    requires i < |s|
    ensures Upper(s)[i] == UpperDigit(s[i])
  {
    if i > 0 {
      UpperAt(s[1..], i - 1);
    }
  }

  lemma {:induction false} UpperLess(s: Bytes, i: nat)
    requires i < |s| && 97 <= s[i] <= 102
    ensures Less(Upper(s), s)
  {
    var u := Upper(s);
    assert u[0] == UpperDigit(s[0]);
    if !(97 <= s[0] <= 102) {
      UpperLess(s[1..], i - 1);
      assert u[1..] == Upper(s[1..]);
    }
  }

  /** An ID without prefix and its text in capitals have the same key; the capitals are another
      text, which comes first in the order of IDs and is not canonical. */
  lemma UpperSharesKey(id: Bytes)
    requires |id| % 2 == 0 && IsLowerHex(id) && HasLetter(id) && HexDecode(id).Some?
    ensures ToKey(Upper(id)) == ToKey(id) && Less(Upper(id), id) && Upper(id) != id && !Canonical(Upper(id))
  {
    hide HexDecode;
    hide Less;
    hide Upper;
    UpperDecodes(id);
    var i :| 0 <= i < |id| && 97 <= id[i] <= 102;
    UpperLess(id, i);
    UpperAt(id, i);
    LessTrichotomy(id, id);
    assert id[0..] == id && Upper(id)[0..] == Upper(id);
  }

  /** "AB" comes back from its key as "ab". */
  lemma CapitalsAreLost()
    ensures FromKey(ToKey([65, 66])) == [97, 98]
  {
    var s: Bytes, b: Bytes := [65, 66], [0xab];
    assert s[0..] == s && s[2..] == [];
    assert HexValue(s[0]) == Some(10) && HexValue(s[1]) == Some(11);
    assert HexDecode(s) == Some(b + []);
    assert ToKey(s) == [0] + b;
    assert b[1..] == [] && ([0] + b)[1..] == b;
    assert HexEncode(b) == [HexDigit(10), HexDigit(11)] + HexEncode([]);
  }
}
