/** be/util/md5.{h,cpp}: a streamed digest and its hexadecimal form. The compression function is a
    parameter; the context is represented by the message absorbed so far. */
module Md5 {
  import opened Wrappers

  const MD5_DIGEST_LENGTH := 16

  type Digest = d: Bytes | |d| == MD5_DIGEST_LENGTH witness seq(MD5_DIGEST_LENGTH, _ => 0)

  const DIG_VEC_LOWER := "0123456789abcdef"

  /** The lower-case digit of a half byte; `DigitTable` says the table holds the same. */
  function HexDigit(v: nat): char
    requires v < 16
  {
    if v < 10 then '0' + v as char else 'a' + (v - 10) as char
  }

  lemma DigitTable(v: nat)
    requires v < 16
    ensures DIG_VEC_LOWER[v] == HexDigit(v)
  {
  }

  function HexPair(b: byte): string {
    [HexDigit(b as int / 16), HexDigit(b as int % 16)]
  }

  /** Two lower-case digits for each byte, high half first. */
  function HexEncode(data: Bytes): (hex: string)
    ensures |hex| == 2 * |data|
  {
    if data == [] then "" else HexPair(data[0]) + HexEncode(data[1..])
  }

  function ToLower(c: char): char {
    if 'A' <= c <= 'Z' then c - 'A' + 'a' else c
  }

  /** `boost::iequals` on ASCII text. */
  predicate IEquals(a: string, b: string) {
    |a| == |b| && forall i | 0 <= i < |a| :: ToLower(a[i]) == ToLower(b[i])
  }

  /** The value of a hexadecimal digit of either case, or 16. */
  function HexValue(c: char): (v: nat)
    ensures v <= 16
  {
    if '0' <= c <= '9' then c as int - '0' as int
    else if 'a' <= c <= 'f' then c as int - 'a' as int + 10
    else if 'A' <= c <= 'F' then c as int - 'A' as int + 10
    else 16
  }

  /** The bytes a hexadecimal string of either case stands for. */
  function HexDecode(hex: string): Option<Bytes> {
    if hex == "" then Some([])
    else if |hex| == 1 || HexValue(hex[0]) == 16 || HexValue(hex[1]) == 16 then None
    else
      match HexDecode(hex[2..])
      case None => None
      case Some(rest) => Some([(16 * HexValue(hex[0]) + HexValue(hex[1])) as byte] + rest)
  }

  lemma DigitMatches(v: nat, c: char)
    requires v < 16
    ensures ToLower(HexDigit(v)) == ToLower(c) <==> HexValue(c) == v
  {
  }

  lemma IEqualsSplit(a: string, b: string)
    requires |a| >= 2 && |b| >= 2
    ensures IEquals(a, b)
       <==> ToLower(a[0]) == ToLower(b[0]) && ToLower(a[1]) == ToLower(b[1]) && IEquals(a[2..], b[2..])
  {
    if IEquals(a[2..], b[2..]) {
      forall i | 2 <= i < |a|
        ensures |a| == |b| ==> ToLower(a[i]) == ToLower(b[i])
      {
        assert a[i] == a[2..][i - 2] && (|a| == |b| ==> b[i] == b[2..][i - 2]);
      }
    }
  }

  lemma SplitByte(b: byte, high: nat, low: nat)
    requires high <= 16 && low <= 16
    ensures high < 16 && low < 16 && 16 * high + low == b as int
       <==> high == b as int / 16 && low == b as int % 16
  {
  }

  lemma PairMatches(b: byte, high: char, low: char)
    ensures ToLower(HexPair(b)[0]) == ToLower(high) && ToLower(HexPair(b)[1]) == ToLower(low)
       <==> HexValue(high) < 16 && HexValue(low) < 16 && 16 * HexValue(high) + HexValue(low) == b as int
  {
    DigitMatches(b as int / 16, high);
    DigitMatches(b as int % 16, low);
    SplitByte(b, HexValue(high), HexValue(low));
  }

  lemma DecodeStep(data: Bytes, expected: string)
    requires data != [] && |expected| >= 2
    ensures HexDecode(expected) == Some(data)
       <==> HexValue(expected[0]) < 16 && HexValue(expected[1]) < 16
            && 16 * HexValue(expected[0]) + HexValue(expected[1]) == data[0] as int
            && HexDecode(expected[2..]) == Some(data[1..])
  {
    var high, low, rest := HexValue(expected[0]), HexValue(expected[1]), HexDecode(expected[2..]);
    if high < 16 && low < 16 && rest.Some? {
      var b := (16 * high + low) as byte;
      assert HexDecode(expected) == Some([b] + rest.value);
      assert ([b] + rest.value)[0] == b && ([b] + rest.value)[1..] == rest.value;
      assert data == [data[0]] + data[1..];
    }
  }

  /** The case-insensitive comparison of a digest's hex form with an expected checksum succeeds
      exactly when the checksum decodes to the digest. */
  lemma {:induction false} MatchesIffDecodes(data: Bytes, expected: string)
    ensures IEquals(HexEncode(data), expected) <==> HexDecode(expected) == Some(data)
  {
    if data != [] && |expected| >= 2 {
      assert HexEncode(data)[2..] == HexEncode(data[1..]);
      IEqualsSplit(HexEncode(data), expected);
      PairMatches(data[0], expected[0], expected[1]);
      MatchesIffDecodes(data[1..], expected[2..]);
      DecodeStep(data, expected);
    }
  }

  /** Decoding undoes encoding, so no two byte strings share a hex form. */
  lemma HexRoundTrip(data: Bytes)
    ensures HexDecode(HexEncode(data)) == Some(data)
  {
    MatchesIffDecodes(data, HexEncode(data));
  }

  lemma HexInjective(a: Bytes, b: Bytes)
    ensures HexEncode(a) == HexEncode(b) <==> a == b
  {
    HexRoundTrip(a);
    HexRoundTrip(b);
  }

  /** Digit by digit: the high half of each byte, then its low half, from the table. */
  lemma {:induction false} HexEncodeAt(data: Bytes, i: nat)
    requires i < |data|
    ensures HexEncode(data)[2 * i] == "0123456789abcdef"[data[i] as int / 16]
    ensures HexEncode(data)[2 * i + 1] == "0123456789abcdef"[data[i] as int % 16]
  {
    DigitTable(data[i] as int / 16);
    DigitTable(data[i] as int % 16);
    if i > 0 {
      HexEncodeAt(data[1..], i - 1);
      assert HexEncode(data)[2..] == HexEncode(data[1..]);
    }
  }

  /** The text with its lower-case letters replaced by capitals. */
  function ToUpper(s: string): (t: string)
    ensures |t| == |s|
  {
    seq(|s|, i requires 0 <= i < |s| => if 'a' <= s[i] <= 'z' then s[i] - 'a' + 'A' else s[i])
  }

  /** A checksum in capitals is as good as the one the digest prints, and means the same bytes. */
  lemma CapitalsMatch(data: Bytes)
    ensures IEquals(HexEncode(data), ToUpper(HexEncode(data)))
    ensures HexDecode(ToUpper(HexEncode(data))) == Some(data)
  {
    MatchesIffDecodes(data, ToUpper(HexEncode(data)));
  }

  lemma {:induction false} HexEncodeAppend(data: Bytes, b: byte)
    ensures HexEncode(data + [b]) == HexEncode(data) + HexPair(b)
  {
    if data == [] {
      assert data + [b] == [b] && [b][1..] == [];
      assert HexPair(b) + [] == HexPair(b) == [] + HexPair(b);
    } else {
      assert (data + [b])[1..] == data[1..] + [b];
      HexEncodeAppend(data[1..], b);
      assert HexPair(data[0]) + (HexEncode(data[1..]) + HexPair(b)) == HexEncode(data) + HexPair(b);
    }
  }

  class Md5Digest {
    const md5: Bytes -> Digest
    var message: Bytes
    var hex: string

    constructor (md5: Bytes -> Digest)
      ensures this.md5 == md5 && message == [] && hex == ""
    {
      this.md5, message, hex := md5, [], "";
    }

    /** Absorbing in pieces is absorbing the concatenation. */
    method Update(data: Bytes)
      modifies this`message
      ensures message == old(message) + data
    {
      message := message + data;
    }

    method Digest()
      modifies this`hex
      ensures hex == HexEncode(md5(message))
    {
      var buf := md5(message);
      var hexBuf := new char[2 * MD5_DIGEST_LENGTH];
      var to := 0;
      for i := 0 to |buf|
        invariant to == 2 * i
        invariant hexBuf[..to] == HexEncode(buf[..i])
      {
        ghost var before := hexBuf[..to];
        DigitTable(buf[i] as int / 16);
        DigitTable(buf[i] as int % 16);
        hexBuf[to] := DIG_VEC_LOWER[buf[i] as int / 16];
        to := to + 1;
        hexBuf[to] := DIG_VEC_LOWER[buf[i] as int % 16];
        to := to + 1;
        assert hexBuf[..to] == before + HexPair(buf[i]);
        assert buf[..i + 1] == buf[..i] + [buf[i]];
        HexEncodeAppend(buf[..i], buf[i]);
      }
      assert buf[..|buf|] == buf;
      hex := hexBuf[..];
    }
  }
}
