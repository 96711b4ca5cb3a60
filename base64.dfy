/**
 * Base64 as in section 4 of RFC 4648 (alphabet `A–Z a–z 0–9 + /`, `=`
 * padding), the encoding the admin token uses. The decoder is the lenient
 * one of Node's `Buffer.from(s, "base64")`: characters outside the alphabet
 * are skipped, `-` and `_` are read as 62 and 63, decoding stops at the
 * first `=`, and a trailing group of two or three characters yields one or
 * two bytes.
 */
module Base64 {

  newtype byte = x: int | 0 <= x < 256

  /** The character for a 6-bit value (Table 1 of RFC 4648). */
  function CharOf(v: int): (c: char)
    requires 0 <= v < 64
  {
    if v < 26 then ('A' as int + v) as char
    else if v < 52 then ('a' as int + (v - 26)) as char
    else if v < 62 then ('0' as int + (v - 52)) as char
    else if v == 62 then '+'
    else '/'
  }

  /** The characters the decoder reads as data. */
  predicate IsBase64Char(c: char) {
    ('A' <= c <= 'Z') || ('a' <= c <= 'z') || ('0' <= c <= '9') || c == '+' || c == '/' || c == '-' || c == '_'
  }

  function ValueOf(c: char): (v: int)
    requires IsBase64Char(c)
    ensures 0 <= v < 64
  {
    if 'A' <= c <= 'Z' then c as int - 'A' as int
    else if 'a' <= c <= 'z' then c as int - 'a' as int + 26
    else if '0' <= c <= '9' then c as int - '0' as int + 52
    else if c == '+' || c == '-' then 62
    else 63
  }

  lemma CharOfValue(v: int)
    requires 0 <= v < 64
    ensures IsBase64Char(CharOf(v)) && ValueOf(CharOf(v)) == v && CharOf(v) != '='
  {
  }

  /** The four 6-bit values of a three-byte group. */
  function GroupSextets(a: byte, b: byte, c: byte): (vs: seq<int>)
    ensures |vs| == 4 && forall i :: 0 <= i < 4 ==> 0 <= vs[i] < 64
  {
    [a as int / 4, a as int % 4 * 16 + b as int / 16, b as int % 16 * 4 + c as int / 64, c as int % 64]
  }

  /** Three bytes as four characters. */
  function EncodeGroup(a: byte, b: byte, c: byte): (s: string)
    ensures |s| == 4
  {
    var vs := GroupSextets(a, b, c);
    [CharOf(vs[0]), CharOf(vs[1]), CharOf(vs[2]), CharOf(vs[3])]
  }

  /** `Buffer.from(bytes).toString("base64")`. */
  function Encode(bytes: seq<byte>): (s: string)
    decreases |bytes|
  {
    if |bytes| >= 3 then EncodeGroup(bytes[0], bytes[1], bytes[2]) + Encode(bytes[3..])
    else if |bytes| == 2 then
      var g := EncodeGroup(bytes[0], bytes[1], 0);
      [g[0], g[1], g[2], '=']
    else if |bytes| == 1 then
      var g := EncodeGroup(bytes[0], 0, 0);
      [g[0], g[1], '=', '=']
    else ""
  }

  /** The 6-bit values the decoder reads: alphabet characters up to the first `=`. */
  function Sextets(s: string): (vs: seq<int>)
    ensures forall i :: 0 <= i < |vs| ==> 0 <= vs[i] < 64
  {
    if s == [] || s[0] == '=' then []
    else if IsBase64Char(s[0]) then [ValueOf(s[0])] + Sextets(s[1..])
    else Sextets(s[1..])
  }

  function Byte0(v0: int, v1: int): byte
    requires 0 <= v0 < 64 && 0 <= v1 < 64
  {
    (v0 * 4 + v1 / 16) as byte
  }

  function Byte1(v1: int, v2: int): byte
    requires 0 <= v1 < 64 && 0 <= v2 < 64
  {
    (v1 % 16 * 16 + v2 / 4) as byte
  }

  function Byte2(v2: int, v3: int): byte
    requires 0 <= v2 < 64 && 0 <= v3 < 64
  {
    (v2 % 4 * 64 + v3) as byte
  }

  /** Four values make three bytes; a tail of two or three values makes one or two; a lone value none. */
  function SextetsToBytes(vs: seq<int>): seq<byte>
    requires forall i :: 0 <= i < |vs| ==> 0 <= vs[i] < 64
    decreases |vs|
  {
    if |vs| >= 4 then [Byte0(vs[0], vs[1]), Byte1(vs[1], vs[2]), Byte2(vs[2], vs[3])] + SextetsToBytes(vs[4..])
    else if |vs| == 3 then [Byte0(vs[0], vs[1]), Byte1(vs[1], vs[2])]
    else if |vs| == 2 then [Byte0(vs[0], vs[1])]
    else []
  }

  /** `Buffer.from(s, "base64")`. */
  function Decode(s: string): seq<byte> {
    SextetsToBytes(Sextets(s))
  }

  lemma {:induction false} SextetsAppend(a: string, b: string)
    requires forall i :: 0 <= i < |a| ==> IsBase64Char(a[i])
    ensures Sextets(a + b) == Sextets(a) + Sextets(b)
  {
    if a != [] {
      assert (a + b)[1..] == a[1..] + b;
      SextetsAppend(a[1..], b);
    } else {
      assert a + b == b;
    }
  }

  /** The decoder reads back the values of an encoded group. */
  lemma GroupChars(a: byte, b: byte, c: byte)
    ensures var s := EncodeGroup(a, b, c);
      && (forall i :: 0 <= i < 4 ==> IsBase64Char(s[i]) && ValueOf(s[i]) == GroupSextets(a, b, c)[i])
  {
    var vs := GroupSextets(a, b, c);
    CharOfValue(vs[0]);
    CharOfValue(vs[1]);
    CharOfValue(vs[2]);
    CharOfValue(vs[3]);
  }

  /** Regrouping the six-bit values gives the three bytes back. */
  lemma GroupBytes(a: byte, b: byte, c: byte)
    ensures var vs := GroupSextets(a, b, c);
      Byte0(vs[0], vs[1]) == a && Byte1(vs[1], vs[2]) == b && Byte2(vs[2], vs[3]) == c
  {
  }

  lemma SextetsCons(c: char, rest: string)
    requires IsBase64Char(c)
    ensures Sextets([c] + rest) == [ValueOf(c)] + Sextets(rest)
  {
    assert ([c] + rest)[1..] == rest;
  }

  lemma SextetsPadding(rest: string)
    ensures Sextets(['='] + rest) == []
  {
  }

  /** A run of alphabet characters is read one value per character. */
  lemma {:induction false} SextetsOfData(s: string)
    requires forall i :: 0 <= i < |s| ==> IsBase64Char(s[i])
    ensures |Sextets(s)| == |s| && forall i :: 0 <= i < |s| ==> Sextets(s)[i] == ValueOf(s[i])
  {
    if s != [] {
      SextetsOfData(s[1..]);
    }
  }

  lemma GroupStep(bytes: seq<byte>)
    requires |bytes| >= 3
    ensures Sextets(Encode(bytes)) == GroupSextets(bytes[0], bytes[1], bytes[2]) + Sextets(Encode(bytes[3..]))
  {
    var g := EncodeGroup(bytes[0], bytes[1], bytes[2]);
    GroupChars(bytes[0], bytes[1], bytes[2]);
    SextetsOfData(g);
    assert Sextets(g) == GroupSextets(bytes[0], bytes[1], bytes[2]);
    SextetsAppend(g, Encode(bytes[3..]));
  }

  lemma DecodeTwo(a: byte, b: byte)
    ensures Decode(Encode([a, b])) == [a, b]
  {
    var g := EncodeGroup(a, b, 0);
    GroupChars(a, b, 0);
    GroupBytes(a, b, 0);
    assert Encode([a, b]) == [g[0]] + ([g[1]] + ([g[2]] + ['=']));
    SextetsPadding([]);
    assert ['='] + [] == ['='];
    SextetsCons(g[2], ['=']);
    SextetsCons(g[1], [g[2]] + ['=']);
    SextetsCons(g[0], [g[1]] + ([g[2]] + ['=']));
  }

  lemma DecodeOne(a: byte)
    ensures Decode(Encode([a])) == [a]
  {
    var g := EncodeGroup(a, 0, 0);
    GroupChars(a, 0, 0);
    var e := Encode([a]);
    assert e == [g[0], g[1], '=', '='];
    var t := [g[1], '=', '='];
    assert e == [g[0]] + t && t == [g[1]] + ['=', '='];
    assert Sextets(['=', '=']) == [];
    SextetsCons(g[1], ['=', '=']);
    SextetsCons(g[0], t);
    var vs := GroupSextets(a, 0, 0);
    assert Sextets(e) == [vs[0], vs[1]];
    OneByte(vs[0], vs[1], a);
  }

  lemma OneByte(v0: int, v1: int, a: byte)
    requires v0 == a as int / 4 && v1 == a as int % 4 * 16
    ensures 0 <= v0 < 64 && 0 <= v1 < 64 && SextetsToBytes([v0, v1]) == [a]
  {
  }

  /** A full group of four values decodes to its three bytes, ahead of the rest. */
  lemma BytesStep(group: seq<int>, rest: seq<int>)
    requires |group| == 4 && forall i :: 0 <= i < 4 ==> 0 <= group[i] < 64
    requires forall i :: 0 <= i < |rest| ==> 0 <= rest[i] < 64
    ensures SextetsToBytes(group + rest)
      == [Byte0(group[0], group[1]), Byte1(group[1], group[2]), Byte2(group[2], group[3])] + SextetsToBytes(rest)
  {
    assert (group + rest)[4..] == rest;
  }

  /** One full group: the first three bytes come back ahead of the decoded rest. */
  lemma DecodeStep(bytes: seq<byte>)
    requires |bytes| >= 3
    ensures Decode(Encode(bytes)) == [bytes[0], bytes[1], bytes[2]] + Decode(Encode(bytes[3..]))
  {
    var group := GroupSextets(bytes[0], bytes[1], bytes[2]);
    var rest := Sextets(Encode(bytes[3..]));
    GroupStep(bytes);
    BytesStep(group, rest);
    GroupBytes(bytes[0], bytes[1], bytes[2]);
  }

  lemma SplitThree(bytes: seq<byte>)
    requires |bytes| >= 3
    ensures bytes == [bytes[0], bytes[1], bytes[2]] + bytes[3..]
  {
  }

  /** Decoding an encoding gives the bytes back. */
  lemma {:induction false} DecodeEncode(bytes: seq<byte>)
    ensures Decode(Encode(bytes)) == bytes
    decreases |bytes|
  {
    if |bytes| >= 3 {
      DecodeStep(bytes);
      DecodeEncode(bytes[3..]);
      SplitThree(bytes);
    } else if |bytes| == 2 {
      DecodeTwo(bytes[0], bytes[1]);
      assert bytes == [bytes[0], bytes[1]];
    } else if |bytes| == 1 {
      DecodeOne(bytes[0]);
      assert bytes == [bytes[0]];
    }
  }
}
