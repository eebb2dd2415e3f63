/**
 * Base 64 encoding with the URL- and filename-safe alphabet, as section 5 of
 * RFC 4648 defines it: `A-Z a-z 0-9 - _`, with `=` padding kept.
 * This is the encoding `base64.urlsafe_b64encode` produces for the tracking token.
 */
module Base64Url {
  import opened Common

  /** The 64 characters of the URL-safe alphabet. */
  predicate IsAlphabetChar(c: char) {
    ('A' <= c <= 'Z') || ('a' <= c <= 'z') || ('0' <= c <= '9') || c == '-' || c == '_'
  }

  /** A character an encoded token may contain: the alphabet or the pad character. */
  predicate IsTokenChar(c: char) {
    IsAlphabetChar(c) || c == '='
  }

  /** The character that stands for the 6-bit value `i` (Table 2 of RFC 4648). */
  function Sextet(i: int): (c: char)
    requires 0 <= i < 64
    ensures IsAlphabetChar(c)
  {
    if i < 26 then ('A' as int + i) as char
    else if i < 52 then ('a' as int + (i - 26)) as char
    else if i < 62 then ('0' as int + (i - 52)) as char
    else if i == 62 then '-'
    else '_'
  }

  /** The 6-bit value a character stands for, if it belongs to the alphabet. */
  function SextetValue(c: char): (r: Option<int>)
    ensures r.Some? <==> IsAlphabetChar(c)
    ensures r.Some? ==> 0 <= r.value < 64 && Sextet(r.value) == c
  {
    if 'A' <= c <= 'Z' then Some(c as int - 'A' as int)
    else if 'a' <= c <= 'z' then Some(c as int - 'a' as int + 26)
    else if '0' <= c <= '9' then Some(c as int - '0' as int + 52)
    else if c == '-' then Some(62)
    else if c == '_' then Some(63)
    else None
  }

  lemma SextetValueOfSextet(i: int)
    requires 0 <= i < 64
    ensures SextetValue(Sextet(i)) == Some(i)
  {
  }

  /** Three octets become four characters. */
  function EncodeGroup(b0: Byte, b1: Byte, b2: Byte): string {
    [Sextet(b0 / 4), Sextet((b0 % 4) * 16 + b1 / 16), Sextet((b1 % 16) * 4 + b2 / 64), Sextet(b2 % 64)]
  }

  /** `base64.urlsafe_b64encode`: every full group of three octets gives four characters;
      a final group of one or two octets is padded with `=` to four characters. */
  function Encode(b: seq<Byte>): (s: string)
    ensures |s| == 4 * ((|b| + 2) / 3)
    ensures forall i :: 0 <= i < |s| ==> IsTokenChar(s[i])
    ensures '/' !in s && '+' !in s
    decreases |b|
  {
    if |b| == 0 then []
    else if |b| == 1 then [Sextet(b[0] / 4), Sextet((b[0] % 4) * 16), '=', '=']
    else if |b| == 2 then [Sextet(b[0] / 4), Sextet((b[0] % 4) * 16 + b[1] / 16), Sextet((b[1] % 16) * 4), '=']
    else EncodeGroup(b[0], b[1], b[2]) + Encode(b[3..])
  }

  /** Four characters become up to three octets; padding is accepted only in the final quantum. */
  function DecodeQuantum(q: string, final: bool): Option<seq<Byte>>
    requires |q| == 4
  {
    var v0, v1, v2, v3 := SextetValue(q[0]), SextetValue(q[1]), SextetValue(q[2]), SextetValue(q[3]);
    if v0.None? || v1.None? then None
    else if q[2] == '=' && q[3] == '=' then
      if final then Some([v0.value * 4 + v1.value / 16]) else None
    else if v2.None? then None
    else if q[3] == '=' then
      if final then Some([v0.value * 4 + v1.value / 16, (v1.value % 16) * 16 + v2.value / 4]) else None
    else if v3.None? then None
    else Some([v0.value * 4 + v1.value / 16, (v1.value % 16) * 16 + v2.value / 4, (v2.value % 4) * 64 + v3.value])
  }

  /** Strict decoding: the input is a sequence of four-character quanta over the alphabet,
      with padding only at the end. Anything else is rejected. */
  function Decode(s: string): (r: Option<seq<Byte>>)
    decreases |s|
  {
    if |s| == 0 then Some([])
    else if |s| < 4 then None
    else
      var q := DecodeQuantum(s[..4], |s| == 4);
      if q.None? || |s| == 4 then q
      else
        var rest := Decode(s[4..]);
        if rest.None? then None else Some(q.value + rest.value)
  }

  /** The bit regrouping of a quantum is undone by the decoder's arithmetic. */
  lemma RegroupInverse(b0: Byte, b1: Byte, b2: Byte)
    ensures var s0, s1 := b0 / 4, (b0 % 4) * 16 + b1 / 16;
            var s2, s3 := (b1 % 16) * 4 + b2 / 64, b2 % 64;
            s0 * 4 + s1 / 16 == b0 && (s1 % 16) * 16 + s2 / 4 == b1 && (s2 % 4) * 64 + s3 == b2
  {
    var s1 := (b0 % 4) * 16 + b1 / 16;
    assert s1 / 16 == b0 % 4 && s1 % 16 == b1 / 16;
    var s2 := (b1 % 16) * 4 + b2 / 64;
    assert s2 / 4 == b1 % 16 && s2 % 4 == b2 / 64;
  }

  lemma DecodeFullQuantum(b0: Byte, b1: Byte, b2: Byte, final: bool)
    ensures DecodeQuantum(EncodeGroup(b0, b1, b2), final) == Some([b0, b1, b2])
  {
    var s0, s1, s2, s3 := b0 / 4, (b0 % 4) * 16 + b1 / 16, (b1 % 16) * 4 + b2 / 64, b2 % 64;
    var q := EncodeGroup(b0, b1, b2);
    assert q == [Sextet(s0), Sextet(s1), Sextet(s2), Sextet(s3)];
    SextetValueOfSextet(s0);
    SextetValueOfSextet(s1);
    SextetValueOfSextet(s2);
    SextetValueOfSextet(s3);
    RegroupInverse(b0, b1, b2);
  }

  lemma DecodeOneOctet(b0: Byte)
    ensures DecodeQuantum([Sextet(b0 / 4), Sextet((b0 % 4) * 16), '=', '='], true) == Some([b0])
  {
    SextetValueOfSextet(b0 / 4);
    SextetValueOfSextet((b0 % 4) * 16);
    RegroupInverse(b0, 0, 0);
  }

  lemma DecodeTwoOctets(b0: Byte, b1: Byte)
    ensures DecodeQuantum([Sextet(b0 / 4), Sextet((b0 % 4) * 16 + b1 / 16), Sextet((b1 % 16) * 4), '='], true)
         == Some([b0, b1])
  {
    SextetValueOfSextet(b0 / 4);
    SextetValueOfSextet((b0 % 4) * 16 + b1 / 16);
    SextetValueOfSextet((b1 % 16) * 4);
    RegroupInverse(b0, b1, 0);
  }

  /** A leading quantum decodes on its own, ahead of whatever follows it. */
  lemma DecodeAppend(q: string, t: string, x: seq<Byte>, y: seq<Byte>)
    requires |q| == 4 && DecodeQuantum(q, t == []) == Some(x) && Decode(t) == Some(y)
    ensures Decode(q + t) == Some(x + y)
  {
    var s := q + t;
    assert s[..4] == q;
    assert s[4..] == t;
    if t == [] {
      assert s == q;
      assert x + y == x;
    }
  }

  lemma DecodeEncodeOne(b0: Byte)
    ensures Decode(Encode([b0])) == Some([b0])
  {
    var q := [Sextet(b0 / 4), Sextet((b0 % 4) * 16), '=', '='];
    assert Encode([b0]) == q;
    DecodeOneOctet(b0);
    DecodeAppend(q, [], [b0], []);
    assert q + [] == q;
  }

  lemma DecodeEncodeTwo(b0: Byte, b1: Byte)
    ensures Decode(Encode([b0, b1])) == Some([b0, b1])
  {
    var q := [Sextet(b0 / 4), Sextet((b0 % 4) * 16 + b1 / 16), Sextet((b1 % 16) * 4), '='];
    assert Encode([b0, b1]) == q;
    DecodeTwoOctets(b0, b1);
    DecodeAppend(q, [], [b0, b1], []);
    assert q + [] == q;
  }

  lemma SplitThree<T>(b: seq<T>)
    requires |b| >= 3
    ensures b == [b[0], b[1], b[2]] + b[3..]
  {
  }

  lemma Singleton<T>(b: seq<T>)
    requires |b| == 1
    ensures b == [b[0]]
  {
  }

  lemma Pair<T>(b: seq<T>)
    requires |b| == 2
    ensures b == [b[0], b[1]]
  {
  }

  /** A full leading group decodes ahead of the rest. */
  lemma DecodeEncodeGroup(b: seq<Byte>)
    requires |b| >= 3
    requires Decode(Encode(b[3..])) == Some(b[3..])
    ensures Decode(Encode(b)) == Some(b)
  {
    var g := EncodeGroup(b[0], b[1], b[2]);
    var t := Encode(b[3..]);
    assert Encode(b) == g + t;
    var head := [b[0], b[1], b[2]];
    DecodeFullQuantum(b[0], b[1], b[2], t == []);
    DecodeAppend(g, t, head, b[3..]);
    SplitThree(b);
  }

  /** Decoding inverts encoding (section 5 of RFC 4648). */
  lemma {:induction false} DecodeEncode(b: seq<Byte>)
    ensures Decode(Encode(b)) == Some(b)
    decreases |b|
  {
    if |b| == 0 {
    } else if |b| == 1 {
      Singleton(b);
      DecodeEncodeOne(b[0]);
    } else if |b| == 2 {
      Pair(b);
      DecodeEncodeTwo(b[0], b[1]);
    } else {
      DecodeEncode(b[3..]);
      DecodeEncodeGroup(b);
    }
  }
}
