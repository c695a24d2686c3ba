/** Base64 as the browser's `btoa` and `atob` apply it: the encoding of section 4 of
    RFC 4648 (alphabet A-Z a-z 0-9 + /, `=` padding to a multiple of four characters) and
    the "forgiving-base64 decode" of the WHATWG Infra standard, which skips ASCII
    whitespace, accepts missing padding and ignores the unused low bits of the last
    character. */
module Base64 {
  import opened Optional

  type Byte = x: int | 0 <= x < 256

  // ---------------------------------------------------------------------------
  // The alphabet.

  predicate IsBase64Char(c: char)
  {
    ('A' <= c <= 'Z') || ('a' <= c <= 'z') || ('0' <= c <= '9') || c == '+' || c == '/'
  }

  /** The character that encodes the six-bit value `v`. */
  function SextetChar(v: int): (c: char)
    requires 0 <= v < 64
    ensures IsBase64Char(c)
  {
    if v < 26 then ('A' as int + v) as char
    else if v < 52 then ('a' as int + (v - 26)) as char
    else if v < 62 then ('0' as int + (v - 52)) as char
    else if v == 62 then '+'
    else '/'
  }

  /** The six-bit value a base64 character stands for. */
  function CharSextet(c: char): (v: int)
    requires IsBase64Char(c)
    ensures 0 <= v < 64
  {
    if 'A' <= c <= 'Z' then c as int - 'A' as int
    else if 'a' <= c <= 'z' then c as int - 'a' as int + 26
    else if '0' <= c <= '9' then c as int - '0' as int + 52
    else if c == '+' then 62
    else 63
  }

  lemma SextetRoundTrip(v: int)
    requires 0 <= v < 64
    ensures CharSextet(SextetChar(v)) == v
  {
  }

  lemma CharRoundTrip(c: char)
    requires IsBase64Char(c)
    ensures SextetChar(CharSextet(c)) == c
  {
  }

  // ---------------------------------------------------------------------------
  // Encoding (section 4 of RFC 4648).

  /** One group: three bytes become four characters, a final single byte two characters
      and a final pair of bytes three characters (the unused low bits are zero). */
  function EncodeGroup(b: seq<Byte>): (s: string)
    requires 1 <= |b| <= 3
    ensures |s| == |b| + 1 && forall i :: 0 <= i < |s| ==> IsBase64Char(s[i])
  {
    var b1 := if |b| > 1 then b[1] else 0;
    var b2 := if |b| > 2 then b[2] else 0;
    var v := Sextets(b[0], b1, b2);
    var s := [SextetChar(v[0]), SextetChar(v[1]), SextetChar(v[2]), SextetChar(v[3])];
    s[..|b| + 1]
  }

  /** Three bytes as four six-bit values, most significant bits first. */
  function Sextets(b0: Byte, b1: Byte, b2: Byte): (v: seq<int>)
    ensures |v| == 4 && forall i :: 0 <= i < 4 ==> 0 <= v[i] < 64
  {
    [b0 / 4, b0 % 4 * 16 + b1 / 16, b1 % 16 * 4 + b2 / 64, b2 % 64]
  }

  /** The unpadded encoding, group by group. */
  function EncodeDigits(b: seq<Byte>): (s: string)
    ensures forall i :: 0 <= i < |s| ==> IsBase64Char(s[i])
    ensures |s| == DigitCount(|b|)
  {
    if |b| == 0 then ""
    else
      var k := if |b| < 3 then |b| else 3;
      EncodeGroup(b[..k]) + EncodeDigits(b[k..])
  }

  /** The `=` characters that complete the last group to four characters. */
  function Padding(n: nat): string
  {
    if n % 3 == 1 then "==" else if n % 3 == 2 then "=" else ""
  }

  /** The base64 encoding of a byte string. */
  function Encode(b: seq<Byte>): string
  {
    EncodeDigits(b) + Padding(|b|)
  }

  /** The number of digits of `n` bytes: four per whole group, and one more than the
      number of bytes in a final partial group. */
  function DigitCount(n: nat): (c: nat)
    ensures c % 4 != 1
  {
    if n == 0 then 0
    else if n < 3 then n + 1
    else
      var rest := DigitCount(n - 3);
      FourMore(rest);
      4 + rest
  }

  lemma FourMore(x: nat)
    ensures (4 + x) % 4 == x % 4
  {
  }

  lemma {:induction false} DigitCountMod(n: nat)
    ensures DigitCount(n) % 4 == (if n % 3 == 0 then 0 else n % 3 + 1)
  {
    if n >= 3 {
      var m := n - 3;
      DigitCountMod(m);
      ThreeMore(m);
      FourMore(DigitCount(m));
      assert DigitCount(n) == 4 + DigitCount(m);
    }
  }

  lemma {:induction false} DigitCountPadded(n: nat)
    ensures DigitCount(n) + |Padding(n)| == (n + 2) / 3 * 4
  {
    if n >= 3 {
      var m := n - 3;
      DigitCountPadded(m);
      ThreeMore(m);
      assert DigitCount(n) == 4 + DigitCount(m);
      assert Padding(n) == Padding(m);
    }
  }

  lemma DigitCountShape(n: nat)
    ensures DigitCount(n) % 4 == (if n % 3 == 0 then 0 else n % 3 + 1)
    ensures DigitCount(n) + |Padding(n)| == (n + 2) / 3 * 4
  {
    DigitCountMod(n);
    DigitCountPadded(n);
  }

  lemma ThreeMore(m: nat)
    ensures (m + 3) % 3 == m % 3 && (m + 3 + 2) / 3 == (m + 2) / 3 + 1
  {
  }

  lemma MultipleOfFour(q: int)
    ensures (q * 4) % 4 == 0
  {
  }

  /** Every three bytes become four characters; a partial last group is padded to four. */
  lemma EncodeLength(b: seq<Byte>)
    ensures |Encode(b)| == (|b| + 2) / 3 * 4
    ensures |Encode(b)| % 4 == 0
  {
    var n := |b|;
    DigitCountShape(n);
    assert |Encode(b)| == DigitCount(n) + |Padding(n)|;
    MultipleOfFour((n + 2) / 3);
  }

  /** The encoding uses only the alphabet, with `=` only as the padding at its end. */
  lemma EncodeAlphabet(b: seq<Byte>)
    ensures forall i :: 0 <= i < |Encode(b)| ==>
      IsBase64Char(Encode(b)[i]) || (Encode(b)[i] == '=' && i >= |Encode(b)| - 2)
  {
    EncodeLength(b);
  }

  // ---------------------------------------------------------------------------
  // Decoding (forgiving-base64 decode).

  /** The ASCII whitespace the decoder skips: tab, line feed, form feed, carriage return
      and space. */
  predicate IsAsciiWhitespace(c: char)
  {
    c == '\t' || c == '\n' || c == '\U{C}' || c == '\r' || c == ' '
  }

  function RemoveAsciiWhitespace(s: string): (r: string)
    ensures forall i :: 0 <= i < |r| ==> !IsAsciiWhitespace(r[i])
    ensures |r| <= |s|
  {
    if |s| == 0 then ""
    else (if IsAsciiWhitespace(s[0]) then "" else [s[0]]) + RemoveAsciiWhitespace(s[1..])
  }

  /** Up to two `=` are removed from the end of a string whose length is a multiple of four. */
  function StripPadding(d: string): string
  {
    if |d| % 4 != 0 then d
    else if |d| >= 2 && d[|d| - 2..] == "==" then d[..|d| - 2]
    else if |d| >= 1 && d[|d| - 1] == '=' then d[..|d| - 1]
    else d
  }

  /** One group: four digits give three bytes, a final two digits one byte and a final
      three digits two bytes; the leftover low bits of the last digit are dropped. */
  function DecodeGroup(d: string): (b: seq<Byte>)
    requires 2 <= |d| <= 4 && forall i :: 0 <= i < |d| ==> IsBase64Char(d[i])
    ensures |b| == |d| - 1
  {
    var v0, v1 := CharSextet(d[0]), CharSextet(d[1]);
    var v2 := if |d| > 2 then CharSextet(d[2]) else 0;
    var v3 := if |d| > 3 then CharSextet(d[3]) else 0;
    Octets(v0, v1, v2, v3)[..|d| - 1]
  }

  /** Four six-bit values as three bytes. */
  function Octets(v0: int, v1: int, v2: int, v3: int): (b: seq<Byte>)
    requires 0 <= v0 < 64 && 0 <= v1 < 64 && 0 <= v2 < 64 && 0 <= v3 < 64
    ensures |b| == 3
  {
    [v0 * 4 + v1 / 16, v1 % 16 * 16 + v2 / 4, v2 % 4 * 64 + v3]
  }

  /** The bytes of a string of base64 digits, group by group. */
  function DecodeDigits(d: string): seq<Byte>
    requires forall i :: 0 <= i < |d| ==> IsBase64Char(d[i])
    requires |d| % 4 != 1
  {
    if |d| == 0 then []
    else
      var k := if |d| < 4 then |d| else 4;
      DecodeGroup(d[..k]) + DecodeDigits(d[k..])
  }

  /** The forgiving decoder: `None` is the failure that makes `atob` throw. */
  function Decode(s: string): (r: Option<seq<Byte>>)
  {
    var d := StripPadding(RemoveAsciiWhitespace(s));
    if |d| % 4 == 1 then None
    else if exists i :: 0 <= i < |d| && !IsBase64Char(d[i]) then None
    else Some(DecodeDigits(d))
  }

  /** Three bytes survive the trip through four sextets. */
  lemma OctetsOfSextets(b0: Byte, b1: Byte, b2: Byte)
    ensures var v := Sextets(b0, b1, b2); Octets(v[0], v[1], v[2], v[3]) == [b0, b1, b2]
  {
    var s1 := b0 % 4 * 16 + b1 / 16;
    var s2 := b1 % 16 * 4 + b2 / 64;
    assert s1 / 16 == b0 % 4 && s1 % 16 == b1 / 16;
    assert s2 / 4 == b1 % 16 && s2 % 4 == b2 / 64;
  }

  /** A group decodes back to the bytes it encodes. */
  lemma GroupRoundTrip(b: seq<Byte>)
    requires 1 <= |b| <= 3
    ensures DecodeGroup(EncodeGroup(b)) == b
  {
    var b1: Byte := if |b| > 1 then b[1] else 0;
    var b2: Byte := if |b| > 2 then b[2] else 0;
    var v := Sextets(b[0], b1, b2);
    SextetRoundTrip(v[0]);
    SextetRoundTrip(v[1]);
    SextetRoundTrip(v[2]);
    SextetRoundTrip(v[3]);
    OctetsOfSextets(b[0], b1, b2);
    var d := EncodeGroup(b);
    assert CharSextet(d[0]) == v[0] && CharSextet(d[1]) == v[1];
    // A sextet beyond the encoded characters is zero, which is what the decoder reads there.
    assert (if |d| > 2 then CharSextet(d[2]) else 0) == v[2];
    assert (if |d| > 3 then CharSextet(d[3]) else 0) == v[3];
    assert DecodeGroup(d) == [b[0], b1, b2][..|b|];
  }

  /** The decoder takes a whole first group off the front; a short group is the last one. */
  lemma DecodeDigitsFirstGroup(g: string, rest: string)
    requires 2 <= |g| <= 4 && (|g| < 4 ==> rest == "")
    requires forall i :: 0 <= i < |g| ==> IsBase64Char(g[i])
    requires forall i :: 0 <= i < |rest| ==> IsBase64Char(rest[i])
    requires |rest| % 4 != 1
    ensures DecodeDigits(g + rest) == DecodeGroup(g) + DecodeDigits(rest)
  {
    var d := g + rest;
    forall i | 0 <= i < |d|
      ensures IsBase64Char(d[i])
    {
      if i < |g| {
        assert d[i] == g[i];
      } else {
        assert d[i] == rest[i - |g|];
      }
    }
    assert (if |d| < 4 then |d| else 4) == |g|;
    assert d[..|g|] == g && d[|g|..] == rest;
  }

  lemma {:induction false} DecodeEncodeDigits(b: seq<Byte>)
    ensures DecodeDigits(EncodeDigits(b)) == b
  {
    if |b| > 0 {
      var k := if |b| < 3 then |b| else 3;
      var g, rest := EncodeGroup(b[..k]), EncodeDigits(b[k..]);
      assert EncodeDigits(b) == g + rest;
      assert |rest| == DigitCount(|b| - k);
      DecodeDigitsFirstGroup(g, rest);
      GroupRoundTrip(b[..k]);
      DecodeEncodeDigits(b[k..]);
      assert b == b[..k] + b[k..];
    }
  }

  lemma {:induction false} RemoveAsciiWhitespaceKeeps(s: string)
    requires forall i :: 0 <= i < |s| ==> !IsAsciiWhitespace(s[i])
    ensures RemoveAsciiWhitespace(s) == s
  {
    if |s| > 0 {
      RemoveAsciiWhitespaceKeeps(s[1..]);
    }
  }

  /** The encoding contains no whitespace, so the decoder's first step leaves it alone. */
  lemma EncodeHasNoWhitespace(b: seq<Byte>)
    ensures RemoveAsciiWhitespace(Encode(b)) == Encode(b)
  {
    var s := Encode(b);
    assert forall i :: 0 <= i < |s| ==> !IsAsciiWhitespace(s[i]) by {
      EncodeAlphabet(b);
    }
    RemoveAsciiWhitespaceKeeps(s);
  }

  /** Digits followed by padding lose exactly the padding. */
  lemma StripPaddingOfDigits(d: string, pad: string)
    requires forall i :: 0 <= i < |d| ==> IsBase64Char(d[i])
    requires pad == "" || pad == "=" || pad == "=="
    requires |d + pad| % 4 == 0 && (pad != "" ==> |d| > 0)
    ensures StripPadding(d + pad) == d
  {
    var s := d + pad;
    if pad == "==" {
      assert s[|s| - 2..] == "==";
      assert s[..|s| - 2] == d;
    } else if pad == "=" {
      assert s[|s| - 2] == d[|d| - 1];
      assert s[|s| - 2..] != "==";
      assert s[..|s| - 1] == d;
    } else {
      assert s == d;
      if |s| >= 1 {
        assert s[|s| - 1] == d[|d| - 1];
      }
      if |s| >= 2 {
        assert s[|s| - 2..][1] == s[|s| - 1];
      }
    }
  }

  /** Removing the padding from an encoding leaves its digits. */
  lemma StripEncodedPadding(b: seq<Byte>)
    ensures StripPadding(Encode(b)) == EncodeDigits(b)
  {
    EncodeLength(b);
    StripPaddingOfDigits(EncodeDigits(b), Padding(|b|));
  }

  /** Decoding inverts encoding: every byte string comes back unchanged. */
  lemma DecodeEncode(b: seq<Byte>)
    ensures Decode(Encode(b)) == Some(b)
  {
    EncodeHasNoWhitespace(b);
    StripEncodedPadding(b);
    var d := EncodeDigits(b);
    DigitCountShape(|b|);
    assert StripPadding(RemoveAsciiWhitespace(Encode(b))) == d;
    assert |d| % 4 != 1;
    assert !exists i :: 0 <= i < |d| && !IsBase64Char(d[i]);
    DecodeEncodeDigits(b);
  }

  /** Whitespace anywhere in the input does not change what it decodes to. */
  lemma {:induction false} DecodeSkipsWhitespace(s: string, k: nat, c: char)
    requires k <= |s| && IsAsciiWhitespace(c)
    ensures Decode(s[..k] + [c] + s[k..]) == Decode(s)
  {
    RemoveWhitespaceSplices(s, k, c);
  }

  lemma {:induction false} RemoveWhitespaceSplices(s: string, k: nat, c: char)
    requires k <= |s| && IsAsciiWhitespace(c)
    ensures RemoveAsciiWhitespace(s[..k] + [c] + s[k..]) == RemoveAsciiWhitespace(s)
  {
    var t := s[..k] + [c] + s[k..];
    if k == 0 {
      assert t[1..] == s;
    } else {
      assert t[0] == s[0];
      assert t[1..] == s[1..][..k - 1] + [c] + s[1..][k - 1..];
      RemoveWhitespaceSplices(s[1..], k - 1, c);
    }
  }

  // ---------------------------------------------------------------------------
  // `btoa` and `atob` on strings of byte-sized characters.

  /** A string whose every character is a byte value (U+0000 to U+00FF). */
  predicate IsByteString(s: string)
  {
    forall i :: 0 <= i < |s| ==> s[i] as int < 256
  }

  /** The character codes of a byte string. */
  function Codes(s: string): (b: seq<Byte>)
    requires IsByteString(s)
    ensures |b| == |s| && forall i :: 0 <= i < |s| ==> b[i] == s[i] as int
  {
    if |s| == 0 then [] else [s[0] as int] + Codes(s[1..])
  }

  /** `String.fromCharCode` applied to each byte. */
  function FromCodes(b: seq<Byte>): (s: string)
    ensures |s| == |b| && forall i :: 0 <= i < |b| ==> s[i] as int == b[i]
    ensures IsByteString(s)
  {
    if |b| == 0 then "" else [b[0] as char] + FromCodes(b[1..])
  }

  /** `btoa`: `None` when a character is above U+00FF (the `InvalidCharacterError`). */
  function Btoa(s: string): (r: Option<string>)
    ensures r.Some? <==> IsByteString(s)
  {
    if IsByteString(s) then Some(Encode(Codes(s))) else None
  }

  /** `atob`: `None` when the input is not forgiving base64. */
  function Atob(s: string): (r: Option<string>)
    ensures r.Some? ==> IsByteString(r.value)
  {
    match Decode(s)
    case None => None
    case Some(b) => Some(FromCodes(b))
  }

  /** `atob` undoes `btoa` on every string it accepts. */
  lemma AtobBtoa(s: string)
    requires IsByteString(s)
    ensures Atob(Btoa(s).value) == Some(s)
  {
    DecodeEncode(Codes(s));
    FromCodesCodes(s);
  }

  lemma FromCodesCodes(s: string)
    requires IsByteString(s)
    ensures FromCodes(Codes(s)) == s
  {
    var t := FromCodes(Codes(s));
    assert forall i :: 0 <= i < |s| ==> t[i] as int == s[i] as int;
  }
}
