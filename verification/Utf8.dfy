/** Bytes, UTF-8 (section 3 of RFC 3629) and hexadecimal text, as both languages use them. */
module Utf8 {
  import opened Options

  type byte = x: int | 0 <= x < 256

  function EncodeChar(c: char): (bytes: seq<byte>)
    ensures 1 <= |bytes| <= 4
  {
    var n := c as int;
    if n < 0x80 then [n]
    else if n < 0x800 then [0xC0 + n / 64, 0x80 + n % 64]
    else if n < 0x1_0000 then [0xE0 + n / 4096, 0x80 + n / 64 % 64, 0x80 + n % 64]
    else [0xF0 + n / 262144, 0x80 + n / 4096 % 64, 0x80 + n / 64 % 64, 0x80 + n % 64]
  }

  predicate Continues(bytes: seq<byte>, from: nat, to: nat) {
    to <= |bytes| && forall i :: from <= i < to ==> 0x80 <= bytes[i] < 0xC0
  }

  /** The six bits a continuation byte carries. */
  function Payload(b: byte): int {
    b - 0x80
  }

  const REPLACEMENT: char := 0xFFFD as char

  /** The first character of a byte sequence and its width; a byte that begins no shortest-form
      scalar value is replaced by U+FFFD. */
  function DecodeChar(bytes: seq<byte>): (r: (char, nat))
    requires bytes != []
    ensures 1 <= r.1 <= |bytes|
  {
    var lead: int := bytes[0];
    if lead < 0x80 then (lead as char, 1)
    else if 0xC2 <= lead < 0xE0 && Continues(bytes, 1, 2) then
      (((lead - 0xC0) * 64 + Payload(bytes[1])) as char, 2)
    else if 0xE0 <= lead < 0xF0 && Continues(bytes, 1, 3) then
      var n: int := (lead - 0xE0) * 4096 + Payload(bytes[1]) * 64 + Payload(bytes[2]);
      if 0x800 <= n < 0xD800 || 0xE000 <= n then (n as char, 3) else (REPLACEMENT, 1)
    else if 0xF0 <= lead < 0xF5 && Continues(bytes, 1, 4) then
      var n: int := (lead - 0xF0) * 262144 + Payload(bytes[1]) * 4096 + Payload(bytes[2]) * 64 + Payload(bytes[3]);
      if 0x1_0000 <= n < 0x11_0000 then (n as char, 4) else (REPLACEMENT, 1)
    else (REPLACEMENT, 1)
  }

  function Encode(s: string): seq<byte> {
    if s == "" then [] else EncodeChar(s[0]) + Encode(s[1..])
  }

  function Decode(bytes: seq<byte>): string {
    if bytes == [] then ""
    else
      var (c, width) := DecodeChar(bytes);
      [c] + Decode(bytes[width..])
  }

  lemma DecodeEncodedChar(c: char, rest: seq<byte>)
    ensures DecodeChar(EncodeChar(c) + rest) == (c, |EncodeChar(c)|)
  {
    var n, bytes := c as int, EncodeChar(c) + rest;
    assert bytes[0] == EncodeChar(c)[0];
    if 0x80 <= n < 0x800 {
      assert bytes[1] == 0x80 + n % 64;
    } else if 0x800 <= n < 0x1_0000 {
      SixBitGroups(n);
      assert bytes[1] == 0x80 + n / 64 % 64 && bytes[2] == 0x80 + n % 64;
    } else if 0x1_0000 <= n {
      SixBitGroups(n);
      assert bytes[1] == 0x80 + n / 4096 % 64 && bytes[2] == 0x80 + n / 64 % 64 && bytes[3] == 0x80 + n % 64;
    }
  }

  lemma SixBitGroups(n: nat)
    ensures n == n / 64 * 64 + n % 64
    ensures n / 64 == n / 4096 * 64 + n / 64 % 64
    ensures n / 4096 == n / 262144 * 64 + n / 4096 % 64
  {
    assert n / 4096 == n / 64 / 64;
    assert n / 262144 == n / 4096 / 64;
  }

  /** Decoding undoes encoding, so the encoding is injective. */
  lemma {:induction false} DecodeEncode(s: string)
    ensures Decode(Encode(s)) == s
  {
    if s != "" {
      DecodeEncodedChar(s[0], Encode(s[1..]));
      DecodeEncode(s[1..]);
      assert Encode(s)[|EncodeChar(s[0])|..] == Encode(s[1..]);
    }
  }

  /** ASCII text is its own encoding, and no byte of any other character looks like ASCII. */
  lemma {:induction false} AsciiEncoding(s: string)
    ensures |Encode(s)| >= |s|
    ensures (forall i :: 0 <= i < |s| ==> (s[i] as int) < 0x80) ==>
      |Encode(s)| == |s| && forall i :: 0 <= i < |s| ==> Encode(s)[i] as int == s[i] as int
    ensures forall b: byte :: b < 0x80 && b in Encode(s) ==> (b as int as char) in s
  {
    if s != "" {
      AsciiEncoding(s[1..]);
      assert s == [s[0]] + s[1..];
    }
  }

  function HexDigit(n: int): char
    requires 0 <= n < 16
  {
    if n < 10 then ('0' as int + n) as char else ('a' as int + n - 10) as char
  }

  /** Both cases are accepted. */
  function HexValue(c: char): Option<int> {
    if '0' <= c <= '9' then Some(c as int - '0' as int)
    else if 'a' <= c <= 'f' then Some(c as int - 'a' as int + 10)
    else if 'A' <= c <= 'F' then Some(c as int - 'A' as int + 10)
    else None
  }

  function Hex(bytes: seq<byte>): string {
    if bytes == [] then "" else [HexDigit(bytes[0] / 16), HexDigit(bytes[0] % 16)] + Hex(bytes[1..])
  }

  function ParseHex(s: string): Option<seq<byte>> {
    if s == "" then Some([])
    else if |s| == 1 || HexValue(s[0]).None? || HexValue(s[1]).None? then None
    else
      var rest := ParseHex(s[2..]);
      var n := HexValue(s[0]).value * 16 + HexValue(s[1]).value;
      if rest.Some? && 0 <= n < 256 then Some([n] + rest.value) else None
  }

  lemma HexDigitValue(n: int)
    requires 0 <= n < 16
    ensures HexValue(HexDigit(n)) == Some(n)
  {
  }

  lemma {:induction false} ParseHexOfHex(bytes: seq<byte>)
    ensures ParseHex(Hex(bytes)) == Some(bytes)
    ensures |Hex(bytes)| == 2 * |bytes|
    ensures forall i :: 0 <= i < |Hex(bytes)| ==> '0' <= Hex(bytes)[i] <= '9' || 'a' <= Hex(bytes)[i] <= 'f'
    ensures forall i :: 0 <= i < |Hex(bytes)| ==> HexValue(Hex(bytes)[i]).Some?
  {
    if bytes != [] {
      ParseHexOfHex(bytes[1..]);
      HexDigitValue(bytes[0] / 16);
      HexDigitValue(bytes[0] % 16);
      assert Hex(bytes)[2..] == Hex(bytes[1..]);
      assert [bytes[0]] + bytes[1..] == bytes;
    }
  }
}
