/**
 * The formatting half of `randomHexString` in the library utilities: every byte drawn from the
 * random source becomes two lowercase hexadecimal digits (`b.toString(16).padStart(2, '0')`) and the
 * digits are concatenated. The random source itself is not modelled: the drawn bytes are an input.
 */
module Utils {
  import opened Wrappers

  /** An unsigned 8-bit value, as held by a `Uint8Array` or a Node `Buffer`. */
  type byte = x: int | 0 <= x < 256

  /** The digits `Number.prototype.toString(16)` produces: `0-9` and lowercase `a-f`. */
  predicate IsLowerHexDigit(c: char)
  {
    '0' <= c <= '9' || 'a' <= c <= 'f'
  }

  /** The digit `toString(16)` writes for a value below 16. */
  function HexDigit(n: int): char
    requires 0 <= n < 16
  {
    if n < 10 then ('0' as int + n) as char else ('a' as int + n - 10) as char
  }

  /** The digit written for a value below 16 is one of `0-9a-f`. */
  lemma HexDigitIsLower(n: int)
    requires 0 <= n < 16
    ensures IsLowerHexDigit(HexDigit(n))
  {
  }

  /** `n.toString(16)` for a non-negative integer: the shortest lowercase base-16 numeral. */
  function ToHexString(n: nat): (r: string)
    ensures 1 <= |r|
    decreases n
  {
    if n < 16 then [HexDigit(n)] else ToHexString(n / 16) + [HexDigit(n % 16)]
  }

  /** `s.padStart(width, fill)` with a one-unit filler: fill units in front up to `width`, and `s`
      itself at the end. */
  function PadStart(s: string, width: nat, fill: char): (r: string)
    ensures |r| == if |s| >= width then |s| else width
    ensures r[|r| - |s|..] == s
    ensures forall k :: 0 <= k < |r| - |s| ==> r[k] == fill
    decreases width - |s|
  {
    if |s| >= width then s else PadStart([fill] + s, width, fill)
  }

  /** One byte as two lowercase digits, high nibble first. */
  function FormatByte(b: byte): string
  {
    [HexDigit(b / 16), HexDigit(b % 16)]
  }

  /** The numeral of a byte has one digit below 16 and two from 16 on. */
  lemma ByteNumeral(b: byte)
    ensures b < 16 ==> ToHexString(b) == [HexDigit(b)]
    ensures b >= 16 ==> ToHexString(b) == [HexDigit(b / 16), HexDigit(b % 16)]
  {
    if b >= 16 {
      var hi := b / 16;
      assert 1 <= hi < 16;
      assert ToHexString(hi) == [HexDigit(hi)];
    }
  }

  /** Padding to two units puts one '0' in front of a single unit and leaves two units alone. */
  lemma PadToTwo(s: string)
    requires 1 <= |s| <= 2
    ensures |s| == 1 ==> PadStart(s, 2, '0') == ['0'] + s
    ensures |s| == 2 ==> PadStart(s, 2, '0') == s
  {
    if |s| == 1 {
      assert PadStart(['0'] + s, 2, '0') == ['0'] + s;
    }
  }

  /** The two digits are exactly `b.toString(16).padStart(2, '0')`: the numeral is padded to two
      units with a leading '0' when the byte is below 16. */
  lemma FormatByteIsPadStart(b: byte)
    ensures FormatByte(b) == PadStart(ToHexString(b), 2, '0')
  {
    ByteNumeral(b);
    PadToTwo(ToHexString(b));
    if b < 16 {
      assert b / 16 == 0 && b % 16 == b;
      assert HexDigit(0) == '0';
    }
  }

  /** `Array.from(bytes, b => b.toString(16).padStart(2, '0')).join('')`: twice as many digits as
      bytes. */
  function HexOfBytes(bytes: seq<byte>): (r: string)
    ensures |r| == 2 * |bytes|
  {
    if bytes == [] then "" else FormatByte(bytes[0]) + HexOfBytes(bytes[1..])
  }

  /** Byte `i` is formatted into positions `2i` and `2i + 1` of the output. */
  lemma {:induction false} FormattedAt(bytes: seq<byte>, i: nat)
    requires i < |bytes|
    ensures HexOfBytes(bytes)[2 * i] == FormatByte(bytes[i])[0]
    ensures HexOfBytes(bytes)[2 * i + 1] == FormatByte(bytes[i])[1]
  {
    var head, rest := FormatByte(bytes[0]), HexOfBytes(bytes[1..]);
    assert HexOfBytes(bytes) == head + rest;
    assert |head| == 2;
    if i > 0 {
      var j := i - 1;
      FormattedAt(bytes[1..], j);
      assert bytes[1..][j] == bytes[i];
      assert 2 * i == 2 * j + 2;
      assert (head + rest)[2 * j + 2] == rest[2 * j];
      assert (head + rest)[2 * j + 3] == rest[2 * j + 1];
      assert 2 * i + 1 == 2 * j + 3;
    } else {
      assert FormatByte(bytes[i]) == head;
      assert (head + rest)[1] == head[1];
    }
  }

  /** Byte `i` occupies positions `2i` (high nibble) and `2i + 1` (low nibble) of the output. */
  lemma HexAt(bytes: seq<byte>, i: nat)
    requires i < |bytes|
    ensures HexOfBytes(bytes)[2 * i] == HexDigit(bytes[i] / 16)
    ensures HexOfBytes(bytes)[2 * i + 1] == HexDigit(bytes[i] % 16)
  {
    FormattedAt(bytes, i);
  }

  /** A byte below 16 is written with a leading '0'. */
  lemma SmallByteLeadingZero(bytes: seq<byte>, i: nat)
    requires i < |bytes| && bytes[i] < 16
    ensures HexOfBytes(bytes)[2 * i] == '0'
    ensures HexOfBytes(bytes)[2 * i + 1] == HexDigit(bytes[i])
  {
    HexAt(bytes, i);
    var b := bytes[i];
    assert b / 16 == 0 && b % 16 == b;
    assert HexDigit(0) == '0';
  }

  /** `randomHexString(byteLength)` given the `byteLength` bytes its random source produced (the
      browser's `crypto.getRandomValues` into a `Uint8Array`, or Node's `crypto.randomBytes`):
      twice `byteLength` lowercase digits that read back, in pairs, as exactly the drawn bytes.
      `hasWebCrypto` picks the branch; once the bytes are drawn, both branches format them the same
      way, so the two draw paths cannot be told apart here. */
  function RandomHexString(hasWebCrypto: bool, byteLength: nat, drawn: seq<byte>): (r: string)
    requires |drawn| == byteLength
    ensures |r| == 2 * byteLength
    ensures AllLowerHex(r)
    ensures ParseHex(r) == Some(drawn)
  {
    HexIsLowercaseDigits(drawn);
    ParseHexRoundTrip(drawn);
    if hasWebCrypto then HexOfBytes(drawn) else HexOfBytes(drawn)
  }

  /** Both digits of a formatted byte are lowercase hex digits. */
  lemma FormatByteDigits(b: byte)
    ensures |FormatByte(b)| == 2
    ensures IsLowerHexDigit(FormatByte(b)[0]) && IsLowerHexDigit(FormatByte(b)[1])
  {
    var hi, lo := b / 16, b % 16;
    assert 0 <= hi < 16 && 0 <= lo < 16;
    HexDigitIsLower(hi);
    HexDigitIsLower(lo);
    assert FormatByte(b) == [HexDigit(hi), HexDigit(lo)];
  }

  /** Every character of `s` is one of `0-9a-f`. */
  predicate AllLowerHex(s: string)
  {
    forall k :: 0 <= k < |s| ==> IsLowerHexDigit(s[k])
  }

  lemma AllLowerHexConcat(a: string, b: string)
    requires AllLowerHex(a) && AllLowerHex(b)
    ensures AllLowerHex(a + b)
  {
    forall k | 0 <= k < |a + b| ensures IsLowerHexDigit((a + b)[k]) {
      if k >= |a| {
        assert (a + b)[k] == b[k - |a|];
      }
    }
  }

  /** Every character of the output is one of `0-9a-f`. */
  lemma {:induction false} HexIsLowercaseDigits(bytes: seq<byte>)
    ensures AllLowerHex(HexOfBytes(bytes))
    decreases |bytes|
  {
    if bytes != [] {
      FormatByteDigits(bytes[0]);
      HexIsLowercaseDigits(bytes[1..]);
      AllLowerHexConcat(FormatByte(bytes[0]), HexOfBytes(bytes[1..]));
    }
  }

  /** No byte at all gives the empty string; the 16 bytes drawn for a "random" topic give the
      32-digit segment that is substituted into the content topic. */
  lemma HexSegmentSizes(bytes: seq<byte>)
    ensures |bytes| == 0 ==> HexOfBytes(bytes) == ""
    ensures |bytes| == 16 ==> |HexOfBytes(bytes)| == 32
  {
  }

  /** The value of a lowercase hexadecimal digit. */
  function ParseHexDigit(c: char): (r: Option<int>)
    ensures r.Some? ==> 0 <= r.value < 16 && HexDigit(r.value) == c
    ensures r.None? ==> !IsLowerHexDigit(c)
  {
    if '0' <= c <= '9' then Some(c as int - '0' as int)
    else if 'a' <= c <= 'f' then Some(c as int - 'a' as int + 10)
    else None
  }

  /** Parsing a digit gives back the value it was written for. */
  lemma ParseHexDigitInverse(n: int)
    requires 0 <= n < 16
    ensures ParseHexDigit(HexDigit(n)) == Some(n)
  {
    if n < 10 {
      assert HexDigit(n) as int == '0' as int + n;
    } else {
      assert HexDigit(n) as int == 'a' as int + n - 10;
    }
  }

  /** Reads a string of digit pairs back into bytes, high nibble first; `None` for an odd length
      or a character that is not a lowercase digit. */
  function ParseHex(s: string): Option<seq<byte>>
    decreases |s|
  {
    if |s| < 2 then
      if |s| == 0 then Some([]) else None
    else
      var hi, lo, rest := ParseHexDigit(s[0]), ParseHexDigit(s[1]), ParseHex(s[2..]);
      if hi.Some? && lo.Some? && rest.Some? then Some([hi.value * 16 + lo.value] + rest.value) else None
  }

  /** Parsing two digits in front of more digits. */
  lemma ParseHexPair(hi: int, lo: int, tail: string)
    requires 0 <= hi < 16 && 0 <= lo < 16
    ensures ParseHex([HexDigit(hi), HexDigit(lo)] + tail) ==
      if ParseHex(tail).Some? then Some([hi * 16 + lo] + ParseHex(tail).value) else None
  {
    var s := [HexDigit(hi), HexDigit(lo)] + tail;
    assert s[2..] == tail;
    ParseHexDigitInverse(hi);
    ParseHexDigitInverse(lo);
  }

  /** Reading the digits back in pairs recovers the bytes. */
  lemma {:induction false} ParseHexRoundTrip(bytes: seq<byte>)
    ensures ParseHex(HexOfBytes(bytes)) == Some(bytes)
  {
    if bytes != [] {
      var b := bytes[0];
      ParseHexRoundTrip(bytes[1..]);
      assert HexOfBytes(bytes) == [HexDigit(b / 16), HexDigit(b % 16)] + HexOfBytes(bytes[1..]);
      ParseHexPair(b / 16, b % 16, HexOfBytes(bytes[1..]));
      assert b / 16 * 16 + b % 16 == b;
      assert [b] + bytes[1..] == bytes;
    }
  }

  /** The formatting is injective: different bytes never give the same string. */
  lemma HexInjective(a: seq<byte>, b: seq<byte>)
    requires HexOfBytes(a) == HexOfBytes(b)
    ensures a == b
  {
    ParseHexRoundTrip(a);
    ParseHexRoundTrip(b);
  }
}
