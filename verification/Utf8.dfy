/** UTF-8 (RFC 3629), decoding with replacement of what is not valid. */
module Utf8 {
  /** A number below 256. */
  type Byte = n: int | 0 <= n < 256 witness 0

  const REPLACEMENT: char := '\U{fffd}'

  function EncodeChar(c: char): (bytes: seq<Byte>)
    ensures 1 <= |bytes| <= 4
  {
    var n := c as int;
    if n < 0x80 then [n]
    else if n < 0x800 then [0xc0 + n / 64, 0x80 + n % 64]
    else if n < 0x10000 then [0xe0 + n / 4096, 0x80 + n / 64 % 64, 0x80 + n % 64]
    else [0xf0 + n / 262144, 0x80 + n / 4096 % 64, 0x80 + n / 64 % 64, 0x80 + n % 64]
  }

  function Encode(s: string): seq<Byte> {
    if s == "" then [] else EncodeChar(s[0]) + Encode(s[1..])
  }

  lemma {:induction false} NoShorter(s: string)
    ensures |Encode(s)| >= |s|
  {
    if s != "" {
      NoShorter(s[1..]);
    }
  }

  lemma {:induction false} AsciiIsAsLong(s: string)
    requires forall k :: 0 <= k < |s| ==> s[k] < '\U{80}'
    ensures |Encode(s)| == |s|
  {
    if s != "" {
      AsciiIsAsLong(s[1..]);
    }
  }

  /** The byte at `i` is there and within the bounds. */
  predicate Within(bytes: seq<Byte>, i: nat, low: int, high: int) {
    i < |bytes| && low <= bytes[i] <= high
  }

  predicate Continues(bytes: seq<Byte>, i: nat) {
    Within(bytes, i, 0x80, 0xbf)
  }

  /** The bounds of the second byte exclude overlong forms, surrogates and values beyond Unicode. */
  predicate SecondOk(bytes: seq<Byte>)
    requires bytes != []
  {
    var first := bytes[0];
    Within(bytes, 1,
      if first == 0xe0 then 0xa0 else if first == 0xf0 then 0x90 else 0x80,
      if first == 0xed then 0x9f else if first == 0xf4 then 0x8f else 0xbf)
  }

  /** The six bits of a continuation byte. */
  function Low(bytes: seq<Byte>, i: nat): int
    requires i < |bytes|
  {
    var b: int := bytes[i];
    b - 0x80
  }

  function Three(bytes: seq<Byte>): int
    requires |bytes| >= 3
  {
    var first: int := bytes[0];
    (first - 0xe0) * 4096 + Low(bytes, 1) * 64 + Low(bytes, 2)
  }

  function Four(bytes: seq<Byte>): int
    requires |bytes| >= 4
  {
    var first: int := bytes[0];
    (first - 0xf0) * 262144 + Low(bytes, 1) * 4096 + Low(bytes, 2) * 64 + Low(bytes, 3)
  }

  /** The first character and the number of bytes it takes; an ill-formed start is replaced, together
      with the bytes that could still have begun a character. */
  function DecodeChar(bytes: seq<Byte>): (r: (char, nat))
    requires bytes != []
    ensures 1 <= r.1 <= |bytes|
  {
    var b: int := bytes[0];
    if b < 0x80 then (b as char, 1)
    else if 0xc2 <= b <= 0xdf then
      if Continues(bytes, 1) then (((b - 0xc0) * 64 + Low(bytes, 1)) as char, 2) else (REPLACEMENT, 1)
    else if 0xe0 <= b <= 0xef then
      if !SecondOk(bytes) then (REPLACEMENT, 1)
      else if !Continues(bytes, 2) then (REPLACEMENT, 2)
      else (Three(bytes) as char, 3)
    else if 0xf0 <= b <= 0xf4 then
      if !SecondOk(bytes) then (REPLACEMENT, 1)
      else if !Continues(bytes, 2) then (REPLACEMENT, 2)
      else if !Continues(bytes, 3) then (REPLACEMENT, 3)
      else (Four(bytes) as char, 4)
    else (REPLACEMENT, 1)
  }

  function Decode(bytes: seq<Byte>): string {
    if bytes == [] then ""
    else
      var (c, n) := DecodeChar(bytes);
      [c] + Decode(bytes[n..])
  }

  lemma FourDigits(n: int)
    requires 0x10000 <= n < 0x110000
    ensures n / 262144 * 262144 + n / 4096 % 64 * 4096 + n / 64 % 64 * 64 + n % 64 == n
    ensures 0 <= n / 262144 <= 4
    ensures n / 262144 == 0 ==> n / 4096 % 64 >= 16
    ensures n / 262144 == 4 ==> n / 4096 % 64 < 16
  {
  }

  lemma FourBytes(c: char, bytes: seq<Byte>)
    requires 0x10000 <= c as int && EncodeChar(c) <= bytes
    ensures DecodeChar(bytes) == (c, 4)
  {
    var n := c as int;
    assert EncodeChar(c)[0] == bytes[0] && EncodeChar(c)[1] == bytes[1];
    assert EncodeChar(c)[2] == bytes[2] && EncodeChar(c)[3] == bytes[3];
    FourDigits(n);
    assert Four(bytes) == n;
  }

  lemma DecodeEncodedChar(c: char, rest: seq<Byte>)
    ensures DecodeChar(EncodeChar(c) + rest) == (c, |EncodeChar(c)|)
  {
    if c as int >= 0x10000 {
      FourBytes(c, EncodeChar(c) + rest);
    } else if c as int >= 0x800 {
    } else if c as int >= 0x80 {
    }
  }

  /** Decoding what was encoded gives it back. */
  lemma {:induction false} DecodeEncode(s: string)
    ensures Decode(Encode(s)) == s
  {
    if s != "" {
      DecodeEncodedChar(s[0], Encode(s[1..]));
      assert (EncodeChar(s[0]) + Encode(s[1..]))[|EncodeChar(s[0])|..] == Encode(s[1..]);
      DecodeEncode(s[1..]);
    }
  }

  // ---------------------------------------------------------------- what is not valid

  /** The bytes of a character, by their number. */
  lemma EncodedShape(c: char)
    ensures var e := EncodeChar(c);
      && (|e| == 1 ==> e[0] < 0x80)
      && (|e| == 2 ==> 0xc2 <= e[0] <= 0xdf && Continues(e, 1))
      && (|e| == 3 ==> 0xe0 <= e[0] <= 0xef && SecondOk(e) && Continues(e, 2))
      && (|e| == 4 ==> 0xf0 <= e[0] <= 0xf4 && SecondOk(e) && Continues(e, 2) && Continues(e, 3))
  {
    if c as int >= 0x10000 {
      FourDigits(c as int);
    }
  }

  /** The bytes make up a whole character. */
  predicate Whole(bytes: seq<Byte>) {
    && bytes != []
    && (|| (|bytes| == 1 && bytes[0] < 0x80)
        || (|bytes| == 2 && 0xc2 <= bytes[0] <= 0xdf && Continues(bytes, 1))
        || (|bytes| == 3 && 0xe0 <= bytes[0] <= 0xef && SecondOk(bytes) && Continues(bytes, 2))
        || (|bytes| == 4 && 0xf0 <= bytes[0] <= 0xf4 && SecondOk(bytes) && Continues(bytes, 2) && Continues(bytes, 3)))
  }

  lemma FourIsEncoded(bytes: seq<Byte>)
    requires Whole(bytes) && |bytes| == 4
    ensures 0x10000 <= Four(bytes) < 0x110000 && EncodeChar(Four(bytes) as char) == bytes
  {
    var n, a, b, c, d := Four(bytes), bytes[0] - 0xf0, Low(bytes, 1), Low(bytes, 2), Low(bytes, 3);
    assert n / 64 == a * 4096 + b * 64 + c && n / 4096 == a * 64 + b && n / 262144 == a;
  }

  lemma ThreeIsEncoded(bytes: seq<Byte>)
    requires Whole(bytes) && |bytes| == 3
    ensures 0x800 <= Three(bytes) < 0x10000 && !(0xd800 <= Three(bytes) < 0xe000)
    ensures EncodeChar(Three(bytes) as char) == bytes
  {
    var n, a, b, c := Three(bytes), bytes[0] - 0xe0, Low(bytes, 1), Low(bytes, 2);
    assert n / 64 == a * 64 + b && n / 4096 == a;
  }

  lemma TwoIsEncoded(bytes: seq<Byte>)
    requires Whole(bytes) && |bytes| == 2
    ensures EncodeChar(DecodeChar(bytes).0) == bytes && DecodeChar(bytes).1 == 2
  {
  }

  lemma WholeIsEncoded(bytes: seq<Byte>)
    requires Whole(bytes)
    ensures EncodeChar(DecodeChar(bytes).0) == bytes && DecodeChar(bytes).1 == |bytes|
  {
    if |bytes| == 4 {
      FourIsEncoded(bytes);
      assert DecodeChar(bytes) == (Four(bytes) as char, 4);
    } else if |bytes| == 3 {
      ThreeIsEncoded(bytes);
      assert DecodeChar(bytes) == (Three(bytes) as char, 3);
    } else if |bytes| == 2 {
      TwoIsEncoded(bytes);
    }
  }

  /** The character stands at the start of the bytes. */
  predicate Stands(bytes: seq<Byte>, c: char) {
    EncodeChar(c) <= bytes
  }

  /** The first `n` bytes begin the character. */
  predicate Begins(bytes: seq<Byte>, n: nat, c: char) {
    n <= |bytes| && bytes[..n] <= EncodeChar(c)
  }

  predicate BeginsBeyond(bytes: seq<Byte>, n: nat, c: char) {
    Begins(bytes, n + 1, c)
  }

  lemma WholeIsDecoded(bytes: seq<Byte>)
    requires bytes != [] && Whole(bytes[..DecodeChar(bytes).1])
    ensures EncodeChar(DecodeChar(bytes).0) == bytes[..DecodeChar(bytes).1]
  {
    var n := DecodeChar(bytes).1;
    WholeIsEncoded(bytes[..n]);
    if n == 4 {
      assert Four(bytes[..4]) == Four(bytes);
    } else if n == 3 {
      assert Three(bytes[..3]) == Three(bytes);
    }
  }

  lemma OtherIsReplaced(bytes: seq<Byte>)
    requires bytes != [] && !Whole(bytes[..DecodeChar(bytes).1])
    ensures DecodeChar(bytes).0 == REPLACEMENT
    ensures DecodeChar(bytes).1 > 1 ==>
              0xe0 <= bytes[0] <= 0xf4 && SecondOk(bytes) && DecodeChar(bytes).1 <= 3
              && (DecodeChar(bytes).1 == 3 ==> bytes[0] >= 0xf0 && Continues(bytes, 2))
  {
  }

  /** What is replaced together could have begun a character. */
  lemma ReplacedBegins(bytes: seq<Byte>) returns (c: char)
    requires bytes != [] && !Whole(bytes[..DecodeChar(bytes).1]) && DecodeChar(bytes).1 > 1
    ensures Begins(bytes, DecodeChar(bytes).1, c)
  {
    OtherIsReplaced(bytes);
    var n := DecodeChar(bytes).1;
    var whole: seq<Byte> := bytes[..n] + (if n == 2 && bytes[0] >= 0xf0 then [0x80, 0x80] else [0x80]);
    assert whole[0] == bytes[0] && whole[1] == bytes[1] && whole[..n] == bytes[..n];
    assert SecondOk(whole);
    WholeIsEncoded(whole);
    c := DecodeChar(whole).0;
  }

  /** With one byte more no character could have begun. */
  lemma ReplacedIsLongest(bytes: seq<Byte>, c: char)
    requires bytes != [] && !Whole(bytes[..DecodeChar(bytes).1]) && DecodeChar(bytes).1 < |bytes|
    ensures !Begins(bytes, DecodeChar(bytes).1 + 1, c)
  {
    var n, e := DecodeChar(bytes).1, EncodeChar(c);
    EncodedShape(c);
    if bytes[..n + 1] <= e {
      SameBytes(bytes, n + 1, e);
    }
  }

  lemma SameBytes(bytes: seq<Byte>, n: nat, e: seq<Byte>)
    requires n <= |bytes| && bytes[..n] <= e
    ensures n <= |e| && forall k :: 0 <= k < n ==> e[k] == bytes[k]
  {
    assert forall k :: 0 <= k < n ==> e[k] == bytes[..n][k];
  }

  /** Decoding takes a character where one stands, and otherwise replaces the longest run of bytes that could
      still have begun one, or a single byte. */
  lemma DecodesOrReplaces(bytes: seq<Byte>)
    requires bytes != []
    ensures var (c, n) := DecodeChar(bytes);
      if exists d :: Stands(bytes, d) then EncodeChar(c) == bytes[..n]
      else
        && c == '\U{fffd}' && (n == 1 || exists d :: Begins(bytes, n, d))
        && (n < |bytes| ==> forall d :: !BeginsBeyond(bytes, n, d))
  {
    var (c, n) := DecodeChar(bytes);
    if d :| Stands(bytes, d) {
      DecodeEncodedChar(d, bytes[|EncodeChar(d)|..]);
      assert bytes == EncodeChar(d) + bytes[|EncodeChar(d)|..];
    } else if Whole(bytes[..n]) {
      WholeIsDecoded(bytes);
      assert Stands(bytes, c);
    } else {
      OtherIsReplaced(bytes);
      if n > 1 {
        var d := ReplacedBegins(bytes);
      }
      if n < |bytes| {
        forall d ensures !BeginsBeyond(bytes, n, d) {
          ReplacedIsLongest(bytes, d);
        }
      }
    }
  }
}
