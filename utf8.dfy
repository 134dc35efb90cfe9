/**
 * UTF-8 as Python's `str.encode("utf-8")` and strict `bytes.decode("utf-8")`
 * do it: the decoder refuses overlong forms, surrogates, code points above
 * U+10FFFF and stray continuation bytes (`None` is `UnicodeDecodeError`).
 */
module Utf8 {
  import opened Wrappers
  import opened Bytes

  function EncodeChar(c: char): (r: seq<Byte>)
    ensures 1 <= |r| <= 4
  {
    var n := c as int;
    if n < 0x80 then [n]
    else if n < 0x800 then [0xC0 + n / 64, 0x80 + n % 64]
    else if n < 0x10000 then [0xE0 + n / 4096, 0x80 + (n / 64) % 64, 0x80 + n % 64]
    else [0xF0 + n / 262144, 0x80 + (n / 4096) % 64, 0x80 + (n / 64) % 64, 0x80 + n % 64]
  }

  function Encode(s: string): (r: seq<Byte>)
    ensures |r| >= |s|
  {
    if s == [] then [] else EncodeChar(s[0]) + Encode(s[1..])
  }

  predicate IsContinuation(b: Byte)
  {
    0x80 <= b < 0xC0
  }

  predicate IsScalar(n: int)
  {
    (0 <= n < 0xD800) || (0xE000 <= n < 0x11_0000)
  }

  /** Decodes the first character of `s`, with the number of bytes it took. */
  function DecodeFirst(s: seq<Byte>): (r: Option<(char, nat)>)
    requires s != []
    ensures r.Some? ==> 1 <= r.value.1 <= |s|
  {
    var b0: int := s[0];
    if b0 < 0x80 then Some((b0 as char, 1))
    else if 0xC2 <= b0 < 0xE0 && |s| >= 2 && IsContinuation(s[1]) then
      var b1: int := s[1];
      Some((((b0 - 0xC0) * 64 + (b1 - 0x80)) as char, 2))
    else if 0xE0 <= b0 < 0xF0 && |s| >= 3 && IsContinuation(s[1]) && IsContinuation(s[2]) then
      var b1: int, b2: int := s[1], s[2];
      var n := (b0 - 0xE0) * 4096 + (b1 - 0x80) * 64 + (b2 - 0x80);
      if n >= 0x800 && IsScalar(n) then Some((n as char, 3)) else None
    else if 0xF0 <= b0 < 0xF5 && |s| >= 4 && IsContinuation(s[1]) && IsContinuation(s[2])
      && IsContinuation(s[3]) then
      var b1: int, b2: int, b3: int := s[1], s[2], s[3];
      var n := (b0 - 0xF0) * 262144 + (b1 - 0x80) * 4096 + (b2 - 0x80) * 64 + (b3 - 0x80);
      if 0x10000 <= n < 0x11_0000 then Some((n as char, 4)) else None
    else None
  }

  function Decode(s: seq<Byte>): Option<string>
    decreases |s|
  {
    if s == [] then Some("")
    else match DecodeFirst(s)
      case None => None
      case Some((c, k)) =>
        match Decode(s[k..])
        case None => None
        case Some(rest) => Some([c] + rest)
  }

  lemma DecodeFirstOfEncodeChar(c: char, rest: seq<Byte>)
    ensures DecodeFirst(EncodeChar(c) + rest) == Some((c, |EncodeChar(c)|))
  {
    var n := c as int;
    if n < 0x80 {
    } else if n < 0x800 {
      DecodeTwo(c, rest);
    } else if n < 0x10000 {
      DecodeThree(c, rest);
    } else {
      DecodeFour(c, rest);
    }
  }

  lemma DecodeTwo(c: char, rest: seq<Byte>)
    requires 0x80 <= c as int < 0x800
    ensures DecodeFirst(EncodeChar(c) + rest) == Some((c, 2))
  {
    var n := c as int;
    var s := EncodeChar(c) + rest;
    var hi, lo := n / 64, n % 64;
    assert n == hi * 64 + lo;
    assert s[0] == 0xC0 + hi && s[1] == 0x80 + lo;
  }

  lemma DecodeThree(c: char, rest: seq<Byte>)
    requires 0x800 <= c as int < 0x10000
    ensures DecodeFirst(EncodeChar(c) + rest) == Some((c, 3))
  {
    var n := c as int;
    var s := EncodeChar(c) + rest;
    var q, d := n / 64, n % 64;
    var a, b := n / 4096, q % 64;
    Digits3(n);
    assert s[0] == 0xE0 + a && s[1] == 0x80 + b && s[2] == 0x80 + d;
  }

  /** `n` in base 64, three digits. */
  lemma Digits3(n: nat)
    requires n < 0x40000
    ensures n == (n / 4096) * 4096 + ((n / 64) % 64) * 64 + n % 64
    ensures n / 4096 == (n / 64) / 64
  {
    var q, d := n / 64, n % 64;
    assert n == q * 64 + d;
    var a, b := q / 64, q % 64;
    assert q == a * 64 + b;
    assert n == a * 4096 + b * 64 + d;
    assert 0 <= b * 64 + d < 4096;
  }

  lemma DecodeFour(c: char, rest: seq<Byte>)
    requires 0x10000 <= c as int
    ensures DecodeFirst(EncodeChar(c) + rest) == Some((c, 4))
  {
    var n := c as int;
    var s := EncodeChar(c) + rest;
    var q := n / 64;
    Digits3(q % 4096);
    Digits4(n);
    assert s[0] == 0xF0 + n / 262144;
    assert s[1] == 0x80 + (n / 4096) % 64 && s[2] == 0x80 + (n / 64) % 64 && s[3] == 0x80 + n % 64;
  }

  /** `n` in base 64, four digits. */
  lemma Digits4(n: nat)
    ensures n == (n / 262144) * 262144 + ((n / 4096) % 64) * 4096 + ((n / 64) % 64) * 64 + n % 64
  {
    var q, d := n / 64, n % 64;
    assert n == q * 64 + d;
    var r, b := q / 64, q % 64;
    assert q == r * 64 + b;
    var a, e := r / 64, r % 64;
    assert r == a * 64 + e;
    assert n == a * 262144 + e * 4096 + b * 64 + d;
    assert 0 <= e * 4096 + b * 64 + d < 262144;
    assert n / 4096 == r;
    assert n / 262144 == a;
  }

  /** Decoding what `Encode` produced gives the text back. */
  lemma {:induction false} RoundTrip(s: string)
    ensures Decode(Encode(s)) == Some(s)
    decreases |s|
  {
    if s != [] {
      var e := EncodeChar(s[0]);
      var tail := Encode(s[1..]);
      DecodeFirstOfEncodeChar(s[0], tail);
      assert Encode(s) == e + tail;
      assert (e + tail)[|e|..] == tail;
      RoundTrip(s[1..]);
      assert s == [s[0]] + s[1..];
    }
  }

  lemma {:induction false} EncodeAppend(a: string, b: string)
    ensures Encode(a + b) == Encode(a) + Encode(b)
    decreases |a|
  {
    if a == [] {
      assert a + b == b;
    } else {
      assert (a + b)[0] == a[0];
      assert (a + b)[1..] == a[1..] + b;
      EncodeAppend(a[1..], b);
    }
  }
}
