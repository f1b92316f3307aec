/** UTF-8 (RFC 3629): the bytes of a text, and back. */
module Utf8 {
  import opened Wrappers
  import Text

  type Byte = n: nat | n < 256

  function EncodeChar(c: char): (bs: seq<Byte>)
    ensures 1 <= |bs| <= 4
  {
    var n := c as int;
    if n < 0x80 then [n]
    else if n < 0x800 then [0xC0 + n / 64, 0x80 + n % 64]
    else if n < 0x1_0000 then [0xE0 + n / 4096, 0x80 + n / 64 % 64, 0x80 + n % 64]
    else [0xF0 + n / 262144, 0x80 + n / 4096 % 64, 0x80 + n / 64 % 64, 0x80 + n % 64]
  }

  function Encode(s: string): seq<Byte> {
    if s == [] then [] else EncodeChar(s[0]) + Encode(s[1..])
  }

  predicate IsTail(b: Byte) {
    0x80 <= b < 0xC0
  }

  predicate IsScalar(n: int) {
    0 <= n < 0xD800 || 0xE000 <= n < 0x11_0000
  }

  /** Bits gathered six at a time. */
  function Six(high: nat, b: nat): nat
    requires 0x80 <= b
  {
    high * 64 + (b - 0x80)
  }

  /** The first character and its length in bytes; overlong forms, surrogates and numbers too large
      have none. */
  function DecodeChar(bs: seq<Byte>): (r: Option<(char, nat)>)
    ensures r.Some? ==> 1 <= r.value.1 <= |bs|
  {
    if bs == [] then None
    else if bs[0] < 0x80 then Some((bs[0] as char, 1))
    else if 0xC0 <= bs[0] < 0xE0 && |bs| >= 2 && IsTail(bs[1]) then
      var n := Six(bs[0] - 0xC0, bs[1]);
      if n >= 0x80 then Some((n as char, 2)) else None
    else if 0xE0 <= bs[0] < 0xF0 && |bs| >= 3 && IsTail(bs[1]) && IsTail(bs[2]) then
      var n := Six(Six(bs[0] - 0xE0, bs[1]), bs[2]);
      if n >= 0x800 && IsScalar(n) then Some((n as char, 3)) else None
    else if 0xF0 <= bs[0] < 0xF8 && |bs| >= 4 && IsTail(bs[1]) && IsTail(bs[2]) && IsTail(bs[3]) then
      var n := Six(Six(Six(bs[0] - 0xF0, bs[1]), bs[2]), bs[3]);
      if n >= 0x1_0000 && IsScalar(n) then Some((n as char, 4)) else None
    else None
  }

  function Decode(bs: seq<Byte>): Option<string> {
    if bs == [] then Some("")
    else
      match DecodeChar(bs)
      case None => None
      case Some((c, n)) =>
        match Decode(bs[n..])
        case None => None
        case Some(s) => Some([c] + s)
  }

  lemma CharReadsBack(c: char, rest: seq<Byte>)
    ensures DecodeChar(EncodeChar(c) + rest) == Some((c, |EncodeChar(c)|))
  {
    var n := c as int;
    assert n == n / 64 * 64 + n % 64;
    assert n / 64 == n / 4096 * 64 + n / 64 % 64;
    assert n / 4096 == n / 262144 * 64 + n / 4096 % 64;
  }

  /** Every text is read back from its bytes. */
  lemma {:induction false} TextReadsBack(s: string)
    ensures Decode(Encode(s)) == Some(s)
  {
    if s != [] {
      var bs := EncodeChar(s[0]);
      CharReadsBack(s[0], Encode(s[1..]));
      assert (bs + Encode(s[1..]))[|bs|..] == Encode(s[1..]);
      TextReadsBack(s[1..]);
      assert [s[0]] + s[1..] == s;
    }
  }

  lemma SixBack(high: nat, b: Byte)
    requires IsTail(b)
    ensures Six(high, b) / 64 == high && Six(high, b) % 64 == b - 0x80
  {
  }

  lemma SixTwice(n: nat)
    ensures n / 4096 == n / 64 / 64 && n / 262144 == n / 64 / 64 / 64 && n / 4096 % 64 == n / 64 / 64 % 64
  {
  }

  lemma ThreeIsExact(bs: seq<Byte>)
    requires DecodeChar(bs).Some? && 0xE0 <= bs[0] < 0xF0
    ensures EncodeChar(DecodeChar(bs).value.0) == bs[..3]
  {
    var m := Six(bs[0] - 0xE0, bs[1]);
    SixBack(bs[0] - 0xE0, bs[1]);
    SixBack(m, bs[2]);
    SixTwice(Six(m, bs[2]));
    assert bs[..3] == [bs[0], bs[1], bs[2]];
  }

  lemma FourIsExact(bs: seq<Byte>)
    requires DecodeChar(bs).Some? && 0xF0 <= bs[0]
    ensures EncodeChar(DecodeChar(bs).value.0) == bs[..4]
  {
    var l := Six(bs[0] - 0xF0, bs[1]);
    var m := Six(l, bs[2]);
    SixBack(bs[0] - 0xF0, bs[1]);
    SixBack(l, bs[2]);
    SixBack(m, bs[3]);
    SixTwice(Six(m, bs[3]));
    assert bs[..4] == [bs[0], bs[1], bs[2], bs[3]];
  }

  lemma CharIsExact(bs: seq<Byte>)
    requires DecodeChar(bs).Some?
    ensures EncodeChar(DecodeChar(bs).value.0) == bs[..DecodeChar(bs).value.1]
  {
    if bs[0] < 0x80 {
      assert bs[..1] == [bs[0]];
    } else if bs[0] < 0xE0 {
      SixBack(bs[0] - 0xC0, bs[1]);
      assert bs[..2] == [bs[0], bs[1]];
    } else if bs[0] < 0xF0 {
      ThreeIsExact(bs);
    } else {
      FourIsExact(bs);
    }
  }

  /** Bytes that read as a text are that text's only encoding. */
  lemma {:induction false} BytesReadBack(bs: seq<Byte>)
    requires Decode(bs).Some?
    ensures Encode(Decode(bs).value) == bs
    decreases |bs|
  {
    if bs != [] {
      var (c, n) := DecodeChar(bs).value;
      CharIsExact(bs);
      BytesReadBack(bs[n..]);
      var s := Decode(bs[n..]).value;
      assert ([c] + s)[1..] == s;
      assert bs[..n] + bs[n..] == bs;
    }
  }

  /** The length of a text in bytes is that of its encoding. */
  lemma {:induction false} LengthInBytes(s: string)
    ensures |Encode(s)| == Text.ByteLength(s)
  {
    if s != [] { LengthInBytes(s[1..]); }
  }
}
