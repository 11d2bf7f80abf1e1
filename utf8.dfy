/**
 * UTF-8 validity as Go's `unicode/utf8.Valid` decides it: the byte-sequence
 * syntax of section 4 of RFC 3629 (no overlong forms, no surrogates, nothing
 * above U+10FFFF), and the encoding of section 3 that produces it.
 */
module Utf8 {

  newtype byte = x: int | 0 <= x < 256

  predicate IsTail(b: byte) {
    0x80 <= b <= 0xBF
  }

  /**
   * The allowed second bytes after each lead byte: UTF8-3 and UTF8-4 narrow
   * them after E0, ED, F0 and F4; otherwise any tail byte.
   */
  predicate SecondOk(lead: byte, b: byte) {
    if lead == 0xE0 then 0xA0 <= b <= 0xBF
    else if lead == 0xED then 0x80 <= b <= 0x9F
    else if lead == 0xF0 then 0x90 <= b <= 0xBF
    else if lead == 0xF4 then 0x80 <= b <= 0x8F
    else IsTail(b)
  }

  /** Length of the UTF8-char that `s` starts with, or 0 when `s` starts with none. */
  function CharLength(s: seq<byte>): (n: nat)
    ensures n <= 4 && n <= |s|
    ensures n == 0 <==> s == [] || !StartsWithChar(s)
  {
    if s == [] then 0
    else if s[0] <= 0x7F then 1
    else if 0xC2 <= s[0] <= 0xDF then
      if |s| >= 2 && IsTail(s[1]) then 2 else 0
    else if 0xE0 <= s[0] <= 0xEF then
      if |s| >= 3 && SecondOk(s[0], s[1]) && IsTail(s[2]) then 3 else 0
    else if 0xF0 <= s[0] <= 0xF4 then
      if |s| >= 4 && SecondOk(s[0], s[1]) && IsTail(s[2]) && IsTail(s[3]) then 4 else 0
    else 0
  }

  /** The grammar of section 4 of RFC 3629 for one UTF8-char at the start of `s`. */
  predicate StartsWithChar(s: seq<byte>)
    requires s != []
  {
    || s[0] <= 0x7F
    || (0xC2 <= s[0] <= 0xDF && |s| >= 2 && IsTail(s[1]))
    || (0xE0 <= s[0] <= 0xEF && |s| >= 3 && SecondOk(s[0], s[1]) && IsTail(s[2]))
    || (0xF0 <= s[0] <= 0xF4 && |s| >= 4 && SecondOk(s[0], s[1]) && IsTail(s[2]) && IsTail(s[3]))
  }

  /** The whole of `s` is a sequence of UTF8-chars (utf8.Valid). */
  predicate Valid(s: seq<byte>)
    decreases |s|
  {
    s == [] || (CharLength(s) > 0 && Valid(s[CharLength(s)..]))
  }

  /** The first character depends only on its own bytes. */
  lemma CharLengthPrefix(s: seq<byte>, t: seq<byte>)
    requires CharLength(s) > 0
    ensures CharLength(s + t) == CharLength(s)
  {
    assert (s + t)[0] == s[0];
    if |s| >= 2 { assert (s + t)[1] == s[1]; }
    if |s| >= 3 { assert (s + t)[2] == s[2]; }
    if |s| >= 4 { assert (s + t)[3] == s[3]; }
  }

  /** Valid data stays valid when valid data is appended. */
  lemma {:induction false} ValidConcat(a: seq<byte>, b: seq<byte>)
    requires Valid(a) && Valid(b)
    ensures Valid(a + b)
    decreases |a|
  {
    if a == [] {
      assert a + b == b;
    } else {
      var n := CharLength(a);
      CharLengthPrefix(a, b);
      ValidConcat(a[n..], b);
      assert (a + b)[n..] == a[n..] + b;
      assert CharLength(a + b) == n && Valid((a + b)[n..]);
    }
  }

  /** Bytes C0, C1 and F5 to FF never occur in valid data. */
  lemma {:induction false} ValidExcludedBytes(s: seq<byte>, i: nat)
    requires Valid(s) && i < |s|
    ensures s[i] != 0xC0 && s[i] != 0xC1 && s[i] < 0xF5
    decreases |s|
  {
    var n := CharLength(s);
    if i >= n {
      ValidExcludedBytes(s[n..], i - n);
    }
  }

  /** Section 3 of RFC 3629: the bytes of one Unicode scalar value. */
  function EncodeChar(c: char): (r: seq<byte>)
    ensures 1 <= |r| <= 4
  {
    var cp := c as int;
    if cp < 0x80 then [cp as byte]
    else if cp < 0x800 then [(0xC0 + cp / 64) as byte, (0x80 + cp % 64) as byte]
    else if cp < 0x10000 then
      [(0xE0 + cp / 4096) as byte, (0x80 + (cp / 64) % 64) as byte, (0x80 + cp % 64) as byte]
    else
      [(0xF0 + cp / 262144) as byte, (0x80 + (cp / 4096) % 64) as byte,
       (0x80 + (cp / 64) % 64) as byte, (0x80 + cp % 64) as byte]
  }

  function EncodeString(s: string): (r: seq<byte>)
  {
    if s == [] then [] else EncodeChar(s[0]) + EncodeString(s[1..])
  }

  /** Every character encodes as exactly one UTF8-char. */
  lemma EncodeCharValid(c: char)
    ensures CharLength(EncodeChar(c)) == |EncodeChar(c)|
    ensures Valid(EncodeChar(c))
  {
    var cp := c as int;
    var r := EncodeChar(c);
    if cp < 0x80 {
    } else if cp < 0x800 {
      assert 2 <= cp / 64 < 32;
    } else if cp < 0x10000 {
      EncodeThreeValid(c);
    } else {
      EncodeFourValid(c);
    }
    assert r[CharLength(r)..] == [];
  }

  lemma EncodeThreeValid(c: char)
    requires 0x800 <= c as int < 0x10000
    ensures CharLength(EncodeChar(c)) == 3
  {
    var cp := c as int;
    var hi := cp / 4096;
    var mid := (cp / 64) % 64;
    assert cp / 64 == hi * 64 + mid;
    assert hi == 0 ==> mid >= 32;
    assert hi == 13 ==> mid < 32 by {
      assert cp < 0xD800 || cp >= 0xE000;
    }
    var r := EncodeChar(c);
    assert r == [(0xE0 + hi) as byte, (0x80 + mid) as byte, (0x80 + cp % 64) as byte];
    assert SecondOk(r[0], r[1]);
  }

  lemma EncodeFourValid(c: char)
    requires 0x10000 <= c as int
    ensures CharLength(EncodeChar(c)) == 4
  {
    var cp := c as int;
    var hi := cp / 262144;
    var mid := (cp / 4096) % 64;
    assert cp / 4096 == hi * 64 + mid;
    assert 0 <= hi <= 4;
    assert hi == 0 ==> mid >= 16;
    assert hi == 4 ==> mid < 16;
    var r := EncodeChar(c);
    assert r == [(0xF0 + hi) as byte, (0x80 + mid) as byte, (0x80 + (cp / 64) % 64) as byte, (0x80 + cp % 64) as byte];
    assert SecondOk(r[0], r[1]);
  }

  /** The encoding of any string is valid UTF-8. */
  lemma {:induction false} EncodeStringValid(s: string)
    ensures Valid(EncodeString(s))
    decreases |s|
  {
    if s != [] {
      EncodeCharValid(s[0]);
      EncodeStringValid(s[1..]);
      ValidConcat(EncodeChar(s[0]), EncodeString(s[1..]));
    }
  }

  /** Only the character U+0000 puts a zero byte into an encoding. */
  lemma {:induction false} EncodeStringZero(s: string)
    ensures 0 in EncodeString(s) <==> '\0' in s
    decreases |s|
  {
    if s != [] {
      EncodeStringZero(s[1..]);
      var e := EncodeChar(s[0]);
      assert 0 in e <==> s[0] == '\0' by {
        if s[0] as int >= 0x80 {
          assert forall k :: 0 <= k < |e| ==> e[k] >= 0x80;
        }
      }
      assert EncodeString(s) == e + EncodeString(s[1..]);
      assert s == [s[0]] + s[1..];
    }
  }
}
