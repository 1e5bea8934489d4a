/** Bytes, and the UTF-8 byte sequences of section 4 of RFC 3629. */
module Utf8 {
  type Byte = b: int | 0 <= b < 256
  type Bytes = seq<Byte>

  /** A continuation byte. */
  predicate Tail(b: Byte) {
    0x80 <= b <= 0xBF
  }

  predicate Second3(lead: Byte, b: Byte) {
    if lead == 0xE0 then 0xA0 <= b <= 0xBF else if lead == 0xED then 0x80 <= b <= 0x9F else Tail(b)
  }

  predicate Second4(lead: Byte, b: Byte) {
    if lead == 0xF0 then 0x90 <= b <= 0xBF else if lead == 0xF4 then 0x80 <= b <= 0x8F else Tail(b)
  }

  /** Length of the character `s` begins with, or 0 when it begins with none. */
  function CharLen(s: Bytes): (n: nat)
    ensures n <= |s|
    ensures n > 0 ==> !Tail(s[0]) && forall k :: 1 <= k < n ==> Tail(s[k])
  {
    if s == [] then 0
    else if s[0] <= 0x7F then 1
    else if 0xC2 <= s[0] <= 0xDF then (if |s| >= 2 && Tail(s[1]) then 2 else 0)
    else if 0xE0 <= s[0] <= 0xEF then (if |s| >= 3 && Second3(s[0], s[1]) && Tail(s[2]) then 3 else 0)
    else if 0xF0 <= s[0] <= 0xF4 then
      (if |s| >= 4 && Second4(s[0], s[1]) && Tail(s[2]) && Tail(s[3]) then 4 else 0)
    else 0
  }

  predicate Valid(s: Bytes) {
    s == [] || (CharLen(s) > 0 && Valid(s[CharLen(s)..]))
  }

  /** A character is recognised by its own bytes, whatever follows. */
  lemma CharLenOfPrefix(a: Bytes, b: Bytes)
    requires 0 < CharLen(a) || (a != [] && 0 < CharLen(a + b) <= |a|)
    ensures CharLen(a + b) == CharLen(a)
  {}

  lemma {:induction false} ValidConcat(a: Bytes, b: Bytes)
    requires Valid(a) && Valid(b)
    ensures Valid(a + b)
  {
    if a == [] {
      assert a + b == b;
    } else {
      var n := CharLen(a);
      CharLenOfPrefix(a, b);
      ValidConcat(a[n..], b);
      assert (a + b)[n..] == a[n..] + b;
    }
  }

  /** Valid text cut before anything but a continuation byte is two valid texts. */
  lemma {:induction false} ValidCut(a: Bytes, b: Bytes)
    requires Valid(a + b) && (b == [] || !Tail(b[0]))
    ensures Valid(a) && Valid(b)
  {
    if a == [] {
      assert a + b == b;
    } else {
      var n := CharLen(a + b);
      assert b != [] ==> (a + b)[|a|] == b[0];
      CharLenOfPrefix(a, b);
      assert (a + b)[n..] == a[n..] + b;
      ValidCut(a[n..], b);
    }
  }

  /** Valid text cut after ASCII is two valid texts. */
  lemma {:induction false} ValidAfterAscii(a: Bytes, b: Bytes)
    requires Valid(a + b) && forall k :: 0 <= k < |a| ==> a[k] <= 0x7F
    ensures Valid(b)
  {
    if a == [] {
      assert a + b == b;
    } else {
      assert (a + b)[1..] == a[1..] + b;
      ValidAfterAscii(a[1..], b);
    }
  }

  lemma {:induction false} AsciiIsValid(a: Bytes)
    requires forall k :: 0 <= k < |a| ==> a[k] <= 0x7F
    ensures Valid(a)
  {
    if a != [] {
      AsciiIsValid(a[1..]);
    }
  }
}
