/** UTF-8 as section 4 of RFC 3629 defines it, and the `str` operations the tokeniser relies on. */
module Utf8 {
  import opened Bytes

  /** A continuation byte, `10xxxxxx`. */
  predicate IsContinuation(b: byte) { 0x80 <= b < 0xC0 }

  /** The sequence length a lead byte announces; 0 when no sequence starts with it. */
  function LeadLength(b: byte): nat {
    if b < 0x80 then 1
    else if 0xC2 <= b < 0xE0 then 2
    else if 0xE0 <= b < 0xF0 then 3
    else if 0xF0 <= b < 0xF5 then 4
    else 0
  }

  /** The extra bounds on the second byte: no overlong form, no surrogate, nothing above U+10FFFF. */
  predicate SecondByteOk(lead: byte, second: byte) {
    && (lead == 0xE0 ==> 0xA0 <= second)
    && (lead == 0xED ==> second < 0xA0)
    && (lead == 0xF0 ==> 0x90 <= second)
    && (lead == 0xF4 ==> second < 0x90)
  }

  /** A well-formed character starts at byte `i`. */
  predicate CharAt(s: Text, i: nat) {
    && i < |s|
    && var n := LeadLength(s[i]);
    && 0 < n <= |s| - i
    && (forall k :: i < k < i + n ==> IsContinuation(s[k]))
    && (n > 1 ==> SecondByteOk(s[i], s[i + 1]))
  }

  /** The bytes from `i` on are a sequence of well-formed characters. */
  predicate ValidFrom(s: Text, i: nat)
    decreases |s| - i
  {
    i == |s| || (CharAt(s, i) && ValidFrom(s, i + LeadLength(s[i])))
  }

  predicate Valid(s: Text) { ValidFrom(s, 0) }

  /** `str::is_char_boundary`: decided by one byte, without scanning. */
  predicate IsBoundary(s: Text, i: nat) {
    i == 0 || i == |s| || (i < |s| && !IsContinuation(s[i]))
  }

  /** `str::get(a..b)`. */
  function Get(s: Text, a: nat, b: nat): Option<Text> {
    if a <= b <= |s| && IsBoundary(s, a) && IsBoundary(s, b) then Some(s[a..b]) else None
  }

  /** The code point encoded at `i`. */
  function Scalar(s: Text, i: nat): nat
    requires CharAt(s, i)
  {
    var n := LeadLength(s[i]);
    if n == 1 then s[i]
    else if n == 2 then Bits(s, i, 0xC0) * 0x40 + Bits(s, i + 1, 0x80)
    else if n == 3 then Bits(s, i, 0xE0) * 0x1000 + Bits(s, i + 1, 0x80) * 0x40 + Bits(s, i + 2, 0x80)
    else
      Bits(s, i, 0xF0) * 0x40000 + Bits(s, i + 1, 0x80) * 0x1000
      + Bits(s, i + 2, 0x80) * 0x40 + Bits(s, i + 3, 0x80)
  }

  /** The payload bits of byte `i` once its marker bits are taken off. */
  function Bits(s: Text, i: nat, marker: int): nat
    requires i < |s| && marker <= s[i]
  {
    s[i] as int - marker
  }

  /** In valid text the one-byte boundary test is exact: it holds precisely where a suffix is itself valid. */
  lemma BoundaryIffValidSuffix(s: Text, i: nat)
    requires Valid(s) && i <= |s|
    ensures IsBoundary(s, i) <==> ValidFrom(s, i)
  {
    if IsBoundary(s, i) {
      ReachBoundary(s, 0, i);
    }
  }

  lemma {:induction false} ReachBoundary(s: Text, from: nat, i: nat)
    requires ValidFrom(s, from) && from <= i <= |s| && (i == from || i == |s| || !IsContinuation(s[i]))
    ensures ValidFrom(s, i)
    decreases i - from
  {
    if from < i {
      ReachBoundary(s, from + LeadLength(s[from]), i);
    }
  }

  /** Every ASCII byte of valid text stands on a boundary. */
  lemma AsciiIsBoundary(s: Text, i: nat)
    requires Valid(s) && i < |s| && s[i] < 0x80
    ensures ValidFrom(s, i) && ValidFrom(s, i + 1)
  {
    ReachBoundary(s, 0, i);
  }
}
