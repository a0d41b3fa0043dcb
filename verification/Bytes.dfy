/** Bytes, byte strings and the small scanning vocabulary shared by the text models. */
module Bytes {
  type byte = b: int | 0 <= b < 256

  /** A Rust `str`, `String` or `[u8]`, as its bytes. */
  type Text = seq<byte>

  datatype Option<+T> = None | Some(value: T)

  const NEWLINE: byte := 0x0A
  const HASH: byte := 0x23

  /** The members of a sequence. */
  function Elems<T>(s: seq<T>): set<T> { set x | x in s }

  /** No member occurs twice. */
  predicate Distinct<T(==)>(s: seq<T>) { forall i, j :: 0 <= i < j < |s| ==> s[i] != s[j] }

  /** The bytes of an ASCII string. */
  function Ascii(s: string): (r: Text)
    ensures |r| == |s| && forall i :: 0 <= i < |s| && s[i] as int < 128 ==> r[i] == s[i] as int
  {
    seq(|s|, i requires 0 <= i < |s| => if s[i] as int < 128 then s[i] as int else 0)
  }

  predicate IsDigit(b: byte) { 0x30 <= b <= 0x39 }

  predicate IsLower(b: byte) { 0x61 <= b <= 0x7A }

  predicate IsUpper(b: byte) { 0x41 <= b <= 0x5A }

  predicate IsAlphabetic(b: byte) { IsLower(b) || IsUpper(b) }

  predicate IsAlphanumeric(b: byte) { IsAlphabetic(b) || IsDigit(b) }

  /** `u8::is_ascii_whitespace`: space, tab, line feed, form feed, carriage return. */
  predicate IsWhitespace(b: byte) { b == 0x20 || b == 0x09 || b == 0x0A || b == 0x0C || b == 0x0D }

  /** The end of the longest run of bytes satisfying `p` that starts at `i`. */
  function SkipWhile(p: byte -> bool, s: Text, i: nat): (e: nat)
    requires i <= |s|
    ensures i <= e <= |s|
    ensures forall k :: i <= k < e ==> p(s[k])
    ensures e < |s| ==> !p(s[e])
    decreases |s| - i
  {
    if i < |s| && p(s[i]) then SkipWhile(p, s, i + 1) else i
  }

  /** The run end is the only position with those two properties. */
  lemma {:induction false} SkipWhileIs(p: byte -> bool, s: Text, i: nat, e: nat)
    requires i <= e <= |s| && (forall k :: i <= k < e ==> p(s[k])) && (e < |s| ==> !p(s[e]))
    ensures SkipWhile(p, s, i) == e
    decreases e - i
  {
    if i < e {
      SkipWhileIs(p, s, i + 1, e);
    }
  }

  /** Occurrences of `b` in `s`. */
  function Count(b: byte, s: Text): nat {
    if s == [] then 0 else (if s[0] == b then 1 else 0) + Count(b, s[1..])
  }

  lemma {:induction false} CountConcat(b: byte, s: Text, t: Text)
    ensures Count(b, s + t) == Count(b, s) + Count(b, t)
  {
    if s == [] {
      assert s + t == t;
    } else {
      assert (s + t)[1..] == s[1..] + t;
      CountConcat(b, s[1..], t);
    }
  }

  lemma {:induction false} CountAbsent(b: byte, s: Text)
    requires b !in s
    ensures Count(b, s) == 0
  {
    if s != [] {
      CountAbsent(b, s[1..]);
    }
  }

  // ----- subsequences -----

  /** Positions below `n`, in order. */
  ghost predicate Rising(at: seq<nat>, n: nat) {
    (forall i, j :: 0 <= i < j < |at| ==> at[i] < at[j]) && forall i :: 0 <= i < |at| ==> at[i] < n
  }

  lemma RisingStep(at: seq<nat>, n: nat)
    requires Rising(at, n)
    ensures Rising(at, n + 1) && Rising(at + [n], n + 1)
  {
  }

  /** `r` holds the elements of `s` at the positions `at`. */
  ghost predicate Picks<T>(s: seq<T>, at: seq<nat>, r: seq<T>) {
    Rising(at, |s|) && |at| == |r| && forall i :: 0 <= i < |at| ==> r[i] == s[at[i]]
  }

  lemma PicksStep<T>(s: seq<T>, at: seq<nat>, r: seq<T>, x: T)
    requires Picks(s, at, r)
    ensures Picks(s + [x], at, r) && Picks(s + [x], at + [|s|], r + [x])
  {
    RisingStep(at, |s|);
  }
}
