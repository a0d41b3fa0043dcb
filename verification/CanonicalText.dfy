/** The text that is hashed, byte by byte: the array of NIP-01 "Events and signatures" in the grammar of RFC 8259, with
    every delimiter, digit and escape spelled out. */
module CanonicalText {
  import opened Bytes

  /** "0123456789abcdef" */
  const DIGITS: Text := [48, 49, 50, 51, 52, 53, 54, 55, 56, 57, 97, 98, 99, 100, 101, 102]

  /** Two digits per byte, high half first. */
  predicate IsHex(t: Text, bytes: Text) {
    && |t| == 2 * |bytes|
    && forall i :: 0 <= i < |bytes| ==> t[2 * i] == DIGITS[bytes[i] / 16] && t[2 * i + 1] == DIGITS[bytes[i] % 16]
  }

  /** The number a digit string stands for. */
  function ValueOf(t: Text): int { if t == [] then 0 else 10 * ValueOf(t[..|t| - 1]) + (t[|t| - 1] as int - 48) }

  /** Digits only, no leading zero, and the right value. */
  predicate IsDecimal(t: Text, n: nat) {
    && t != [] && (forall i :: 0 <= i < |t| ==> 48 <= t[i] <= 57)
    && (|t| > 1 ==> t[0] != 48) && ValueOf(t) == n
  }

  /** How one byte of a string is written: quote and backslash behind a backslash, the five control characters that have
      a letter, the other ones in four digits, everything else as it is. */
  predicate IsChar(t: Text, b: byte) {
    if b == 34 then t == [92, 34]
    else if b == 92 then t == [92, 92]
    else if b == 8 then t == [92, 98]
    else if b == 9 then t == [92, 116]
    else if b == 10 then t == [92, 110]
    else if b == 12 then t == [92, 102]
    else if b == 13 then t == [92, 114]
    else if b < 32 then t == [92, 117, 48, 48, DIGITS[b / 16], DIGITS[b % 16]]
    else t == [b]
  }

  /** The bytes of `s`, written one after the other. */
  ghost predicate IsBody(t: Text, s: Text)
    decreases |s|
  {
    if s == [] then t == [] else exists head, tail :: t == head + tail && IsChar(head, s[0]) && IsBody(tail, s[1..])
  }

  /** Between quotes. */
  ghost predicate IsString(t: Text, s: Text) { exists body :: IsBody(body, s) && t == [34] + body + [34] }

  /** Elements between brackets, with commas between them. */
  function Bracketed(parts: seq<Text>): Text { [91] + Commas(parts) + [93] }

  function Commas(parts: seq<Text>): Text {
    if parts == [] then [] else if |parts| == 1 then parts[0] else parts[0] + [44] + Commas(parts[1..])
  }

  ghost predicate IsStrings(t: Text, ss: seq<Text>) {
    exists parts: seq<Text> ::
      |parts| == |ss| && (forall i :: 0 <= i < |ss| ==> IsString(parts[i], ss[i])) && t == Bracketed(parts)
  }

  ghost predicate IsTags(t: Text, tags: seq<seq<Text>>) {
    exists parts: seq<Text> ::
      |parts| == |tags| && (forall i :: 0 <= i < |tags| ==> IsStrings(parts[i], tags[i])) && t == Bracketed(parts)
  }

  /** `[0,"<pubkey>",<created_at>,<kind>,<tags>,<content>]`, without blanks. */
  function Layout(hex: Text, time: Text, kind: Text, tags: Text, content: Text): Text {
    [91, 48, 44, 34] + hex + [34, 44] + time + [44] + kind + [44] + tags + [44] + content + [93]
  }

  ghost predicate IsCanonicalText(
    t: Text, pubkey: Text, createdAt: nat, kind: nat, tags: seq<seq<Text>>, content: Text)
  {
    exists hex, time, number, list, text ::
      && IsHex(hex, pubkey) && IsDecimal(time, createdAt) && IsDecimal(number, kind)
      && IsTags(list, tags) && IsString(text, content) && t == Layout(hex, time, number, list, text)
  }
}
