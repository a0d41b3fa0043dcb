/** Lowercase hex, as ids and keys are written; the decoder also takes uppercase digits. */
module Hex {
  import opened Bytes
  import Json

  function Encode(bs: Text): (r: Text)
    ensures |r| == 2 * |bs|
  {
    if bs == [] then [] else [Json.HexDigit(bs[0] / 16), Json.HexDigit(bs[0] % 16)] + Encode(bs[1..])
  }

  function DigitValue(b: byte): Option<nat> {
    if 0x41 <= b <= 0x46 then Some(b - 0x37) else Json.HexValue(b)
  }

  function Decode(s: Text): Option<Text> {
    if s == [] then Some([])
    else if |s| == 1 then None
    else
      match (DigitValue(s[0]), DigitValue(s[1]), Decode(s[2..]))
      case (Some(hi), Some(lo), Some(rest)) => Some([16 * hi + lo] + rest)
      case _ => None
  }

  lemma {:induction false} DecodeEncode(bs: Text)
    ensures Decode(Encode(bs)) == Some(bs)
  {
    if bs != [] {
      DecodeEncode(bs[1..]);
      assert Encode(bs)[2..] == Encode(bs[1..]);
      assert bs == [bs[0]] + bs[1..];
    }
  }

  /** A lowercase hex digit. */
  predicate IsLowerHex(b: byte) { IsDigit(b) || 0x61 <= b <= 0x66 }

  lemma {:induction false} EncodeDigits(bs: Text)
    ensures forall k :: 0 <= k < |Encode(bs)| ==> IsLowerHex(Encode(bs)[k])
  {
    if bs != [] {
      EncodeDigits(bs[1..]);
    }
  }
}
