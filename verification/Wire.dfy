/** How the elementary values of the protocol travel as JSON. */
module Wire {
  import opened Bytes
  import opened Json
  import Hex

  const U16_LIMIT: nat := 0x1_0000
  const U64_LIMIT: nat := 0x1_0000_0000_0000_0000

  /** Which 32-byte strings are x-coordinates of curve points. */
  type Curve = Text -> bool

  predicate AnyBytes(b: Text) { true }

  function DecodeText(j: Json): Option<Text> { if j.JStr? then Some(j.s) else None }

  /** An unsigned integer below `limit`. */
  function DecodeNum(limit: nat, j: Json): Option<nat> { if j.JNum? && j.n < limit then Some(j.n) else None }

  function EncodeBytes(b: Text): Json { JStr(Hex.Encode(b)) }

  /** A hex string of `size` bytes that satisfies `ok`. */
  function DecodeBytes(size: nat, ok: Text -> bool, j: Json): Option<Text> {
    if j.JStr? then
      match Hex.Decode(j.s) case None => None case Some(b) => if |b| == size && ok(b) then Some(b) else None
    else None
  }

  function DecodeId(j: Json): Option<Text> { DecodeBytes(32, AnyBytes, j) }

  function DecodeKey(curve: Curve, j: Json): Option<Text> { DecodeBytes(32, curve, j) }

  lemma BytesRoundTrip(size: nat, ok: Text -> bool, b: Text)
    ensures DecodeBytes(size, ok, EncodeBytes(b)) == if |b| == size && ok(b) then Some(b) else None
  {
    Hex.DecodeEncode(b);
  }

  // ----- sequences -----

  function EncodeAll<T>(e: T -> Json, xs: seq<T>): seq<Json> {
    if xs == [] then [] else [e(xs[0])] + EncodeAll(e, xs[1..])
  }

  function DecodeAll<T>(d: Json -> Option<T>, items: seq<Json>): Option<seq<T>> {
    if items == [] then Some([])
    else
      match (d(items[0]), DecodeAll(d, items[1..]))
      case (Some(x), Some(xs)) => Some([x] + xs)
      case _ => None
  }

  /** `Vec<T>`: an array whose elements all decode. */
  function DecodeList<T>(d: Json -> Option<T>, j: Json): Option<seq<T>> {
    if j.JArr? then DecodeAll(d, j.items) else None
  }

  /** Every element comes out of the decoder. */
  ghost predicate Produced<T>(d: Json -> Option<T>, xs: seq<T>) {
    forall k :: 0 <= k < |xs| ==> exists j :: d(j) == Some(xs[k])
  }

  lemma {:induction false} DecodeAllProduces<T>(d: Json -> Option<T>, items: seq<Json>)
    requires DecodeAll(d, items).Some?
    ensures Produced(d, DecodeAll(d, items).value)
  {
    if items != [] {
      DecodeAllProduces(d, items[1..]);
      assert d(items[0]) == Some(DecodeAll(d, items).value[0]);
    }
  }

  lemma {:induction false} AllRoundTrip<T>(d: Json -> Option<T>, e: T -> Json, xs: seq<T>)
    requires forall k :: 0 <= k < |xs| ==> d(e(xs[k])) == Some(xs[k])
    ensures DecodeAll(d, EncodeAll(e, xs)) == Some(xs)
  {
    if xs != [] {
      AllRoundTrip(d, e, xs[1..]);
      assert d(e(xs[0])) == Some(xs[0]);
      assert xs == [xs[0]] + xs[1..];
    }
  }

  // ----- lists of one kind -----

  function EncodeTexts(xs: seq<Text>): Json { JArr(EncodeAll(s => JStr(s), xs)) }

  function DecodeTexts(j: Json): Option<seq<Text>> { DecodeList(DecodeText, j) }

  lemma TextsRoundTrip(xs: seq<Text>)
    ensures DecodeTexts(EncodeTexts(xs)) == Some(xs)
  {
    AllRoundTrip(DecodeText, s => JStr(s), xs);
  }

  function EncodeNums(xs: seq<nat>): Json { JArr(EncodeAll(n => JNum(n), xs)) }

  function DecodeKinds(j: Json): Option<seq<nat>> { DecodeList(k => DecodeNum(U16_LIMIT, k), j) }

  predicate AllBelow(limit: nat, xs: seq<nat>) { forall k :: 0 <= k < |xs| ==> xs[k] < limit }

  lemma KindsRoundTrip(xs: seq<nat>)
    requires AllBelow(U16_LIMIT, xs)
    ensures DecodeKinds(EncodeNums(xs)) == Some(xs)
  {
    AllRoundTrip(k => DecodeNum(U16_LIMIT, k), n => JNum(n), xs);
  }

  lemma KindsProduced(j: Json)
    requires DecodeKinds(j).Some?
    ensures AllBelow(U16_LIMIT, DecodeKinds(j).value)
  {
    DecodeAllProduces(k => DecodeNum(U16_LIMIT, k), j.items);
  }

  function EncodeBlobs(xs: seq<Text>): Json { JArr(EncodeAll(EncodeBytes, xs)) }

  function DecodeBlobs(ok: Text -> bool, j: Json): Option<seq<Text>> { DecodeList(b => DecodeBytes(32, ok, b), j) }

  predicate AllBlobs(ok: Text -> bool, xs: seq<Text>) { forall k :: 0 <= k < |xs| ==> |xs[k]| == 32 && ok(xs[k]) }

  lemma BlobsRoundTrip(ok: Text -> bool, xs: seq<Text>)
    requires AllBlobs(ok, xs)
    ensures DecodeBlobs(ok, EncodeBlobs(xs)) == Some(xs)
  {
    forall k | 0 <= k < |xs|
      ensures DecodeBytes(32, ok, EncodeBytes(xs[k])) == Some(xs[k])
    {
      BytesRoundTrip(32, ok, xs[k]);
    }
    AllRoundTrip(b => DecodeBytes(32, ok, b), EncodeBytes, xs);
  }

  lemma BlobsProduced(ok: Text -> bool, j: Json)
    requires DecodeBlobs(ok, j).Some?
    ensures AllBlobs(ok, DecodeBlobs(ok, j).value)
  {
    DecodeAllProduces(b => DecodeBytes(32, ok, b), j.items);
  }

  // ----- from values to text -----

  /** `serde_json::from_str` accepts exactly a text that holds one value. */
  function ReadText(s: Text): Option<Json> {
    match Parse(s) case Fail => None case Done(j, rest) => if rest == [] then Some(j) else None
  }

  lemma TextRoundTrip(j: Json)
    ensures ReadText(Print(j)) == Some(j)
  {
    assert Print(j) + [] == Print(j);
    ParsePrint(j, []);
  }
}
