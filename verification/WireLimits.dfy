/** The limits the decoders enforce, in numbers and characters: hex fields, filters and subscription ids. */
module WireLimits {
  import opened Bytes
  import opened Filters
  import opened Json
  import opened Wire
  import opened CharTables
  import Hex
  import FilterCodec
  import Messages
  import WireNames

  // ----- hex -----

  const LOWER := Ascii("0123456789abcdef")
  const UPPER := Ascii("0123456789ABCDEF")

  /** `b` is the hex digit of value `v`, in either case. */
  predicate IsDigitOf(b: byte, v: nat) { v < 16 && (b == LOWER[v] || b == UPPER[v]) }

  lemma DigitsSpelled()
    ensures LOWER == [48, 49, 50, 51, 52, 53, 54, 55, 56, 57, 97, 98, 99, 100, 101, 102]
    ensures UPPER == [48, 49, 50, 51, 52, 53, 54, 55, 56, 57, 65, 66, 67, 68, 69, 70]
  {
  }

  lemma DigitIff(b: byte, v: nat)
    ensures Hex.DigitValue(b) == Some(v) <==> IsDigitOf(b, v)
  {
    DigitsSpelled();
    if v < 16 {
      assert LOWER[v] == if v < 10 then 48 + v else 87 + v;
      assert UPPER[v] == if v < 10 then 48 + v else 55 + v;
    }
  }

  /** The `i`-th pair of digits of `s` stands for `b`, the high half first. */
  predicate PairFor(s: Text, i: nat, b: byte) {
    2 * i + 1 < |s| && IsDigitOf(s[2 * i], b / 16) && IsDigitOf(s[2 * i + 1], b % 16)
  }

  /** `s` spells `bytes`, two digits each. */
  predicate Spells(s: Text, bytes: Text) {
    |s| == 2 * |bytes| && forall i :: 0 <= i < |bytes| ==> PairFor(s, i, bytes[i])
  }

  lemma PairShift(s: Text, i: nat, b: byte)
    requires |s| >= 2
    ensures PairFor(s[2..], i, b) <==> PairFor(s, i + 1, b)
  {
    if 2 * i + 1 < |s[2..]| {
      assert s[2..][2 * i] == s[2 * (i + 1)] && s[2..][2 * i + 1] == s[2 * (i + 1) + 1];
    }
  }

  lemma SpellsCons(s: Text, bytes: Text)
    requires bytes != [] && |s| >= 2
    ensures Spells(s, bytes) <==> PairFor(s, 0, bytes[0]) && Spells(s[2..], bytes[1..])
  {
    forall i: nat | i < |bytes| - 1
      ensures PairFor(s[2..], i, bytes[1..][i]) <==> PairFor(s, i + 1, bytes[i + 1])
    {
      PairShift(s, i, bytes[i + 1]);
    }
    if PairFor(s, 0, bytes[0]) && Spells(s[2..], bytes[1..]) {
      forall i: nat | i < |bytes|
        ensures PairFor(s, i, bytes[i])
      {
        if i > 0 {
          assert PairFor(s[2..], i - 1, bytes[1..][i - 1]);
        }
      }
    }
    if Spells(s, bytes) {
      forall i: nat | i < |bytes[1..]|
        ensures PairFor(s[2..], i, bytes[1..][i])
      {
        assert PairFor(s, i + 1, bytes[i + 1]);
      }
    }
  }

  /** The hex decoder reads exactly the spellings in digits of either case. */
  lemma {:induction false} HexDecodeIff(s: Text, bytes: Text)
    ensures Hex.Decode(s) == Some(bytes) <==> Spells(s, bytes)
    decreases |s|
  {
    if |s| >= 2 && bytes != [] {
      SpellsCons(s, bytes);
      HexDecodeIff(s[2..], bytes[1..]);
      DigitIff(s[0], bytes[0] / 16);
      DigitIff(s[1], bytes[0] % 16);
      DecodeCons(s, bytes);
    } else if |s| >= 2 {
      assert Hex.Decode(s) != Some([]);
    }
  }

  lemma DecodeCons(s: Text, bytes: Text)
    requires |s| >= 2 && bytes != []
    ensures Hex.Decode(s) == Some(bytes)
            <==> && Hex.DigitValue(s[0]) == Some(bytes[0] / 16) && Hex.DigitValue(s[1]) == Some(bytes[0] % 16)
                 && Hex.Decode(s[2..]) == Some(bytes[1..])
  {
    assert bytes == [bytes[0]] + bytes[1..];
    match (Hex.DigitValue(s[0]), Hex.DigitValue(s[1]), Hex.Decode(s[2..]))
    case (Some(hi), Some(lo), Some(rest)) =>
      assert hi < 16 && lo < 16;
      assert ([16 * hi + lo] + rest)[1..] == rest;
    case _ =>
  }

  /** An id or key field is a string of 64 hex digits. */
  lemma BytesFieldIff(size: nat, ok: Text -> bool, j: Json, b: Text)
    ensures DecodeBytes(size, ok, j) == Some(b) <==> j.JStr? && Spells(j.s, b) && |b| == size && ok(b)
  {
    if j.JStr? {
      HexDecodeIff(j.s, b);
      match Hex.Decode(j.s)
      case Some(c) => HexDecodeIff(j.s, c);
      case None =>
    }
  }

  // ----- filters -----

  predicate IsLetter(b: byte) { 65 <= b <= 90 || 97 <= b <= 122 }

  /** What a tag constraint may hold: distinct values, which for `#e` and `#p` are 64 lowercase hex digits each. */
  predicate ConstraintInRange(c: TagConstraint) {
    && IsLetter(c.letter)
    && (forall i, j :: 0 <= i < j < |c.values| ==> c.values[i] != c.values[j])
    && ([c.letter] == Ascii("e") || [c.letter] == Ascii("p") ==>
          forall i :: 0 <= i < |c.values| ==>
            |c.values[i]| == 64 && forall k :: 0 <= k < 64 ==> c.values[i][k] in LOWER)
  }

  lemma ConstraintIff(c: TagConstraint)
    ensures ConstraintInRange(c)
            <==> IsAlphabetic(c.letter) && Distinct(c.values) && FilterCodec.ValidValues(c.letter, c.values)
  {
    DigitsSpelled();
    assert Ascii("e") == [101] && Ascii("p") == [112];
    forall b: byte
      ensures b in LOWER <==> Hex.IsLowerHex(b)
    {
      if Hex.IsLowerHex(b) {
        assert b == LOWER[if b < 60 then b - 48 else b - 87];
      }
    }
  }

  /** Each constraint is in range and no two share a letter. */
  predicate ConstraintsInRange(tags: seq<TagConstraint>) {
    && (forall k :: 0 <= k < |tags| ==> ConstraintInRange(tags[k]))
    && (forall j, k :: 0 <= j < k < |tags| ==> tags[j].letter != tags[k].letter)
  }

  lemma ConstraintsIff(tags: seq<TagConstraint>)
    ensures ConstraintsInRange(tags) <==> FilterCodec.WellFormedTags(tags)
  {
    forall k | 0 <= k < |tags|
      ensures ConstraintInRange(tags[k])
              <==> && IsAlphabetic(tags[k].letter) && Distinct(tags[k].values)
                   && FilterCodec.ValidValues(tags[k].letter, tags[k].values)
    {
      ConstraintIff(tags[k]);
    }
  }

  /** A filter survives the wire if and only if its ids and authors have 32 bytes (authors on the curve), its kinds 16
      bits, its times and limit 64 bits, and its tag constraints distinct letters with values in range. */
  lemma FilterRanges(curve: Curve, f: Filter)
    ensures FilterCodec.DecodeFilter(curve, FilterCodec.EncodeFilter(f)) == Some(f)
            <==> && (f.ids.Some? ==> forall k :: 0 <= k < |f.ids.value| ==> |f.ids.value[k]| == 32)
                 && (f.authors.Some? ==>
                       forall k :: 0 <= k < |f.authors.value| ==>
                         |f.authors.value[k]| == 32 && curve(f.authors.value[k]))
                 && (f.kinds.Some? ==> forall k :: 0 <= k < |f.kinds.value| ==> f.kinds.value[k] <= 65_535)
                 && (f.since.Some? ==> f.since.value <= 18_446_744_073_709_551_615)
                 && (f.until.Some? ==> f.until.value <= 18_446_744_073_709_551_615)
                 && (f.limit.Some? ==> f.limit.value <= 18_446_744_073_709_551_615)
                 && ConstraintsInRange(f.tags)
  {
    FilterCodec.FilterRoundTripIff(curve, f);
    ConstraintsIff(f.tags);
  }

  // ----- entries -----

  /** A key that is not one of the seven names is skipped, unless it starts with `#`: then it must name one letter. */
  lemma OtherEntries(curve: Curve, f: Filter, field: Field)
    ensures && field.key !in [Ascii("ids"), Ascii("authors"), Ascii("kinds"), Ascii("since"), Ascii("until")]
            && field.key !in [Ascii("limit"), Ascii("search")] && (field.key != [] ==> field.key[0] != 35) ==>
              FilterCodec.Entry(curve, f, field) == Some(f)
    ensures field.key != [] && field.key[0] == 35 && !(|field.key| == 2 && IsLetter(field.key[1])) ==>
              FilterCodec.Entry(curve, f, field) == None
  {
    WireNames.FilterNames();
  }

  /** `r` holds the first occurrence of each of `values`, found at the positions `at`. */
  ghost predicate FirstOccurrences(values: seq<Text>, at: seq<nat>, r: seq<Text>) {
    Picks(values, at, r) && forall k: nat :: k < |values| ==> (k in at <==> values[k] !in values[..k])
  }

  lemma FirstOccurrencesNext(values: seq<Text>, at: seq<nat>, r: seq<Text>, v: Text)
    requires FirstOccurrences(values, at, r)
    ensures FirstOccurrences(values + [v], if v in values then at else at + [|values|],
                             if v in values then r else r + [v])
  {
    PicksStep(values, at, r, v);
    var longer := values + [v];
    forall k: nat | k < |longer|
      ensures k in (if v in values then at else at + [|values|]) <==> longer[k] !in longer[..k]
    {
      assert longer[..k] == if k < |values| then values[..k] else values;
    }
  }

  /** `r` holds the first occurrence of each of `values`, in order. */
  ghost predicate IsDeduped(values: seq<Text>, r: seq<Text>) {
    exists at: seq<nat> :: FirstOccurrences(values, at, r)
  }

  lemma IsDedupedNext(values: seq<Text>, r: seq<Text>, v: Text)
    requires IsDeduped(values, r)
    ensures IsDeduped(values + [v], if v in values then r else r + [v])
  {
    var at: seq<nat> :| FirstOccurrences(values, at, r);
    FirstOccurrencesNext(values, at, r, v);
  }

  /** A tag list with repeated values is read as the first occurrences, in order. */
  lemma {:induction false} DedupedAre(values: seq<Text>)
    ensures IsDeduped(values, FilterCodec.Deduped(values))
    decreases |values|
  {
    if values == [] {
      assert FirstOccurrences(values, [], []);
    } else {
      var front, v := values[..|values| - 1], values[|values| - 1];
      DedupedAre(front);
      IsDedupedNext(front, FilterCodec.Deduped(front), v);
      FilterCodec.DedupedFacts(front);
      assert front + [v] == values;
    }
  }

  // ----- subscription ids -----

  /** The UTF-8 text of a sequence of characters. */
  function Utf8Text(chars: seq<int>): Text
    requires forall k :: 0 <= k < |chars| ==> IsScalar(chars[k])
  {
    if chars == [] then [] else Encoded(chars[0]) + Utf8Text(chars[1..])
  }

  lemma {:induction false} CountAppend(s: Text, t: Text)
    ensures Messages.CharCount(s + t) == Messages.CharCount(s) + Messages.CharCount(t)
  {
    if s == [] {
      assert s + t == t;
    } else {
      CountAppend(s[1..], t);
      assert (s + t)[1..] == s[1..] + t;
    }
  }

  lemma EncodedCounts(cp: int)
    requires IsScalar(cp)
    ensures Encoded(cp) != [] && Messages.CharCount(Encoded(cp)) == 1
  {
    var e := Encoded(cp);
    TailCounts(e[1..]);
  }

  lemma {:induction false} TailCounts(s: Text)
    requires forall k :: 0 <= k < |s| ==> 0x80 <= s[k] < 0xC0
    ensures Messages.CharCount(s) == 0
  {
    if s != [] {
      TailCounts(s[1..]);
    }
  }

  lemma {:induction false} TextCounts(chars: seq<int>)
    requires forall k :: 0 <= k < |chars| ==> IsScalar(chars[k])
    ensures Messages.CharCount(Utf8Text(chars)) == |chars| && (Utf8Text(chars) == [] <==> chars == [])
  {
    if chars != [] {
      TextCounts(chars[1..]);
      EncodedCounts(chars[0]);
      CountAppend(Encoded(chars[0]), Utf8Text(chars[1..]));
    }
  }

  /** A subscription id is 1 to 64 characters, however many bytes they take. */
  lemma SubscriptionIff(chars: seq<int>)
    requires forall k :: 0 <= k < |chars| ==> IsScalar(chars[k])
    ensures Messages.ValidSubscription(Utf8Text(chars)) <==> 1 <= |chars| <= 64
  {
    TextCounts(chars);
  }
}
