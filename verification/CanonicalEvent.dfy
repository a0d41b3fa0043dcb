/** The byte string an event id is the hash of (NIP-01, "Events and signatures"). */
module CanonicalEvent {
  import opened Bytes
  import opened Json
  import Hex
  import CanonicalText

  /** The hashed fields: a 32-byte key, two integers, a list of string lists and a string. */
  datatype Unsigned = Unsigned(pubkey: Text, createdAt: nat, kind: nat, tags: seq<seq<Text>>, content: Text)

  function StrItems(ss: seq<Text>): (r: seq<Json>)
    ensures |r| == |ss| && forall i :: 0 <= i < |ss| ==> r[i] == JStr(ss[i])
  {
    seq(|ss|, i requires 0 <= i < |ss| => JStr(ss[i]))
  }

  function TagItems(tags: seq<seq<Text>>): (r: seq<Json>)
    ensures |r| == |tags| && forall i :: 0 <= i < |tags| ==> r[i] == JArr(StrItems(tags[i]))
  {
    seq(|tags|, i requires 0 <= i < |tags| => JArr(StrItems(tags[i])))
  }

  /** The array `[0, pubkey, created_at, kind, tags, content]`. */
  function CanonicalJson(e: Unsigned): Json {
    JArr([JNum(0), JStr(Hex.Encode(e.pubkey)), JNum(e.createdAt), JNum(e.kind), JArr(TagItems(e.tags)),
          JStr(e.content)])
  }

  // ----- the serialiser -----

  lemma EscapeNext(out: Text, s: Text, i: nat)
    requires i < |s|
    ensures out + EscapeByte(s[i]) + Escape(s[i + 1..]) == out + Escape(s[i..])
  {
    assert s[i..][1..] == s[i + 1..];
    Regroup3(out, EscapeByte(s[i]), Escape(s[i + 1..]));
  }

  lemma Regroup3(a: Text, b: Text, c: Text)
    ensures a + b + c == a + (b + c)
  {
  }

  method WriteStr(buf: Text, s: Text) returns (out: Text)
    ensures out == buf + PrintStr(s)
  {
    out := buf + [QUOTE];
    for i := 0 to |s|
      invariant out + Escape(s[i..]) == buf + [QUOTE] + Escape(s)
    {
      EscapeNext(out, s, i);
      out := out + EscapeByte(s[i]);
    }
    assert s[|s|..] == [] && out + [] == out;
    out := out + [QUOTE];
  }

  /** An array under construction: the bracket and the elements so far. */
  function Open(xs: seq<Json>): Text { [LBRACKET] + PrintItems(xs) }

  function Separator(xs: seq<Json>): Text { if xs == [] then [] else [COMMA] }

  /** Appending an element to an open array behind its separator. */
  lemma OpenSnoc(buf: Text, xs: seq<Json>, x: Json)
    ensures buf + Open(xs) + Separator(xs) + Print(x) == buf + Open(xs + [x])
  {
    PrintItemsSnoc(xs, x);
    Regroup4(buf, [LBRACKET], PrintItems(xs), Separator(xs), Print(x));
  }

  lemma Regroup4(buf: Text, open: Text, items: Text, sep: Text, item: Text)
    ensures buf + (open + items) + sep + item == buf + (open + (items + sep + item))
  {
  }

  lemma OpenNext(xs: seq<Json>, x: Json, ys: seq<Json>)
    requires xs != [] && ys == xs + [x]
    ensures Open(xs) + [COMMA] + Print(x) == Open(ys)
  {
    PrintItemsSnoc(xs, x);
  }

  lemma {:induction false} PrintItemsSnoc(xs: seq<Json>, x: Json)
    ensures PrintItems(xs + [x]) == PrintItems(xs) + Separator(xs) + Print(x)
  {
    if xs == [] {
      assert xs + [x] == [x];
    } else {
      assert (xs + [x])[1..] == xs[1..] + [x];
      PrintItemsSnoc(xs[1..], x);
    }
  }

  method WriteStrings(buf: Text, ss: seq<Text>) returns (out: Text)
    ensures out == buf + Print(JArr(StrItems(ss)))
  {
    out := buf + [LBRACKET];
    ghost var xs: seq<Json> := [];
    for i := 0 to |ss|
      invariant xs == StrItems(ss)[..i]
      invariant out == buf + Open(xs)
    {
      if i > 0 {
        out := out + [COMMA];
      }
      out := WriteStr(out, ss[i]);
      OpenSnoc(buf, xs, JStr(ss[i]));
      xs := xs + [JStr(ss[i])];
    }
    assert xs == StrItems(ss);
    out := out + [RBRACKET];
  }

  method WriteTags(buf: Text, tags: seq<seq<Text>>) returns (out: Text)
    ensures out == buf + Print(JArr(TagItems(tags)))
  {
    out := buf + [LBRACKET];
    ghost var xs: seq<Json> := [];
    for i := 0 to |tags|
      invariant xs == TagItems(tags)[..i]
      invariant out == buf + Open(xs)
    {
      if i > 0 {
        out := out + [COMMA];
      }
      out := WriteStrings(out, tags[i]);
      OpenSnoc(buf, xs, JArr(StrItems(tags[i])));
      xs := xs + [JArr(StrItems(tags[i]))];
    }
    assert xs == TagItems(tags);
    out := out + [RBRACKET];
  }

  /** The first four elements: the leading zero, the hex key and the two integers. */
  method WriteHead(e: Unsigned) returns (buf: Text)
    ensures buf == Open(CanonicalJson(e).items[..4])
  {
    var key, time, kind := JStr(Hex.Encode(e.pubkey)), JNum(e.createdAt), JNum(e.kind);
    buf := [LBRACKET] + Decimal(0);
    assert buf == Open([JNum(0)]);
    buf := WriteStr(buf + [COMMA], Hex.Encode(e.pubkey));
    OpenNext([JNum(0)], key, [JNum(0), key]);
    assert buf == Open([JNum(0), key]);
    buf := buf + [COMMA] + Decimal(e.createdAt);
    OpenNext([JNum(0), key], time, [JNum(0), key, time]);
    assert buf == Open([JNum(0), key, time]);
    buf := buf + [COMMA] + Decimal(e.kind);
    OpenNext([JNum(0), key, time], kind, [JNum(0), key, time, kind]);
    assert CanonicalJson(e).items[..4] == [JNum(0), key, time, kind];
  }

  /** The six elements are written one after the other into a buffer. */
  method WriteEvent(e: Unsigned) returns (buf: Text)
    ensures buf == Print(CanonicalJson(e))
  {
    ghost var items := CanonicalJson(e).items;
    buf := WriteHead(e);
    buf := WriteTags(buf + [COMMA], e.tags);
    OpenNext(items[..4], items[4], items[..5]);
    buf := WriteStr(buf + [COMMA], e.content);
    OpenNext(items[..5], items[5], items);
    buf := buf + [RBRACKET];
  }

  /** `canonical_bytes`: what is written is the canonical text, and can be read back. */
  method CanonicalBytes(e: Unsigned) returns (buf: Text)
    ensures buf == Print(CanonicalJson(e))
    ensures CanonicalText.IsCanonicalText(buf, e.pubkey, e.createdAt, e.kind, e.tags, e.content)
    ensures ReadCanonical(buf) == Some(e)
  {
    buf := WriteEvent(e);
    ReadBack(e);
    WrittenText(e);
  }

  // ----- the bytes -----

  lemma {:induction false} HexText(bytes: Text)
    ensures CanonicalText.IsHex(Hex.Encode(bytes), bytes)
  {
    if bytes != [] {
      HexText(bytes[1..]);
      var t, rest := Hex.Encode(bytes), Hex.Encode(bytes[1..]);
      forall i | 0 <= i < |bytes|
        ensures t[2 * i] == CanonicalText.DIGITS[bytes[i] / 16] && t[2 * i + 1] == CanonicalText.DIGITS[bytes[i] % 16]
      {
        if i > 0 {
          assert t[2 * i] == rest[2 * (i - 1)] && t[2 * i + 1] == rest[2 * (i - 1) + 1];
          assert bytes[1..][i - 1] == bytes[i];
        }
      }
    }
  }

  lemma {:induction false} DecimalText(n: nat)
    ensures CanonicalText.IsDecimal(Decimal(n), n) && (n > 0 ==> Decimal(n)[0] != 48)
  {
    var t := Decimal(n);
    if n < 10 {
      assert t[..0] == [] && CanonicalText.ValueOf([]) == 0;
    } else {
      DecimalText(n / 10);
      assert t[..|t| - 1] == Decimal(n / 10);
      assert t[0] == Decimal(n / 10)[0];
    }
  }

  lemma EscapeText(b: byte)
    ensures CanonicalText.IsChar(EscapeByte(b), b)
  {
  }

  lemma {:induction false} BodyText(s: Text)
    ensures CanonicalText.IsBody(Escape(s), s)
  {
    if s != [] {
      EscapeText(s[0]);
      BodyText(s[1..]);
    }
  }

  lemma StringText(s: Text)
    ensures CanonicalText.IsString(PrintStr(s), s)
  {
    BodyText(s);
    assert PrintStr(s) == [34] + Escape(s) + [34];
  }

  function Printed(items: seq<Json>): (r: seq<Text>)
    ensures |r| == |items| && forall i :: 0 <= i < |items| ==> r[i] == Print(items[i])
  {
    seq(|items|, i requires 0 <= i < |items| => Print(items[i]))
  }

  lemma {:induction false} CommasText(items: seq<Json>)
    ensures PrintItems(items) == CanonicalText.Commas(Printed(items))
  {
    if |items| > 1 {
      CommasText(items[1..]);
      assert Printed(items)[1..] == Printed(items[1..]);
    }
  }

  lemma ArrayText(items: seq<Json>)
    ensures Print(JArr(items)) == CanonicalText.Bracketed(Printed(items))
  {
    CommasText(items);
  }

  lemma StringsText(ss: seq<Text>)
    ensures CanonicalText.IsStrings(Print(JArr(StrItems(ss))), ss)
  {
    var parts := Printed(StrItems(ss));
    ArrayText(StrItems(ss));
    forall i | 0 <= i < |ss|
      ensures CanonicalText.IsString(parts[i], ss[i])
    {
      StringText(ss[i]);
    }
  }

  lemma TagsText(tags: seq<seq<Text>>)
    ensures CanonicalText.IsTags(Print(JArr(TagItems(tags))), tags)
  {
    var parts := Printed(TagItems(tags));
    ArrayText(TagItems(tags));
    forall i | 0 <= i < |tags|
      ensures CanonicalText.IsStrings(parts[i], tags[i])
    {
      StringsText(tags[i]);
    }
  }

  lemma {:induction false} HexUnescaped(t: Text)
    requires forall i :: 0 <= i < |t| ==> Hex.IsLowerHex(t[i])
    ensures Escape(t) == t
  {
    if t != [] {
      HexUnescaped(t[1..]);
      assert t == [t[0]] + t[1..];
    }
  }

  lemma KeyText(pubkey: Text)
    ensures Print(JStr(Hex.Encode(pubkey))) == [34] + Hex.Encode(pubkey) + [34]
  {
    Hex.EncodeDigits(pubkey);
    HexUnescaped(Hex.Encode(pubkey));
  }

  /** Six elements between brackets. */
  lemma SixText(a: Json, b: Json, c: Json, d: Json, x: Json, y: Json)
    ensures Print(JArr([a, b, c, d, x, y]))
            == [91] + Print(a) + [44] + Print(b) + [44] + Print(c) + [44] + Print(d)
               + [44] + Print(x) + [44] + Print(y) + [93]
  {
    var six := [a, b, c, d, x, y];
    assert six[1..] == [b, c, d, x, y] && [b, c, d, x, y][1..] == [c, d, x, y] && [c, d, x, y][1..] == [d, x, y];
    assert [d, x, y][1..] == [x, y] && [x, y][1..] == [y];
    assert PrintItems([y]) == Print(y);
    assert PrintItems([x, y]) == Print(x) + [44] + Print(y);
    assert PrintItems([d, x, y]) == Print(d) + [44] + PrintItems([x, y]);
    assert PrintItems([c, d, x, y]) == Print(c) + [44] + PrintItems([d, x, y]);
    assert PrintItems([b, c, d, x, y]) == Print(b) + [44] + PrintItems([c, d, x, y]);
    assert PrintItems(six) == Print(a) + [44] + PrintItems([b, c, d, x, y]);
    Flattened(Print(a), Print(b), Print(c), Print(d), Print(x), Print(y));
  }

  lemma Flattened(a: Text, b: Text, c: Text, d: Text, x: Text, y: Text)
    ensures [91] + (a + [44] + (b + [44] + (c + [44] + (d + [44] + (x + [44] + y))))) + [93]
            == [91] + a + [44] + b + [44] + c + [44] + d + [44] + x + [44] + y + [93]
  {
  }

  lemma LayoutText(hex: Text, time: Text, kind: Text, tags: Text, content: Text)
    ensures [91] + [48] + [44] + ([34] + hex + [34]) + [44] + time + [44] + kind + [44] + tags + [44] + content + [93]
            == CanonicalText.Layout(hex, time, kind, tags, content)
  {
  }

  /** What is written is the canonical text. */
  lemma WrittenText(e: Unsigned)
    ensures CanonicalText.IsCanonicalText(Print(CanonicalJson(e)), e.pubkey, e.createdAt, e.kind, e.tags, e.content)
  {
    HexText(e.pubkey);
    DecimalText(e.createdAt);
    DecimalText(e.kind);
    TagsText(e.tags);
    StringText(e.content);
    KeyText(e.pubkey);
    assert Print(JNum(0)) == [48];
    SixText(JNum(0), JStr(Hex.Encode(e.pubkey)), JNum(e.createdAt), JNum(e.kind), JArr(TagItems(e.tags)),
            JStr(e.content));
    LayoutText(Hex.Encode(e.pubkey), Decimal(e.createdAt), Decimal(e.kind), Print(JArr(TagItems(e.tags))),
               PrintStr(e.content));
  }

  // ----- and nothing else is -----

  lemma {:induction false} DecimalIs(t: Text, n: nat)
    requires CanonicalText.IsDecimal(t, n)
    ensures t == Decimal(n)
    decreases |t|
  {
    var front, last := t[..|t| - 1], t[|t| - 1];
    assert t == front + [last] && 48 <= last <= 57;
    if front == [] {
      assert CanonicalText.ValueOf(front) == 0;
    } else {
      assert front[0] == t[0] && forall i :: 0 <= i < |front| ==> front[i] == t[i];
      PositiveValue(front);
      var m := CanonicalText.ValueOf(front);
      assert n == 10 * m + (last as int - 48) && n / 10 == m;
      DecimalIs(front, m);
    }
  }

  /** A leading digit other than zero makes the value positive. */
  lemma {:induction false} PositiveValue(t: Text)
    requires t != [] && (forall i :: 0 <= i < |t| ==> 48 <= t[i] <= 57) && t[0] != 48
    ensures CanonicalText.ValueOf(t) > 0
    decreases |t|
  {
    var front := t[..|t| - 1];
    if front == [] {
      assert CanonicalText.ValueOf(front) == 0;
    } else {
      PositiveValue(front);
      assert 48 <= t[|t| - 1];
    }
  }

  lemma CharIs(t: Text, b: byte)
    requires CanonicalText.IsChar(t, b)
    ensures t == EscapeByte(b)
  {
  }

  lemma BodySplit(t: Text, s: Text) returns (head: Text, tail: Text)
    requires s != [] && CanonicalText.IsBody(t, s)
    ensures t == head + tail && head == EscapeByte(s[0]) && CanonicalText.IsBody(tail, s[1..])
  {
    head, tail :| t == head + tail && CanonicalText.IsChar(head, s[0]) && CanonicalText.IsBody(tail, s[1..]);
    CharIs(head, s[0]);
  }

  lemma {:induction false} BodyIs(t: Text, s: Text)
    requires CanonicalText.IsBody(t, s)
    ensures t == Escape(s)
    decreases |s|
  {
    if s != [] {
      var head, tail := BodySplit(t, s);
      BodyIs(tail, s[1..]);
    }
  }

  lemma StringIs(t: Text, s: Text)
    requires CanonicalText.IsString(t, s)
    ensures t == PrintStr(s)
  {
    var body :| CanonicalText.IsBody(body, s) && t == [34] + body + [34];
    BodyIs(body, s);
  }

  lemma StringsIs(t: Text, ss: seq<Text>)
    requires CanonicalText.IsStrings(t, ss)
    ensures t == Print(JArr(StrItems(ss)))
  {
    var parts: seq<Text> :|
      |parts| == |ss| && (forall i :: 0 <= i < |ss| ==> CanonicalText.IsString(parts[i], ss[i]))
      && t == CanonicalText.Bracketed(parts);
    forall i | 0 <= i < |ss|
      ensures parts[i] == Printed(StrItems(ss))[i]
    {
      StringIs(parts[i], ss[i]);
    }
    assert parts == Printed(StrItems(ss));
    ArrayText(StrItems(ss));
  }

  lemma TagsIs(t: Text, tags: seq<seq<Text>>)
    requires CanonicalText.IsTags(t, tags)
    ensures t == Print(JArr(TagItems(tags)))
  {
    var parts: seq<Text> :|
      |parts| == |tags| && (forall i :: 0 <= i < |tags| ==> CanonicalText.IsStrings(parts[i], tags[i]))
      && t == CanonicalText.Bracketed(parts);
    forall i | 0 <= i < |tags|
      ensures parts[i] == Printed(TagItems(tags))[i]
    {
      StringsIs(parts[i], tags[i]);
    }
    assert parts == Printed(TagItems(tags));
    ArrayText(TagItems(tags));
  }

  lemma HexIs(t: Text, bytes: Text)
    requires CanonicalText.IsHex(t, bytes)
    ensures t == Hex.Encode(bytes)
  {
    HexText(bytes);
    var u := Hex.Encode(bytes);
    forall j | 0 <= j < |t|
      ensures t[j] == u[j]
    {
      var i := j / 2;
      assert bytes[i] < 256 && t[2 * i] == u[2 * i] && t[2 * i + 1] == u[2 * i + 1];
      assert j == 2 * i || j == 2 * i + 1;
    }
  }

  /** The grammar fixes the text: a tuple has exactly one canonical text, the one that is written. */
  lemma CanonicalTextIff(t: Text, e: Unsigned)
    ensures CanonicalText.IsCanonicalText(t, e.pubkey, e.createdAt, e.kind, e.tags, e.content)
            <==> t == Print(CanonicalJson(e))
  {
    WrittenText(e);
    if CanonicalText.IsCanonicalText(t, e.pubkey, e.createdAt, e.kind, e.tags, e.content) {
      OnlyText(t, Print(CanonicalJson(e)), e);
    }
  }

  lemma OnlyText(t: Text, u: Text, e: Unsigned)
    requires CanonicalText.IsCanonicalText(t, e.pubkey, e.createdAt, e.kind, e.tags, e.content)
    requires CanonicalText.IsCanonicalText(u, e.pubkey, e.createdAt, e.kind, e.tags, e.content)
    ensures t == u
  {
    LaidOut(t, e);
    LaidOut(u, e);
  }

  lemma LaidOut(t: Text, e: Unsigned)
    requires CanonicalText.IsCanonicalText(t, e.pubkey, e.createdAt, e.kind, e.tags, e.content)
    ensures t == CanonicalText.Layout(Hex.Encode(e.pubkey), Decimal(e.createdAt), Decimal(e.kind),
                                      Print(JArr(TagItems(e.tags))), PrintStr(e.content))
  {
    var hex, time, number, list, text :|
      && CanonicalText.IsHex(hex, e.pubkey) && CanonicalText.IsDecimal(time, e.createdAt)
      && CanonicalText.IsDecimal(number, e.kind) && CanonicalText.IsTags(list, e.tags)
      && CanonicalText.IsString(text, e.content) && t == CanonicalText.Layout(hex, time, number, list, text);
    HexIs(hex, e.pubkey);
    DecimalIs(time, e.createdAt);
    DecimalIs(number, e.kind);
    TagsIs(list, e.tags);
    StringIs(text, e.content);
  }

  // ----- reading it back -----

  function ReadStrings(items: seq<Json>): Option<seq<Text>> {
    if forall j :: j in items ==> j.JStr? then
      Some(seq(|items|, i requires 0 <= i < |items| => assert items[i] in items; items[i].s))
    else None
  }

  function ReadTags(items: seq<Json>): Option<seq<seq<Text>>> {
    if items == [] then Some([])
    else if !items[0].JArr? then None
    else
      match (ReadStrings(items[0].items), ReadTags(items[1..]))
      case (Some(tag), Some(rest)) => Some([tag] + rest)
      case _ => None
  }

  /** The tuple a canonical byte string was made from. */
  function ReadCanonical(bytes: Text): Option<Unsigned> {
    match Parse(bytes)
    case Fail => None
    case Done(j, rest) =>
      if rest != [] || !j.JArr? || |j.items| != 6 then None
      else
        var xs := j.items;
        if xs[0] != JNum(0) || !xs[1].JStr? || !xs[2].JNum? || !xs[3].JNum? || !xs[4].JArr? || !xs[5].JStr? then None
        else
          match (Hex.Decode(xs[1].s), ReadTags(xs[4].items))
          case (Some(pubkey), Some(tags)) => Some(Unsigned(pubkey, xs[2].n, xs[3].n, tags, xs[5].s))
          case _ => None
  }

  lemma ReadStringsBack(ss: seq<Text>)
    ensures ReadStrings(StrItems(ss)) == Some(ss)
  {
    assert ReadStrings(StrItems(ss)).Some?;
    assert ReadStrings(StrItems(ss)).value == ss;
  }

  lemma {:induction false} ReadTagsBack(tags: seq<seq<Text>>)
    ensures ReadTags(TagItems(tags)) == Some(tags)
  {
    if tags != [] {
      ReadStringsBack(tags[0]);
      ReadTagsBack(tags[1..]);
      assert TagItems(tags)[1..] == TagItems(tags[1..]);
      assert tags == [tags[0]] + tags[1..];
    }
  }

  /** Round trip: every tuple can be read back from its canonical bytes. */
  lemma ReadBack(e: Unsigned)
    ensures ReadCanonical(Print(CanonicalJson(e))) == Some(e)
  {
    assert Print(CanonicalJson(e)) + [] == Print(CanonicalJson(e));
    ParsePrint(CanonicalJson(e), []);
    Hex.DecodeEncode(e.pubkey);
    ReadTagsBack(e.tags);
  }

  /** Injectivity: distinct tuples never print to the same bytes. */
  lemma CanonicalInjective(a: Unsigned, b: Unsigned)
    ensures Print(CanonicalJson(a)) == Print(CanonicalJson(b)) <==> a == b
  {
    ReadBack(a);
    ReadBack(b);
  }

  /** Hence two events share an id exactly when they are equal, as far as the hash is collision free on them. */
  lemma EventIdIff(hash: Text -> Text, a: Unsigned, b: Unsigned)
    requires hash(Print(CanonicalJson(a))) == hash(Print(CanonicalJson(b))) ==>
               Print(CanonicalJson(a)) == Print(CanonicalJson(b))
    ensures hash(Print(CanonicalJson(a))) == hash(Print(CanonicalJson(b))) <==> a == b
  {
    CanonicalInjective(a, b);
  }
}
