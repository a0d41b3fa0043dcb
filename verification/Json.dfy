/** Compact JSON as `serde_json` writes it (strings per section 7 of RFC 8259), and a reader that inverts it. */
module Json {
  import opened Bytes

  datatype Json =
    | JNull
    | JBool(b: bool)
    | JNum(n: nat)
    | JStr(s: Text)
    | JArr(items: seq<Json>)
    | JObj(fields: seq<Field>)

  datatype Field = Field(key: Text, value: Json)

  const QUOTE: byte := 0x22
  const BACKSLASH: byte := 0x5C
  const COMMA: byte := 0x2C
  const COLON: byte := 0x3A
  const LBRACKET: byte := 0x5B
  const RBRACKET: byte := 0x5D
  const LBRACE: byte := 0x7B
  const RBRACE: byte := 0x7D

  // ----- writer -----

  /** A lowercase hex digit. */
  function HexDigit(n: nat): byte
    requires n < 16
  {
    if n < 10 then 0x30 + n else 0x57 + n
  }

  /** The seven short escapes, `\u00hh` for the other control bytes, everything else verbatim. */
  function EscapeByte(b: byte): Text {
    if b == QUOTE then [BACKSLASH, QUOTE]
    else if b == BACKSLASH then [BACKSLASH, BACKSLASH]
    else if b == 0x08 then [BACKSLASH, 0x62]
    else if b == 0x09 then [BACKSLASH, 0x74]
    else if b == 0x0A then [BACKSLASH, 0x6E]
    else if b == 0x0C then [BACKSLASH, 0x66]
    else if b == 0x0D then [BACKSLASH, 0x72]
    else if b < 0x20 then [BACKSLASH, 0x75, 0x30, 0x30, HexDigit(b / 16), HexDigit(b % 16)]
    else [b]
  }

  function Escape(s: Text): Text {
    if s == [] then [] else EscapeByte(s[0]) + Escape(s[1..])
  }

  function PrintStr(s: Text): Text { [QUOTE] + Escape(s) + [QUOTE] }

  /** Decimal digits, most significant first. */
  function Decimal(n: nat): Text {
    if n < 10 then [0x30 + n] else Decimal(n / 10) + [0x30 + n % 10]
  }

  function Print(j: Json): Text {
    match j
    case JNull => [0x6E, 0x75, 0x6C, 0x6C]
    case JBool(true) => [0x74, 0x72, 0x75, 0x65]
    case JBool(false) => [0x66, 0x61, 0x6C, 0x73, 0x65]
    case JNum(n) => Decimal(n)
    case JStr(s) => PrintStr(s)
    case JArr(items) => [LBRACKET] + PrintItems(items) + [RBRACKET]
    case JObj(fields) => [LBRACE] + PrintFields(fields) + [RBRACE]
  }

  function PrintItems(items: seq<Json>): Text {
    if items == [] then []
    else if |items| == 1 then Print(items[0])
    else Print(items[0]) + [COMMA] + PrintItems(items[1..])
  }

  function PrintField(f: Field): Text { PrintStr(f.key) + [COLON] + Print(f.value) }

  function PrintFields(fields: seq<Field>): Text {
    if fields == [] then []
    else if |fields| == 1 then PrintField(fields[0])
    else PrintField(fields[0]) + [COMMA] + PrintFields(fields[1..])
  }

  // ----- reader -----

  datatype Parsed<+T> = Fail | Done(value: T, rest: Text)

  function HexValue(b: byte): Option<nat> {
    if IsDigit(b) then Some(b - 0x30)
    else if 0x61 <= b <= 0x66 then Some(b - 0x57)
    else None
  }

  /** The byte an escape stands for and how long the escape is, after the backslash. */
  function Unescape(s: Text): (r: Option<(byte, nat)>)
    ensures r.Some? ==> 0 < r.value.1 <= |s|
  {
    if s == [] then None
    else if s[0] == QUOTE then Some((QUOTE, 1))
    else if s[0] == BACKSLASH then Some((BACKSLASH, 1))
    else if s[0] == 0x62 then Some((0x08, 1))
    else if s[0] == 0x74 then Some((0x09, 1))
    else if s[0] == 0x6E then Some((0x0A, 1))
    else if s[0] == 0x66 then Some((0x0C, 1))
    else if s[0] == 0x72 then Some((0x0D, 1))
    else if s[0] == 0x75 && |s| >= 5 && s[1] == 0x30 && s[2] == 0x30 && 0x30 <= s[3] < 0x38 && HexValue(s[4]).Some? then
      Some((16 * (s[3] as int - 0x30) + HexValue(s[4]).value, 5))
    else None
  }

  /** The rest of a string after its opening quote. */
  function ParseChars(s: Text): (r: Parsed<Text>)
    ensures r.Done? ==> |r.rest| < |s|
    decreases |s|
  {
    if s == [] || s[0] < 0x20 then Fail
    else if s[0] == QUOTE then Done([], s[1..])
    else if s[0] == BACKSLASH then
      (match Unescape(s[1..])
       case None => Fail
       case Some((b, n)) => Prepend(b, ParseChars(s[1 + n..])))
    else Prepend(s[0], ParseChars(s[1..]))
  }

  function Prepend(b: byte, r: Parsed<Text>): Parsed<Text> {
    match r case Fail => Fail case Done(v, rest) => Done([b] + v, rest)
  }

  function ParseStr(s: Text): (r: Parsed<Text>)
    ensures r.Done? ==> |r.rest| < |s|
  {
    if s != [] && s[0] == QUOTE then ParseChars(s[1..]) else Fail
  }

  function DigitsValue(s: Text): nat
    requires forall k :: 0 <= k < |s| ==> IsDigit(s[k])
  {
    if s == [] then 0
    else
      assert IsDigit(s[|s| - 1]);
      DigitsValue(s[..|s| - 1]) * 10 + (s[|s| - 1] as int - 0x30)
  }

  function Parse(s: Text): (r: Parsed<Json>)
    ensures r.Done? ==> |r.rest| < |s|
    decreases |s|, 0
  {
    if s == [] then Fail
    else if IsDigit(s[0]) then
      var e := SkipWhile(IsDigit, s, 0);
      Done(JNum(DigitsValue(s[..e])), s[e..])
    else if s[0] == QUOTE then
      (match ParseStr(s) case Fail => Fail case Done(v, rest) => Done(JStr(v), rest))
    else if s[0] == LBRACKET then
      if |s| > 1 && s[1] == RBRACKET then Done(JArr([]), s[2..])
      else match ParseItems(s[1..]) case Fail => Fail case Done(v, rest) => Done(JArr(v), rest)
    else if s[0] == LBRACE then
      if |s| > 1 && s[1] == RBRACE then Done(JObj([]), s[2..])
      else match ParseFields(s[1..]) case Fail => Fail case Done(v, rest) => Done(JObj(v), rest)
    else if Print(JNull) <= s then Done(JNull, s[4..])
    else if Print(JBool(true)) <= s then Done(JBool(true), s[4..])
    else if Print(JBool(false)) <= s then Done(JBool(false), s[5..])
    else Fail
  }

  /** One or more elements up to and including the closing bracket. */
  function ParseItems(s: Text): (r: Parsed<seq<Json>>)
    ensures r.Done? ==> |r.rest| < |s|
    decreases |s|, 1
  {
    match Parse(s)
    case Fail => Fail
    case Done(v, rest) =>
      if rest != [] && rest[0] == RBRACKET then Done([v], rest[1..])
      else if rest != [] && rest[0] == COMMA then
        (match ParseItems(rest[1..]) case Fail => Fail case Done(vs, end) => Done([v] + vs, end))
      else Fail
  }

  function ParseField(s: Text): (r: Parsed<Field>)
    ensures r.Done? ==> |r.rest| < |s|
    decreases |s|, 1
  {
    match ParseStr(s)
    case Fail => Fail
    case Done(k, rest) =>
      if rest != [] && rest[0] == COLON then
        match Parse(rest[1..]) case Fail => Fail case Done(v, end) => Done(Field(k, v), end)
      else Fail
  }

  function ParseFields(s: Text): (r: Parsed<seq<Field>>)
    ensures r.Done? ==> |r.rest| < |s|
    decreases |s|, 2
  {
    match ParseField(s)
    case Fail => Fail
    case Done(f, rest) =>
      if rest != [] && rest[0] == RBRACE then Done([f], rest[1..])
      else if rest != [] && rest[0] == COMMA then
        (match ParseFields(rest[1..]) case Fail => Fail case Done(fs, end) => Done([f] + fs, end))
      else Fail
  }

  // ----- the reader inverts the writer -----

  lemma {:induction false} ParseEscaped(s: Text, rest: Text)
    ensures ParseChars(Escape(s) + [QUOTE] + rest) == Done(s, rest)
  {
    if s == [] {
      assert Escape(s) + [QUOTE] + rest == [QUOTE] + rest;
    } else {
      var e := EscapeByte(s[0]);
      var tail := Escape(s[1..]) + [QUOTE] + rest;
      assert Escape(s) + [QUOTE] + rest == e + tail;
      ParseEscaped(s[1..], rest);
      ParseOneByte(s[0], tail);
      assert s == [s[0]] + s[1..];
    }
  }

  lemma {:induction false} ParseOneByte(b: byte, tail: Text)
    ensures ParseChars(EscapeByte(b) + tail) == Prepend(b, ParseChars(tail))
  {
    if EscapeByte(b) == [b] {
      ParseRawByte(b, tail);
    } else {
      UnescapeByte(b, tail);
      ParseEscape(b, EscapeByte(b)[1..], tail);
    }
  }

  lemma {:induction false} ParseRawByte(b: byte, tail: Text)
    requires b >= 0x20 && b != QUOTE && b != BACKSLASH
    ensures ParseChars([b] + tail) == Prepend(b, ParseChars(tail))
  {
    assert ([b] + tail)[1..] == tail;
  }

  lemma {:induction false} ParseEscape(b: byte, body: Text, tail: Text)
    requires Unescape(body + tail) == Some((b, |body|))
    ensures ParseChars([BACKSLASH] + body + tail) == Prepend(b, ParseChars(tail))
  {
    var s := [BACKSLASH] + body + tail;
    assert s[1..] == body + tail && s[1 + |body|..] == tail;
  }

  lemma UnescapeByte(b: byte, tail: Text)
    requires EscapeByte(b) != [b]
    ensures EscapeByte(b) == [BACKSLASH] + EscapeByte(b)[1..]
    ensures Unescape(EscapeByte(b)[1..] + tail) == Some((b, |EscapeByte(b)| - 1))
  {
    var t := EscapeByte(b)[1..] + tail;
    if b < 0x20 && !(b in {0x08, 0x09, 0x0A, 0x0C, 0x0D}) {
      assert t[0] == 0x75 && t[1] == 0x30 && t[2] == 0x30 && t[3] == 0x30 + b / 16 && t[4] == HexDigit(b % 16);
    }
  }

  lemma {:induction false} ParsePrintStr(s: Text, rest: Text)
    ensures ParseStr(PrintStr(s) + rest) == Done(s, rest)
    ensures PrintStr(s)[0] == QUOTE
  {
    ParseEscaped(s, rest);
    assert (PrintStr(s) + rest)[1..] == Escape(s) + [QUOTE] + rest;
  }

  lemma {:induction false} DecimalDigits(n: nat)
    ensures Decimal(n) != [] && (forall k :: 0 <= k < |Decimal(n)| ==> IsDigit(Decimal(n)[k]))
    ensures DigitsValue(Decimal(n)) == n
  {
    var d := Decimal(n);
    if n < 10 {
      assert d[..0] == [];
    } else {
      DecimalDigits(n / 10);
      assert d[..|d| - 1] == Decimal(n / 10);
    }
  }

  /** A number needs a non-digit after it to be delimited. */
  predicate Delimited(j: Json, rest: Text) { j.JNum? && rest != [] ==> !IsDigit(rest[0]) }

  lemma {:induction false} ParsePrintNum(n: nat, rest: Text)
    requires Delimited(JNum(n), rest)
    ensures Parse(Decimal(n) + rest) == Done(JNum(n), rest)
  {
    var d := Decimal(n);
    DecimalDigits(n);
    SkipWhileIs(IsDigit, d + rest, 0, |d|);
    assert (d + rest)[..|d|] == d && (d + rest)[|d|..] == rest;
  }

  /** Round trip: reading back what was written gives the value and leaves the rest untouched. */
  lemma {:induction false} ParsePrint(j: Json, rest: Text)
    requires Delimited(j, rest)
    ensures Parse(Print(j) + rest) == Done(j, rest)
    decreases j, 0
  {
    var s := Print(j) + rest;
    match j
    case JNull => assert s[4..] == rest;
    case JBool(b) => assert s[|Print(j)|..] == rest;
    case JNum(n) => ParsePrintNum(n, rest);
    case JStr(t) => ParsePrintStr(t, rest);
    case JArr(items) => ParsePrintArr(items, rest);
    case JObj(fields) => ParsePrintObj(fields, rest);
  }

  lemma {:induction false} ParsePrintArr(items: seq<Json>, rest: Text)
    ensures Parse(Print(JArr(items)) + rest) == Done(JArr(items), rest)
    decreases items, 2
  {
    var s := Print(JArr(items)) + rest;
    if items == [] {
      assert s == [LBRACKET, RBRACKET] + rest;
    } else {
      assert s[1..] == PrintItems(items) + [RBRACKET] + rest;
      ParsePrintItems(items, rest);
      ItemsHead(items);
      assert s[1] == PrintItems(items)[0];
    }
  }

  lemma {:induction false} ParsePrintObj(fields: seq<Field>, rest: Text)
    ensures Parse(Print(JObj(fields)) + rest) == Done(JObj(fields), rest)
    decreases fields, 3
  {
    var s := Print(JObj(fields)) + rest;
    if fields == [] {
      assert s == [LBRACE, RBRACE] + rest;
    } else {
      assert s[1..] == PrintFields(fields) + [RBRACE] + rest;
      ParsePrintFields(fields, rest);
      FieldsHead(fields);
      assert s[1] == PrintFields(fields)[0];
    }
  }

  lemma {:induction false} ItemsHead(items: seq<Json>)
    requires items != []
    ensures PrintItems(items) != [] && PrintItems(items)[0] != RBRACKET
  {
    PrintHead(items[0]);
  }

  lemma {:induction false} PrintHead(j: Json)
    ensures Print(j) != [] && Print(j)[0] != RBRACKET
  {
    if j.JNum? {
      DecimalDigits(j.n);
    }
  }

  lemma {:induction false} FieldsHead(fields: seq<Field>)
    requires fields != []
    ensures PrintFields(fields) != [] && PrintFields(fields)[0] != RBRACE
  {
  }

  lemma {:induction false} ParsePrintItems(items: seq<Json>, rest: Text)
    requires items != []
    ensures ParseItems(PrintItems(items) + [RBRACKET] + rest) == Done(items, rest)
    decreases items, 1
  {
    if |items| == 1 {
      ParsePrint(items[0], [RBRACKET] + rest);
      assert Print(items[0]) + [RBRACKET] + rest == Print(items[0]) + ([RBRACKET] + rest);
      ItemsLast(items[0], Print(items[0]) + [RBRACKET] + rest, rest);
      assert items == [items[0]];
    } else {
      ParsePrintItems(items[1..], rest);
      ItemsStep(items, rest);
    }
  }

  lemma {:induction false} ItemsStep(items: seq<Json>, rest: Text)
    requires |items| > 1
    requires ParseItems(PrintItems(items[1..]) + [RBRACKET] + rest) == Done(items[1..], rest)
    ensures ParseItems(PrintItems(items) + [RBRACKET] + rest) == Done(items, rest)
    decreases items, 0
  {
    var more := PrintItems(items[1..]);
    var tail := more + [RBRACKET] + rest;
    ParsePrint(items[0], [COMMA] + tail);
    Regroup(Print(items[0]), more, [RBRACKET], rest);
    ItemsMore(items[0], items[1..], Print(items[0]) + ([COMMA] + tail), tail, rest);
    assert items == [items[0]] + items[1..];
  }

  lemma Regroup(first: Text, more: Text, close: Text, rest: Text)
    ensures first + [COMMA] + more + close + rest == first + ([COMMA] + (more + close + rest))
  {
  }

  lemma {:induction false} ItemsLast(v: Json, s: Text, rest: Text)
    requires Parse(s) == Done(v, [RBRACKET] + rest)
    ensures ParseItems(s) == Done([v], rest)
  {
    assert ([RBRACKET] + rest)[1..] == rest;
  }

  lemma {:induction false} ItemsMore(v: Json, vs: seq<Json>, s: Text, tail: Text, rest: Text)
    requires Parse(s) == Done(v, [COMMA] + tail) && ParseItems(tail) == Done(vs, rest)
    ensures ParseItems(s) == Done([v] + vs, rest)
  {
    assert ([COMMA] + tail)[1..] == tail;
  }

  lemma {:induction false} ParsePrintField(f: Field, rest: Text)
    requires rest != [] && !IsDigit(rest[0])
    ensures ParseField(PrintField(f) + rest) == Done(f, rest)
    decreases f, 1
  {
    var tail := [COLON] + (Print(f.value) + rest);
    assert PrintField(f) + rest == PrintStr(f.key) + tail;
    ParsePrintStr(f.key, tail);
    assert tail[1..] == Print(f.value) + rest;
    ParsePrint(f.value, rest);
  }

  lemma {:induction false} ParsePrintFields(fields: seq<Field>, rest: Text)
    requires fields != []
    ensures ParseFields(PrintFields(fields) + [RBRACE] + rest) == Done(fields, rest)
    decreases fields, 2
  {
    if |fields| == 1 {
      ParsePrintField(fields[0], [RBRACE] + rest);
      assert PrintField(fields[0]) + [RBRACE] + rest == PrintField(fields[0]) + ([RBRACE] + rest);
      FieldsLast(fields[0], PrintField(fields[0]) + [RBRACE] + rest, rest);
      assert fields == [fields[0]];
    } else {
      ParsePrintFields(fields[1..], rest);
      FieldsStep(fields, rest);
    }
  }

  lemma {:induction false} FieldsStep(fields: seq<Field>, rest: Text)
    requires |fields| > 1
    requires ParseFields(PrintFields(fields[1..]) + [RBRACE] + rest) == Done(fields[1..], rest)
    ensures ParseFields(PrintFields(fields) + [RBRACE] + rest) == Done(fields, rest)
    decreases fields, 1
  {
    var more := PrintFields(fields[1..]);
    var tail := more + [RBRACE] + rest;
    ParsePrintField(fields[0], [COMMA] + tail);
    PrintFieldsCons(fields);
    Regroup(PrintField(fields[0]), more, [RBRACE], rest);
    FieldsMore(fields[0], fields[1..], PrintField(fields[0]) + ([COMMA] + tail), tail, rest);
    assert fields == [fields[0]] + fields[1..];
  }

  lemma {:induction false} PrintFieldsCons(fields: seq<Field>)
    requires |fields| > 1
    ensures PrintFields(fields) == PrintField(fields[0]) + [COMMA] + PrintFields(fields[1..])
  {
  }

  lemma {:induction false} FieldsLast(f: Field, s: Text, rest: Text)
    requires ParseField(s) == Done(f, [RBRACE] + rest)
    ensures ParseFields(s) == Done([f], rest)
  {
    assert ([RBRACE] + rest)[1..] == rest;
  }

  lemma {:induction false} FieldsMore(f: Field, fs: seq<Field>, s: Text, tail: Text, rest: Text)
    requires ParseField(s) == Done(f, [COMMA] + tail) && ParseFields(tail) == Done(fs, rest)
    ensures ParseFields(s) == Done([f] + fs, rest)
  {
    assert ([COMMA] + tail)[1..] == tail;
  }

  /** Distinct values never print alike. */
  lemma {:induction false} PrintInjective(a: Json, b: Json)
    requires Print(a) == Print(b)
    ensures a == b
  {
    assert Print(a) + [] == Print(a) && Print(b) + [] == Print(b);
    ParsePrint(a, []);
    ParsePrint(b, []);
  }

  // ----- the output holds no control bytes -----

  predicate Visible(s: Text) { forall k :: 0 <= k < |s| ==> s[k] >= 0x20 }

  lemma {:induction false} EscapeVisible(s: Text)
    ensures Visible(Escape(s))
  {
    if s != [] {
      EscapeVisible(s[1..]);
      assert Visible(EscapeByte(s[0]));
    }
  }

  /** In particular no newline, whatever the strings inside hold. */
  lemma {:induction false} PrintVisible(j: Json)
    ensures Visible(Print(j))
    decreases j, 0
  {
    match j
    case JNull =>
    case JBool(b) =>
    case JNum(n) =>
      DecimalDigits(n);
      assert forall k :: 0 <= k < |Decimal(n)| ==> IsDigit(Decimal(n)[k]);
    case JStr(t) => EscapeVisible(t);
    case JArr(items) => ItemsVisible(items);
    case JObj(fields) => FieldsVisible(fields);
  }

  lemma {:induction false} ItemsVisible(items: seq<Json>)
    ensures Visible(PrintItems(items))
    decreases items, 1
  {
    if items != [] {
      PrintVisible(items[0]);
      ItemsVisible(items[1..]);
    }
  }

  lemma {:induction false} FieldsVisible(fields: seq<Field>)
    ensures Visible(PrintFields(fields))
    decreases fields, 1
  {
    if fields != [] {
      EscapeVisible(fields[0].key);
      PrintVisible(fields[0].value);
      FieldsVisible(fields[1..]);
    }
  }
}
