/** The content tokeniser's recognisers and the leftmost-first segmentation they induce, on values. */
module TokenSpec {
  import opened Bytes
  import opened Utf8

  const OPEN_PAREN: byte := 0x28
  const CLOSE_PAREN: byte := 0x29

  /** `NostrParserOptions`. */
  datatype Options = Options(nostrUris: bool, urls: bool, hashtags: bool, lineBreaks: bool)

  /** The foreign parsers the tokeniser consults: which slices decode, and which bytes are bech32 characters. */
  datatype Env = Env(nip21: Text -> bool, url: Text -> bool, fe32: byte -> bool)

  datatype Ctx = Ctx(s: Text, opts: Options, env: Env)

  /** What callers may rely on: the text is a `str`, and bech32 characters are ASCII letters or digits. */
  ghost predicate ValidCtx(c: Ctx) {
    && Valid(c.s)
    && (forall b: byte :: c.env.fe32(b) ==> IsAlphanumeric(b))
  }

  datatype MatchKind = LineBreak | Hashtag | NostrUri | Url

  datatype Match = Match(kind: MatchKind, start: nat, end: nat)

  /** A token; Nostr and Url carry the slice whose decoding they are. */
  datatype Token =
    | TText(text: Text)
    | TNostr(uri: Text)
    | TUrl(url: Text)
    | THashtag(body: Text)
    | TLineBreak

  /** The source text a token stands for. */
  function Source(t: Token): Text {
    match t
    case TText(x) => x
    case TNostr(x) => x
    case TUrl(x) => x
    case THashtag(x) => [HASH] + x
    case TLineBreak => [NEWLINE]
  }

  // ----- recognisers -----

  /** `char::is_whitespace() || char::is_control()`. */
  predicate IsSpaceOrControl(ch: nat) {
    || ch <= 0x20 || 0x7F <= ch <= 0xA0 || ch == 0x1680 || 0x2000 <= ch <= 0x200A
    || ch == 0x2028 || ch == 0x2029 || ch == 0x202F || ch == 0x205F || ch == 0x3000
  }

  /** `is_forbidden_hashtag_char`: besides blanks and controls, every ASCII punctuation mark but `-` and `_`. */
  predicate IsForbidden(ch: nat) {
    || IsSpaceOrControl(ch)
    || 0x21 <= ch <= 0x2C || 0x2E <= ch <= 0x2F || 0x3A <= ch <= 0x40
    || 0x5B <= ch <= 0x5E || ch == 0x60 || 0x7B <= ch <= 0x7E
  }

  /** The first boundary from `e` on where the text ends or a forbidden character stands. */
  function HashtagEnd(s: Text, e: nat): (r: nat)
    requires ValidFrom(s, e) && e <= |s|
    ensures e <= r <= |s| && ValidFrom(s, r)
    decreases |s| - e
  {
    if e == |s| || IsForbidden(Scalar(s, e)) then e else HashtagEnd(s, e + LeadLength(s[e]))
  }

  function HashtagAt(s: Text, i: nat): Option<Match>
    requires ValidFrom(s, i) && i < |s|
  {
    if s[i] != HASH || (i > 0 && !IsWhitespace(s[i - 1])) then None
    else
      var e := HashtagEnd(s, i + 1);
      if e == i + 1 then None else Some(Match(Hashtag, i, e))
  }

  /** "nostr:" */
  const NOSTR_PREFIX: Text := [0x6E, 0x6F, 0x73, 0x74, 0x72, 0x3A]

  /** "://" */
  const SEPARATOR: Text := [0x3A, 0x2F, 0x2F]

  /** `bytes.get(i..i + p.len()) == Some(p)`. */
  predicate HasAt(s: Text, i: nat, p: Text) { i + |p| <= |s| && s[i..i + |p|] == p }

  predicate IsNostrByte(env: Env, b: byte) { IsLower(b) || b == 0x31 || env.fe32(b) }

  function NostrByteTest(env: Env): byte -> bool { (b: byte) => IsNostrByte(env, b) }

  function NostrAt(s: Text, env: Env, i: nat): Option<Match>
    requires i < |s|
  {
    if !HasAt(s, i, NOSTR_PREFIX) then None
    else
      var bodyStart := i + |NOSTR_PREFIX|;
      var e := SkipWhile(NostrByteTest(env), s, bodyStart);
      if e == bodyStart then None else Some(Match(NostrUri, i, e))
  }

  /** A scheme byte after the first: alphanumeric, `+`, `-` or `.`. */
  predicate IsSchemeByte(b: byte) { IsAlphanumeric(b) || b == 0x2B || b == 0x2D || b == 0x2E }

  /** `is_allowed_url_byte`: alphanumeric or one of - . _ ~ : / ? # [ ] @ ! $ & ' ( ) * + , ; = %. */
  predicate IsUrlByte(b: byte) {
    || IsAlphanumeric(b)
    || b == 0x21 || 0x23 <= b <= 0x2F || b == 0x3A || b == 0x3B || b == 0x3D || b == 0x3F || b == 0x40
    || b == 0x5B || b == 0x5D || b == 0x5F || b == 0x7E
  }

  /** The loop guard of the URL body: not whitespace, and allowed. */
  predicate IsBodyByte(b: byte) { !IsWhitespace(b) && IsUrlByte(b) }

  /** `is_url_trailing_punct`: . , ; : ! ? ] } */
  predicate IsTrailingPunct(b: byte) {
    || b == 0x2E || b == 0x2C || b == 0x3B || b == 0x3A || b == 0x21 || b == 0x3F || b == 0x5D || b == 0x7D
  }

  /** Drop trailing punctuation, but never past `floor`. */
  function TrimEnd(s: Text, floor: nat, e: nat): (r: nat)
    requires floor <= e <= |s|
    ensures floor <= r <= e
    ensures forall k :: r <= k < e ==> IsTrailingPunct(s[k])
    ensures r == floor || !IsTrailingPunct(s[r - 1])
    decreases e
  {
    if e > floor && IsTrailingPunct(s[e - 1]) then TrimEnd(s, floor, e - 1) else e
  }

  /** More closing than opening parentheses in `s[i..e]`. */
  predicate Unbalanced(s: Text, i: nat, e: nat)
    requires i <= e <= |s|
  {
    Count(CLOSE_PAREN, s[i..e]) > Count(OPEN_PAREN, s[i..e])
  }

  /** The start of the URL body when a scheme and `://` stand at `i`. */
  function UrlBody(s: Text, i: nat): (r: Option<nat>)
    requires i < |s|
    ensures r.Some? ==> i + 4 <= r.value <= |s|
  {
    if !IsAlphabetic(s[i]) then None
    else
      var afterScheme := SkipWhile(IsSchemeByte, s, i + 1);
      if HasAt(s, afterScheme, SEPARATOR) then Some(afterScheme + 3) else None
  }

  /** The URL body's end after the punctuation trim. */
  function TrimmedUrlEnd(s: Text, body: nat): (r: nat)
    requires body <= |s|
    ensures body <= r <= |s|
  {
    TrimEnd(s, body, SkipWhile(IsBodyByte, s, body))
  }

  /** A closing parenthesis that nothing opened is left to the text. */
  function UrlStop(s: Text, i: nat, e: nat): (r: nat)
    requires i < e <= |s|
    ensures e - 1 <= r <= e
  {
    if s[e - 1] == CLOSE_PAREN && Unbalanced(s, i, e) then e - 1 else e
  }

  function UrlAt(s: Text, i: nat): Option<Match>
    requires i < |s|
  {
    match UrlBody(s, i)
    case None => None
    case Some(body) =>
      if SkipWhile(IsBodyByte, s, body) <= body then None
      else
        Some(Match(Url, i, UrlStop(s, i, TrimmedUrlEnd(s, body))))
  }

  /** The affordance recognised at boundary `i`, in the priority order of the scanner. */
  function MatchAt(c: Ctx, i: nat): Option<Match>
    requires ValidFrom(c.s, i) && i < |c.s|
  {
    if c.opts.lineBreaks && c.s[i] == NEWLINE then Some(Match(LineBreak, i, i + 1))
    else if c.opts.hashtags && HashtagAt(c.s, i).Some? then HashtagAt(c.s, i)
    else if c.opts.nostrUris && NostrAt(c.s, c.env, i).Some? then NostrAt(c.s, c.env, i)
    else if c.opts.urls then UrlAt(c.s, i)
    else None
  }

  // ----- facts about one match -----

  /** Every recogniser consumes something and stops on a boundary. */
  lemma MatchProgress(c: Ctx, i: nat)
    requires ValidCtx(c) && ValidFrom(c.s, i) && i < |c.s| && MatchAt(c, i).Some?
    ensures var m := MatchAt(c, i).value; m.start == i < m.end <= |c.s| && ValidFrom(c.s, m.end)
  {
    if c.opts.lineBreaks && c.s[i] == NEWLINE {
    } else if c.opts.hashtags && HashtagAt(c.s, i).Some? {
    } else if c.opts.nostrUris && NostrAt(c.s, c.env, i).Some? {
      NostrStops(c, i);
    } else {
      UrlStops(c.s, i);
    }
  }

  lemma NostrStops(c: Ctx, i: nat)
    requires ValidCtx(c) && i < |c.s| && NostrAt(c.s, c.env, i).Some?
    ensures var m := NostrAt(c.s, c.env, i).value; m.start == i < m.end <= |c.s| && ValidFrom(c.s, m.end)
  {
    NostrBytes(c, i);
    AsciiIsBoundary(c.s, NostrAt(c.s, c.env, i).value.end - 1);
  }

  lemma UrlStops(s: Text, i: nat)
    requires Valid(s) && i < |s| && UrlAt(s, i).Some?
    ensures var m := UrlAt(s, i).value; m.start == i < m.end <= |s| && ValidFrom(s, m.end)
  {
    UrlBytes(s, i);
    AsciiIsBoundary(s, UrlAt(s, i).value.end - 1);
  }

  lemma NostrBytes(c: Ctx, i: nat)
    requires ValidCtx(c) && i < |c.s| && NostrAt(c.s, c.env, i).Some?
    ensures var m := NostrAt(c.s, c.env, i).value;
            && m.kind == NostrUri && m.start == i && i + |NOSTR_PREFIX| < m.end <= |c.s|
            && (forall k :: i <= k < m.end ==> c.s[k] < 0x80 && c.s[k] != NEWLINE)
  {
    var m := NostrAt(c.s, c.env, i).value;
    forall k | i <= k < m.end
      ensures c.s[k] < 0x80 && c.s[k] != NEWLINE
    {
      if k < i + |NOSTR_PREFIX| {
        assert c.s[k] == c.s[i..i + |NOSTR_PREFIX|][k - i];
      } else {
        assert IsNostrByte(c.env, c.s[k]);
      }
    }
  }

  lemma UrlBytes(s: Text, i: nat)
    requires i < |s| && UrlAt(s, i).Some?
    ensures var m := UrlAt(s, i).value;
            && m.kind == Url && m.start == i && UrlBody(s, i).Some? && UrlBody(s, i).value <= m.end <= |s|
            && (forall k :: i <= k < m.end ==> s[k] < 0x80 && s[k] != NEWLINE)
  {
    var body := UrlBody(s, i).value;
    UrlHeadBytes(s, i);
    var e := TrimmedUrlEnd(s, body);
    forall k | body <= k < e
      ensures s[k] < 0x80 && s[k] != NEWLINE
    {
      assert IsBodyByte(s[k]);
    }
  }

  /** The scheme and separator are ASCII and hold neither a newline nor a parenthesis. */
  lemma UrlHeadBytes(s: Text, i: nat)
    requires i < |s| && UrlBody(s, i).Some?
    ensures forall k :: i <= k < UrlBody(s, i).value ==> s[k] < 0x80 && s[k] != NEWLINE && s[k] != CLOSE_PAREN
  {
    var body := UrlBody(s, i).value;
    forall k | i <= k < body
      ensures s[k] < 0x80 && s[k] != NEWLINE && s[k] != CLOSE_PAREN
    {
      if body - 3 <= k {
        assert s[k] == s[body - 3..body][k - (body - 3)];
      } else if i < k {
        assert IsSchemeByte(s[k]);
      }
    }
  }

  // ----- the scanner as a value -----

  /** A text with, for every position, the affordance that starts there. The segmentation theory needs no more. */
  datatype Lexer = Lexer(s: Text, env: Env, at: nat -> Option<Match>)

  /** Matches start where they are found, are not empty, and end on a boundary. */
  ghost predicate Sound(l: Lexer) {
    && Valid(l.s)
    && (forall i :: 0 <= i < |l.s| && ValidFrom(l.s, i) && l.at(i).Some? ==> SoundMatch(l.s, i, l.at(i).value))
  }

  predicate SoundMatch(s: Text, i: nat, m: Match) {
    m.start == i < m.end <= |s| && ValidFrom(s, m.end)
  }

  /** The lexer of a context. */
  function LexerOf(c: Ctx): Lexer {
    Lexer(c.s, c.env, (i: nat) => if i < |c.s| && ValidFrom(c.s, i) then MatchAt(c, i) else None)
  }

  lemma LexerSound(c: Ctx)
    requires ValidCtx(c)
    ensures Sound(LexerOf(c))
  {
    forall i | 0 <= i < |c.s| && ValidFrom(c.s, i) && LexerOf(c).at(i).Some?
      ensures SoundMatch(c.s, i, LexerOf(c).at(i).value)
    {
      MatchProgress(c, i);
    }
  }
}
