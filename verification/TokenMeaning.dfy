/** Which token each stretch of a text becomes. */
module TokenMeaning {
  import opened Bytes
  import opened Utf8
  import opened TokenSpec
  import opened Tokens
  import opened TokenFacts

  // ----- at most one recogniser fires -----

  lemma NostrIsNoUrl(c: Ctx, i: nat)
    requires ValidCtx(c) && i < |c.s| && NostrAt(c.s, c.env, i).Some?
    ensures UrlAt(c.s, i).None?
  {
    var s := c.s;
    NostrIff(s, c.env, i, NostrAt(s, c.env, i).value.end);
    var t := s[i..i + 6];
    assert t == NOSTR_PREFIX;
    assert s[i + 1] == t[1] && s[i + 2] == t[2] && s[i + 3] == t[3] && s[i + 4] == t[4] && s[i + 5] == t[5];
    SkipWhileIs(IsSchemeByte, s, i + 1, i + 5);
    assert IsNostrByte(c.env, s[i + 6]);
    if i + 8 <= |s| {
      assert s[i + 5..i + 8][1] == s[i + 6] && SEPARATOR[1] == 0x2F;
    }
  }

  lemma NostrHead(s: Text, env: Env, i: nat)
    requires i < |s| && NostrAt(s, env, i).Some?
    ensures s[i] == 0x6E
  {
    assert s[i..i + 6][0] == s[i];
  }

  /** The order of the tests does not matter: an enabled recogniser that fires is the only one that does. */
  lemma MatchAtIff(c: Ctx, i: nat, m: Match)
    requires ValidCtx(c) && ValidFrom(c.s, i) && i < |c.s|
    ensures MatchAt(c, i) == Some(m)
            <==> || (c.opts.lineBreaks && c.s[i] == 10 && m == Match(LineBreak, i, i + 1))
                 || (c.opts.hashtags && HashtagAt(c.s, i) == Some(m))
                 || (c.opts.nostrUris && NostrAt(c.s, c.env, i) == Some(m))
                 || (c.opts.urls && UrlAt(c.s, i) == Some(m))
  {
    if NostrAt(c.s, c.env, i).Some? {
      NostrHead(c.s, c.env, i);
      NostrIsNoUrl(c, i);
    }
  }

  // ----- what becomes of a stretch -----

  /** The parts of the URL that ends at `e`. */
  ghost predicate IsUrl(s: Text, i: nat, e: nat) {
    exists body: nat, raw: nat, trim: nat ::
      UrlParts(s, i, body, raw, trim)
      && e == if s[trim - 1] == CLOSE_PAREN && Unbalanced(s, i, trim) then trim - 1 else trim
  }

  /** The token of a stretch: plain text as it is; a line break; a hashtag without its mark; a URI or a URL that its
      parser accepts, and otherwise the text of it. */
  ghost predicate Becomes(c: Ctx, p: Piece, t: Token) {
    && Start(p) < End(p) <= |c.s|
    && var text := c.s[Start(p)..End(p)];
    match p
    case Gap(_, _) => t == TText(text)
    case Hit(m) =>
      match m.kind
      case LineBreak => c.opts.lineBreaks && text == [10] && t == TLineBreak
      case Hashtag => c.opts.hashtags && IsHashtag(c.s, m.start, m.end) && t == THashtag(text[1..])
      case NostrUri =>
        && c.opts.nostrUris && IsNostrUri(c.s, c.env, m.start, m.end)
        && t == (if c.env.nip21(text) then TNostr(text) else TText(text))
      case Url =>
        && c.opts.urls && IsUrl(c.s, m.start, m.end)
        && t == (if c.env.url(text) then TUrl(text) else TText(text))
  }

  lemma SliceOf(s: Text, a: nat, b: nat)
    requires Valid(s) && a < b <= |s| && ValidFrom(s, a) && ValidFrom(s, b)
    ensures Get(s, a, b) == Some(s[a..b])
  {
    BoundaryIffValidSuffix(s, a);
    BoundaryIffValidSuffix(s, b);
  }

  /** The mark of a hashtag is one byte, so the rest of the slice can be taken. */
  lemma HashtagBodySlice(s: Text, a: nat, b: nat)
    requires Valid(s) && a + 1 < b <= |s| && s[a] == HASH && ValidFrom(s, a)
    ensures Get(s[a..b], 1, b - a) == Some(s[a..b][1..])
  {
    AsciiIsBoundary(s, a);
    var slice := s[a..b];
    assert slice[1] == s[a + 1] && CharAt(s, a + 1);
    assert slice[1..b - a] == slice[1..];
  }

  lemma HitBecomes(c: Ctx, m: Match)
    requires ValidCtx(c) && ValidFrom(c.s, m.start) && m.start < m.end <= |c.s| && ValidFrom(c.s, m.end)
    requires MatchAt(c, m.start) == Some(m)
    ensures Becomes(c, Hit(m), Materialise(c.s, c.env, m))
  {
    MatchKindAt(c, m.start);
    SliceOf(c.s, m.start, m.end);
    match m.kind
    case LineBreak => assert c.s[m.start..m.end] == [c.s[m.start]];
    case Hashtag =>
      HashtagIff(c.s, m.start, m.end);
      HashtagBodySlice(c.s, m.start, m.end);
    case NostrUri => NostrIff(c.s, c.env, m.start, m.end);
    case Url => UrlBecomes(c.s, m.start, m.end);
  }

  lemma UrlBecomes(s: Text, i: nat, e: nat)
    requires i < |s| && UrlAt(s, i) == Some(Match(Url, i, e))
    ensures IsUrl(s, i, e)
  {
    var body := UrlBody(s, i).value;
    var raw := SkipWhile(IsBodyByte, s, body);
    UrlIff(s, i, body, raw, TrimmedUrlEnd(s, body));
  }

  /** In every stream, token by token. */
  lemma StreamMeaning(c: Ctx, k: nat)
    requires ValidCtx(c)
    ensures Sound(LexerOf(c)) && |TokensFrom(LexerOf(c), 0)| == |Pieces(LexerOf(c), 0, 0)|
    ensures k < |Pieces(LexerOf(c), 0, 0)| ==> Becomes(c, Pieces(LexerOf(c), 0, 0)[k], TokensFrom(LexerOf(c), 0)[k])
  {
    LexerSound(c);
    var l := LexerOf(c);
    PiecesSegment(l, 0, 0);
    var ps := Pieces(l, 0, 0);
    if k < |ps| {
      assert PieceOk(l, ps[k]);
      RenderAt(l, ps, k);
      if ps[k].Hit? {
        HitBecomes(c, ps[k].m);
      }
    }
  }
}
