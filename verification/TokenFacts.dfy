/** The promises of the tokeniser's documentation, for every text, option set and foreign parser. */
module TokenFacts {
  import opened Bytes
  import opened Utf8
  import opened TokenSpec
  import opened Tokens

  /** Which recogniser a match came from, read off its kind. */
  lemma MatchKindAt(c: Ctx, i: nat)
    requires ValidFrom(c.s, i) && i < |c.s| && MatchAt(c, i).Some?
    ensures var m := MatchAt(c, i).value;
            match m.kind
            case LineBreak => c.opts.lineBreaks && c.s[i] == NEWLINE && m.end == i + 1
            case Hashtag => c.opts.hashtags && c.s[i] == HASH && HashtagAt(c.s, i) == Some(m)
            case NostrUri => c.opts.nostrUris && NostrAt(c.s, c.env, i) == Some(m)
            case Url => c.opts.urls && UrlAt(c.s, i) == Some(m)
  {
  }

  lemma LexerFaithful(c: Ctx)
    ensures Faithful(LexerOf(c))
  {
    forall i | 0 <= i < |c.s| && LexerOf(c).at(i).Some?
      ensures FaithfulMatch(c.s, i, LexerOf(c).at(i).value)
    {
      MatchKindAt(c, i);
    }
  }

  /** No boundary inside a hashtag body holds a forbidden character. */
  lemma {:induction false} HashtagBody(s: Text, e: nat, k: nat)
    requires e <= k && e <= |s| && ValidFrom(s, e) && ValidFrom(s, k) && k < HashtagEnd(s, e)
    ensures !IsForbidden(Scalar(s, k))
    decreases k - e
  {
    if e < k {
      HashtagBody(s, e + LeadLength(s[e]), k);
    }
  }

  /** The body stops at the end of the text or in front of a forbidden character. */
  lemma {:induction false} HashtagMaximal(s: Text, e: nat)
    requires e <= |s| && ValidFrom(s, e)
    ensures var r := HashtagEnd(s, e); r == |s| || IsForbidden(Scalar(s, r))
    decreases |s| - e
  {
    if e < |s| && !IsForbidden(Scalar(s, e)) {
      HashtagMaximal(s, e + LeadLength(s[e]));
    }
  }

  /** A hashtag stands at `i` and ends at `e`: anchored, not empty, and its body is the maximal run of
      characters a hashtag may contain. */
  ghost predicate IsHashtag(s: Text, i: nat, e: nat) {
    && i + 1 < e <= |s| && s[i] == HASH && (i == 0 || IsWhitespace(s[i - 1]))
    && ValidFrom(s, e)
    && (forall k :: i < k < e && ValidFrom(s, k) ==> !IsForbidden(Scalar(s, k)))
    && (e == |s| || IsForbidden(Scalar(s, e)))
  }

  /** The recogniser finds exactly the hashtags of the documentation. */
  lemma HashtagIff(s: Text, i: nat, e: nat)
    requires ValidFrom(s, i) && i < |s|
    ensures HashtagAt(s, i) == Some(Match(Hashtag, i, e)) <==> IsHashtag(s, i, e)
  {
    if HashtagAt(s, i) == Some(Match(Hashtag, i, e)) {
      HashtagMaximal(s, i + 1);
      forall k | i < k < e && ValidFrom(s, k)
        ensures !IsForbidden(Scalar(s, k))
      {
        HashtagBody(s, i + 1, k);
      }
    }
    if IsHashtag(s, i, e) {
      var r := HashtagEnd(s, i + 1);
      HashtagMaximal(s, i + 1);
      if e < r {
        HashtagBody(s, i + 1, e);
      }
      assert r == e;
    }
  }

  /** A nostr URI stands at `i` and ends at `e`: the prefix and the maximal non-empty run of lowercase letters, `1` and
      bech32 characters after it. */
  ghost predicate IsNostrUri(s: Text, env: Env, i: nat, e: nat) {
    && HasAt(s, i, NOSTR_PREFIX) && i + |NOSTR_PREFIX| < e <= |s|
    && (forall k :: i + |NOSTR_PREFIX| <= k < e ==> IsNostrByte(env, s[k]))
    && (e < |s| ==> !IsNostrByte(env, s[e]))
  }

  /** The recogniser finds exactly those. */
  lemma NostrIff(s: Text, env: Env, i: nat, e: nat)
    requires i < |s|
    ensures NostrAt(s, env, i) == Some(Match(NostrUri, i, e)) <==> IsNostrUri(s, env, i, e)
    ensures NostrAt(s, env, i).Some? ==>
              NostrAt(s, env, i).value.kind == NostrUri && NostrAt(s, env, i).value.start == i
  {
    if HasAt(s, i, NOSTR_PREFIX) {
      var body := i + |NOSTR_PREFIX|;
      var test := NostrByteTest(env);
      assert forall b: byte :: test(b) == IsNostrByte(env, b);
      if IsNostrUri(s, env, i, e) {
        SkipWhileIs(test, s, body, e);
      }
    }
  }

  /** The parts of a URL at `i`: scheme up to `body - 3`, `://`, the maximal run of URL bytes up to `raw`,
      of which the punctuation from `trim` on is not kept. */
  ghost predicate UrlParts(s: Text, i: nat, body: nat, raw: nat, trim: nat) {
    && i + 4 <= body <= trim <= raw <= |s| && body < raw
    && IsAlphabetic(s[i]) && (forall k :: i < k < body - 3 ==> IsSchemeByte(s[k])) && HasAt(s, body - 3, SEPARATOR)
    && (forall k :: body <= k < raw ==> IsBodyByte(s[k])) && (raw < |s| ==> !IsBodyByte(s[raw]))
    && (forall k :: trim <= k < raw ==> IsTrailingPunct(s[k])) && (trim == body || !IsTrailingPunct(s[trim - 1]))
  }

  /** The recogniser finds a URL exactly where these parts exist, and then ends at `trim`, one byte earlier
      when that drops a closing parenthesis in excess. */
  lemma UrlIff(s: Text, i: nat, body: nat, raw: nat, trim: nat)
    requires i < |s|
    ensures UrlParts(s, i, body, raw, trim)
            <==> (UrlAt(s, i).Some? && UrlBody(s, i) == Some(body) && raw == SkipWhile(IsBodyByte, s, body)
                  && trim == TrimmedUrlEnd(s, body))
    ensures UrlParts(s, i, body, raw, trim) ==>
              UrlAt(s, i) == Some(Match(Url, i,
                if s[trim - 1] == CLOSE_PAREN && Unbalanced(s, i, trim) then trim - 1 else trim))
  {
    if UrlParts(s, i, body, raw, trim) {
      PartsFound(s, i, body, raw, trim);
    } else if UrlBody(s, i) == Some(body) && raw == SkipWhile(IsBodyByte, s, body) && body < raw {
      FoundParts(s, i, body, raw);
    }
  }

  lemma PartsFound(s: Text, i: nat, body: nat, raw: nat, trim: nat)
    requires UrlParts(s, i, body, raw, trim)
    ensures UrlBody(s, i) == Some(body) && SkipWhile(IsBodyByte, s, body) == raw && TrimmedUrlEnd(s, body) == trim
  {
    assert s[body - 3..body][0] == s[body - 3];
    SkipWhileIs(IsSchemeByte, s, i + 1, body - 3);
    SkipWhileIs(IsBodyByte, s, body, raw);
    TrimEndIs(s, body, raw, trim);
  }

  lemma FoundParts(s: Text, i: nat, body: nat, raw: nat)
    requires i < |s| && UrlBody(s, i) == Some(body) && raw == SkipWhile(IsBodyByte, s, body) && body < raw
    ensures UrlParts(s, i, body, raw, TrimmedUrlEnd(s, body))
  {
    FoundHead(s, i, body);
    FoundBody(s, body, raw);
  }

  lemma FoundHead(s: Text, i: nat, body: nat)
    requires i < |s| && UrlBody(s, i) == Some(body)
    ensures IsAlphabetic(s[i]) && (forall k :: i < k < body - 3 ==> IsSchemeByte(s[k])) && HasAt(s, body - 3, SEPARATOR)
  {
  }

  lemma FoundBody(s: Text, body: nat, raw: nat)
    requires body <= |s| && raw == SkipWhile(IsBodyByte, s, body)
    ensures (forall k :: body <= k < raw ==> IsBodyByte(s[k])) && (raw < |s| ==> !IsBodyByte(s[raw]))
  {
  }

  lemma {:induction false} TrimEndIs(s: Text, floor: nat, e: nat, r: nat)
    requires floor <= r <= e <= |s| && (forall k :: r <= k < e ==> IsTrailingPunct(s[k]))
    requires r == floor || !IsTrailingPunct(s[r - 1])
    ensures TrimEnd(s, floor, e) == r
    decreases e
  {
    if r < e {
      TrimEndIs(s, floor, e - 1, r);
    }
  }

  lemma NewlineNotInMatch(c: Ctx, i: nat, k: nat)
    requires ValidCtx(c) && ValidFrom(c.s, i) && i <= k < |c.s|
    requires MatchAt(c, i).Some? && MatchAt(c, i).value.kind != LineBreak && k < MatchAt(c, i).value.end
    ensures c.s[k] != NEWLINE
  {
    MatchKindAt(c, i);
    var m := MatchAt(c, i).value;
    if m.kind == Hashtag {
      if c.s[k] == NEWLINE {
        AsciiIsBoundary(c.s, k);
        HashtagBody(c.s, i + 1, k);
        assert false;
      }
    } else if m.kind == NostrUri {
      NostrBytes(c, i);
    } else {
      UrlBytes(c.s, i);
    }
  }

  lemma LexerIsolating(c: Ctx)
    requires ValidCtx(c) && c.opts.lineBreaks
    ensures Isolating(LexerOf(c))
  {
    var l := LexerOf(c);
    forall i, k | 0 <= i <= k < |c.s| && ValidFrom(c.s, i) && l.at(i).Some?
                  && l.at(i).value.kind != LineBreak && k < l.at(i).value.end
      ensures c.s[k] != NEWLINE
    {
      NewlineNotInMatch(c, i, k);
    }
  }

  /** The scan's pieces are the one segmentation of the text: consecutive, non-empty, cut on boundaries, every
      match where a recogniser fires, and no gap hiding a boundary where one would have. */
  lemma SegmentationIff(c: Ctx, ps: seq<Piece>)
    requires ValidCtx(c)
    ensures Sound(LexerOf(c))
    ensures IsSegmentation(LexerOf(c), ps, 0) <==> ps == Pieces(LexerOf(c), 0, 0)
  {
    LexerSound(c);
    var l := LexerOf(c);
    PiecesSegment(l, 0, 0);
    if IsSegmentation(l, ps, 0) {
      SegmentationUnique(l, ps, Pieces(l, 0, 0), 0);
    }
  }

  /** The stream is lossless, no token is empty, and line breaks account for every newline. */
  lemma StreamFacts(c: Ctx)
    requires ValidCtx(c)
    ensures Sound(LexerOf(c))
    ensures var ts := TokensFrom(LexerOf(c), 0);
            && SourceAll(ts) == c.s
            && (forall k :: 0 <= k < |ts| ==> Source(ts[k]) != [])
            && (c.opts.lineBreaks ==> LineBreaks(ts) == Count(NEWLINE, c.s))
            && (c.opts.lineBreaks ==>
                  forall k :: 0 <= k < |ts| && ts[k] != TLineBreak ==> NEWLINE !in Source(ts[k]))
  {
    LexerSound(c);
    LexerFaithful(c);
    if c.opts.lineBreaks {
      LexerIsolating(c);
    }
    GenericFacts(LexerOf(c), c.opts.lineBreaks);
  }

  lemma GenericFacts(l: Lexer, breaks: bool)
    requires Sound(l) && Faithful(l) && (breaks ==> Isolating(l))
    ensures var ts := TokensFrom(l, 0);
            && SourceAll(ts) == l.s
            && (forall k :: 0 <= k < |ts| ==> Source(ts[k]) != [])
            && (breaks ==> LineBreaks(ts) == Count(NEWLINE, l.s))
            && (breaks ==> forall k :: 0 <= k < |ts| && ts[k] != TLineBreak ==> NEWLINE !in Source(ts[k]))
  {
    PiecesSegment(l, 0, 0);
    var ps := Pieces(l, 0, 0);
    var ts := TokensFrom(l, 0);
    Lossless(l, ps, 0);
    assert l.s[0..] == l.s;
    forall k | 0 <= k < |ts|
      ensures Source(ts[k]) != []
      ensures breaks && ts[k] != TLineBreak ==> NEWLINE !in Source(ts[k])
    {
      assert PieceOk(l, ps[k]);
      RenderAt(l, ps, k);
      RenderSource(l, ps[k]);
      if breaks {
        NewlineOnlyInLineBreak(l, ps[k]);
      }
    }
    if breaks {
      LineBreakCount(l, ps, 0);
    }
  }

  // ----- trailing punctuation of URLs -----

  /** "http://a.)" */
  const PAREN_AFTER_DOT: Text := [0x68, 0x74, 0x74, 0x70, 0x3A, 0x2F, 0x2F, 0x61, 0x2E, 0x29]

  /** The trim runs before the parenthesis is dropped, so a match can still end in punctuation. */
  lemma UrlMayEndInPunctuation()
    ensures UrlAt(PAREN_AFTER_DOT, 0) == Some(Match(Url, 0, 9)) && IsTrailingPunct(PAREN_AFTER_DOT[8])
  {
    var s := PAREN_AFTER_DOT;
    ParenBody(s);
    assert s[0..10] == s[..9] + [CLOSE_PAREN];
    CountConcat(CLOSE_PAREN, s[..9], [CLOSE_PAREN]);
    assert Count(CLOSE_PAREN, [CLOSE_PAREN]) == 1;
    CountAbsent(OPEN_PAREN, s[0..10]);
  }

  lemma ParenBody(s: Text)
    requires s == PAREN_AFTER_DOT
    ensures UrlBody(s, 0) == Some(7) && SkipWhile(IsBodyByte, s, 7) == 10 && TrimmedUrlEnd(s, 7) == 10
  {
    SkipWhileIs(IsSchemeByte, s, 1, 4);
    assert s[4..7] == SEPARATOR;
    SkipWhileIs(IsBodyByte, s, 7, 10);
  }

  /** It does so exactly when the trimmed body ends in a superfluous `)` that itself follows punctuation. */
  lemma UrlEndsInPunctuationIff(s: Text, i: nat)
    requires i < |s| && UrlAt(s, i).Some?
    ensures var body := UrlBody(s, i).value;
            var e := TrimmedUrlEnd(s, body);
            var m := UrlAt(s, i).value;
            (m.end > body && IsTrailingPunct(s[m.end - 1]))
            <==> (e >= body + 2 && s[e - 1] == CLOSE_PAREN && Unbalanced(s, i, e) && IsTrailingPunct(s[e - 2]))
  {
    UrlBytes(s, i);
  }
}
