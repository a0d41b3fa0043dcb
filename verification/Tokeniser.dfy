/** The resumable iterator `NostrParserIter`, with its one-slot `pending` buffer. */
module Tokeniser {
  import opened Bytes
  import opened Utf8
  import opened TokenSpec
  import opened Tokens
  import opened TokenFacts

  class NostrParserIter {
    const c: Ctx
    var pos: nat
    var pending: Option<Match>

    /** The text's lexer, fixed at construction. */
    ghost const l: Lexer

    /** `l` answers as the recognisers do. */
    ghost predicate Agrees() {
      && l.s == c.s && l.env == c.env
      && (forall i {:trigger MatchAt(c, i)} :: 0 <= i < |c.s| && ValidFrom(c.s, i) ==> l.at(i) == MatchAt(c, i))
    }

    /** `pos` is a boundary, and a parked match is the one that starts there. */
    ghost predicate Valid()
      reads this
    {
      && ValidCtx(c) && Agrees() && Sound(l)
      && pos <= |c.s| && ValidFrom(c.s, pos)
      && (pending.Some? ==> pos < |c.s| && l.at(pos) == pending)
    }

    /** The tokens still to come. */
    ghost function Remaining(): seq<Token>
      reads this
      requires Valid()
    {
      TokensFrom(l, pos)
    }

    constructor (c: Ctx)
      requires ValidCtx(c)
      ensures Valid() && this.c == c && l == LexerOf(c) && pos == 0 && pending == None
    {
      this.c := c;
      l := LexerOf(c);
      pos := 0;
      pending := None;
      new;
      LexerSound(c);
    }

    /** Each call yields exactly the next token of the stream and moves `pos` forward; `None` means the end. */
    method Next() returns (r: Option<Token>)
      requires Valid()
      modifies this
      ensures Valid()
      ensures r.Some? ==> old(Remaining()) == [r.value] + Remaining() && old(pos) < pos
      ensures r.None? ==> old(Remaining()) == [] && pos == old(pos) == |c.s| && pending == None
    {
      if pending.Some? {
        var mat := pending.value;
        pending := None;
        var t := EmitMatch(mat);
        return Some(t);
      }
      if pos >= |c.s| {
        return None;
      }
      var found := NextMatch();
      if found.Some? {
        var mat := found.value;
        if mat.start > pos {
          var gap := EmitText(mat.start);
          pending := found;
          return Some(gap);
        }
        var t := EmitMatch(mat);
        return Some(t);
      }
      var rest := EmitText(|c.s|);
      r := Some(rest);
    }

    /** Step over a match that starts at `pos`. */
    method EmitMatch(mat: Match) returns (t: Token)
      requires Valid() && pending == None && pos < |c.s| && l.at(pos) == Some(mat)
      modifies this
      ensures Valid() && pending == None && old(pos) < pos
      ensures old(Remaining()) == [t] + Remaining()
    {
      StreamAtMatch(l, pos);
      pos := mat.end;
      t := Materialise(c.s, c.env, mat);
    }

    /** Flush the plain text up to `stop`; both slice ends are boundaries, so the slice never fails. */
    method EmitText(stop: nat) returns (t: Token)
      requires Valid() && pending == None && pos < stop <= |c.s| && ValidFrom(c.s, stop)
      requires NoMatchIn(l, pos, stop) && (stop < |c.s| ==> l.at(stop).Some?)
      modifies this
      ensures Valid() && pending == None && pos == stop
      ensures old(Remaining()) == [t] + Remaining()
    {
      StreamAfterGap(l, pos, stop);
      BoundaryIffValidSuffix(c.s, pos);
      BoundaryIffValidSuffix(c.s, stop);
      var gap := Get(c.s, pos, stop);
      assert gap.Some?;
      pos := stop;
      t := TText(gap.value);
    }

    /** The first affordance at or after `pos`: everything before it is a gap. */
    method NextMatch() returns (r: Option<Match>)
      requires Valid()
      ensures r.Some? ==>
                && pos <= r.value.start && PieceOk(l, Hit(r.value)) && NoMatchIn(l, pos, r.value.start)
      ensures r.None? ==> NoMatchIn(l, pos, |c.s|)
    {
      var search := pos;
      while search < |c.s|
        invariant pos <= search <= |c.s| && ValidFrom(c.s, search)
        invariant NoMatchIn(l, pos, search)
      {
        r := MatchHere(search);
        if r.Some? {
          return;
        }
        NoMatchStep(l, pos, search);
        // `text[byte_index..]` panics off a boundary.
        BoundaryIffValidSuffix(c.s, search);
        assert IsBoundary(c.s, search);
        search := search + LeadLength(c.s[search]);
      }
      r := None;
    }

    /** The body of the search loop: the four recognisers in priority order. */
    method MatchHere(search: nat) returns (r: Option<Match>)
      requires ValidCtx(c) && Agrees() && search < |c.s| && ValidFrom(c.s, search)
      ensures r == l.at(search)
    {
      assert l.at(search) == MatchAt(c, search);
      if c.opts.lineBreaks && c.s[search] == NEWLINE {
        return Some(Match(LineBreak, search, search + 1));
      }
      r := None;
      if c.opts.hashtags {
        r := TryHashtag(search);
      }
      if r.None? && c.opts.nostrUris {
        r := TryNostrUri(search);
      }
      if r.None? && c.opts.urls {
        r := TryUrl(search);
      }
    }

    method TryHashtag(start: nat) returns (r: Option<Match>)
      requires ValidCtx(c) && start < |c.s| && ValidFrom(c.s, start)
      ensures r == HashtagAt(c.s, start)
    {
      if c.s[start] != HASH {
        return None;
      }
      if start > 0 && !IsWhitespace(c.s[start - 1]) {
        return None;
      }
      var end := ScanHashtag(start + 1);
      if end == start + 1 {
        return None;
      }
      r := Some(Match(Hashtag, start, end));
    }

    /** The character loop of `try_hashtag`; each position is a boundary, so the suffix slice never fails. */
    method ScanHashtag(from: nat) returns (end: nat)
      requires ValidCtx(c) && from <= |c.s| && ValidFrom(c.s, from)
      ensures end == HashtagEnd(c.s, from)
    {
      end := from;
      while end < |c.s|
        invariant from <= end <= |c.s| && ValidFrom(c.s, end)
        invariant HashtagEnd(c.s, end) == HashtagEnd(c.s, from)
      {
        BoundaryIffValidSuffix(c.s, end);
        assert Get(c.s, end, |c.s|).Some?;
        if IsForbidden(Scalar(c.s, end)) {
          break;
        }
        end := end + LeadLength(c.s[end]);
      }
    }

    method TryNostrUri(start: nat) returns (r: Option<Match>)
      requires start < |c.s|
      ensures r == NostrAt(c.s, c.env, start)
    {
      if !HasAt(c.s, start, NOSTR_PREFIX) {
        return None;
      }
      var bodyStart := start + |NOSTR_PREFIX|;
      var end := Scan(NostrByteTest(c.env), bodyStart);
      if end == bodyStart {
        return None;
      }
      r := Some(Match(NostrUri, start, end));
    }

    method TryUrl(start: nat) returns (r: Option<Match>)
      requires start < |c.s|
      ensures r == UrlAt(c.s, start)
    {
      var found := FindUrlBody(start);
      if found.None? {
        return None;
      }
      var body := found.value;
      var end := Scan(IsBodyByte, body);
      if end <= body {
        return None;
      }
      end := TrimPunctuation(body, end);
      end := DropParen(start, end);
      r := Some(Match(Url, start, end));
    }

    /** The parenthesis balance of `try_url`. */
    method DropParen(start: nat, from: nat) returns (end: nat)
      requires start < from <= |c.s|
      ensures end == UrlStop(c.s, start, from)
    {
      end := from;
      if c.s[end - 1] == CLOSE_PAREN {
        var opens := Count(OPEN_PAREN, c.s[start..end]);
        var closes := Count(CLOSE_PAREN, c.s[start..end]);
        if closes > opens {
          end := end - 1;
        }
      }
    }

    /** The scheme scan and the `://` test of `try_url`. */
    method FindUrlBody(start: nat) returns (r: Option<nat>)
      requires start < |c.s|
      ensures r == UrlBody(c.s, start)
    {
      if !IsAlphabetic(c.s[start]) {
        return None;
      }
      var afterScheme := Scan(IsSchemeByte, start + 1);
      if !HasAt(c.s, afterScheme, SEPARATOR) {
        return None;
      }
      r := Some(afterScheme + |SEPARATOR|);
    }

    /** The sentence-punctuation loop of `try_url`. */
    method TrimPunctuation(floor: nat, from: nat) returns (end: nat)
      requires floor <= from <= |c.s|
      ensures end == TrimEnd(c.s, floor, from)
    {
      end := from;
      while end > floor && IsTrailingPunct(c.s[end - 1])
        invariant floor <= end <= |c.s|
        invariant TrimEnd(c.s, floor, end) == TrimEnd(c.s, floor, from)
      {
        end := end - 1;
      }
    }

    /** A `while let Some(&b) = bytes.get(end)` scan. */
    method Scan(p: byte -> bool, from: nat) returns (end: nat)
      requires from <= |c.s|
      ensures end == SkipWhile(p, c.s, from)
    {
      end := from;
      while end < |c.s| && p(c.s[end])
        invariant from <= end <= |c.s|
        invariant SkipWhile(p, c.s, end) == SkipWhile(p, c.s, from)
      {
        end := end + 1;
      }
    }
  }

  // ----- how the stream unfolds -----

  lemma StreamAtMatch(l: Lexer, pos: nat)
    requires Sound(l) && pos < |l.s| && ValidFrom(l.s, pos) && l.at(pos).Some?
    ensures var m := l.at(pos).value;
            TokensFrom(l, pos) == [Materialise(l.s, l.env, m)] + TokensFrom(l, m.end)
  {
    var m := l.at(pos).value;
    assert Pieces(l, pos, pos) == [Hit(m)] + Pieces(l, m.end, m.end);
  }

  lemma StreamAfterGap(l: Lexer, pos: nat, stop: nat)
    requires Sound(l) && pos < stop <= |l.s| && ValidFrom(l.s, pos) && ValidFrom(l.s, stop)
    requires NoMatchIn(l, pos, stop) && (stop < |l.s| ==> l.at(stop).Some?)
    ensures TokensFrom(l, pos) == [TText(l.s[pos..stop])] + TokensFrom(l, stop)
  {
    SkipGap(l, pos, pos, stop);
    PiecesAtStop(l, pos, stop);
  }

  lemma PiecesAtStop(l: Lexer, gap: nat, stop: nat)
    requires Sound(l) && gap < stop <= |l.s| && ValidFrom(l.s, stop) && (stop < |l.s| ==> l.at(stop).Some?)
    ensures Pieces(l, gap, stop) == [Gap(gap, stop)] + Pieces(l, stop, stop)
  {
    if stop < |l.s| {
      var m := l.at(stop).value;
      var rest := Pieces(l, m.end, m.end);
      assert [Gap(gap, stop)] + [Hit(m)] + rest == [Gap(gap, stop)] + ([Hit(m)] + rest);
    }
  }

  /** Over a stretch without matches the walk only moves its cursor. */
  lemma {:induction false} SkipGap(l: Lexer, gap: nat, at: nat, stop: nat)
    requires Sound(l) && gap <= at <= stop <= |l.s| && ValidFrom(l.s, at) && ValidFrom(l.s, stop)
    requires NoMatchIn(l, at, stop)
    ensures Pieces(l, gap, at) == Pieces(l, gap, stop)
    decreases stop - at
  {
    if at < stop {
      assert l.at(at).None?;
      assert stop < |l.s| ==> !IsContinuation(l.s[stop]);
      SkipGap(l, gap, at + LeadLength(l.s[at]), stop);
    }
  }

  // ----- draining the iterator -----

  /** `NostrParser::parse(text, opts).collect()`. */
  method Collect(c: Ctx) returns (tokens: seq<Token>)
    requires ValidCtx(c)
    ensures Sound(LexerOf(c)) && tokens == TokensFrom(LexerOf(c), 0)
    ensures SourceAll(tokens) == c.s
    ensures forall k :: 0 <= k < |tokens| ==> Source(tokens[k]) != []
    ensures c.opts.lineBreaks ==> LineBreaks(tokens) == Count(NEWLINE, c.s)
    ensures c.opts.lineBreaks ==>
              forall k :: 0 <= k < |tokens| && tokens[k] != TLineBreak ==> NEWLINE !in Source(tokens[k])
  {
    var it := new NostrParserIter(c);
    tokens := [];
    var done := false;
    while !done
      invariant it.Valid() && it.c == c && it.l == LexerOf(c) && fresh(it)
      invariant tokens + it.Remaining() == TokensFrom(it.l, 0)
      invariant done ==> it.Remaining() == []
      decreases !done, |c.s| - it.pos
    {
      var t := it.Next();
      if t.None? {
        done := true;
      } else {
        tokens := tokens + [t.value];
      }
    }
    StreamFacts(c);
  }
}
