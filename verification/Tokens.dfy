/** What the token stream of a text is, independently of how the iterator finds it. */
module Tokens {
  import opened Bytes
  import opened Utf8
  import opened TokenSpec

  /** One stretch of the source: plain text between affordances, or a recognised affordance. */
  datatype Piece = Gap(from: nat, to: nat) | Hit(m: Match)

  function Start(p: Piece): nat { match p case Gap(a, _) => a case Hit(m) => m.start }

  function End(p: Piece): nat { match p case Gap(_, b) => b case Hit(m) => m.end }

  function GapPiece(a: nat, b: nat): seq<Piece> { if a == b then [] else [Gap(a, b)] }

  /** Walk one character at a time, remembering where the current gap began. */
  ghost function Pieces(l: Lexer, gap: nat, at: nat): seq<Piece>
    requires Sound(l) && gap <= at <= |l.s| && ValidFrom(l.s, at)
    decreases |l.s| - at
  {
    if at == |l.s| then GapPiece(gap, at)
    else if l.at(at).Some? then
      var m := l.at(at).value;
      GapPiece(gap, at) + [Hit(m)] + Pieces(l, m.end, m.end)
    else Pieces(l, gap, at + LeadLength(l.s[at]))
  }

  // ----- the segmentation, stated without a scanner -----

  /** A piece is non-empty, cut on boundaries, and is either what `MatchAt` finds at its start or a stretch
      in which no boundary starts a match. */
  ghost predicate PieceOk(l: Lexer, p: Piece) {
    && Start(p) < End(p) <= |l.s|
    && ValidFrom(l.s, Start(p)) && ValidFrom(l.s, End(p))
    && (p.Hit? ==> l.at(p.m.start) == Some(p.m))
    && (p.Gap? ==> NoMatchIn(l, p.from, p.to))
  }

  ghost predicate NoMatchIn(l: Lexer, a: nat, b: nat)
    requires b <= |l.s|
  {
    forall i :: a <= i < b && ValidFrom(l.s, i) ==> l.at(i).None?
  }

  /** `ps` cuts `l.s[from..]` into consecutive good pieces, gaps being maximal. */
  ghost predicate IsSegmentation(l: Lexer, ps: seq<Piece>, from: nat) {
    && (ps == [] ==> from == |l.s|)
    && (ps != [] ==> Start(ps[0]) == from && End(ps[|ps| - 1]) == |l.s|)
    && (forall k :: 0 <= k < |ps| ==> PieceOk(l, ps[k]))
    && (forall k, j :: 0 <= k && j == k + 1 && j < |ps| ==>
          End(ps[k]) == Start(ps[j]) && !(ps[k].Gap? && ps[j].Gap?))
  }

  lemma ConsSegmentation(l: Lexer, p: Piece, ps: seq<Piece>)
    requires PieceOk(l, p) && IsSegmentation(l, ps, End(p))
    requires p.Gap? ==> ps == [] || ps[0].Hit?
    ensures IsSegmentation(l, [p] + ps, Start(p))
  {
    var qs := [p] + ps;
    forall k, j | 0 <= k && j == k + 1 && j < |qs|
      ensures End(qs[k]) == Start(qs[j]) && !(qs[k].Gap? && qs[j].Gap?)
    {
      if k > 0 {
        assert qs[k] == ps[k - 1] && qs[j] == ps[k];
      }
    }
    if ps != [] {
      assert qs[|qs| - 1] == ps[|ps| - 1];
    }
  }

  /** No boundary lies strictly inside a character, so a failed match extends the gap by the whole character. */
  lemma NoMatchStep(l: Lexer, gap: nat, at: nat)
    requires gap <= at < |l.s| && ValidFrom(l.s, at) && NoMatchIn(l, gap, at) && l.at(at).None?
    ensures NoMatchIn(l, gap, at + LeadLength(l.s[at]))
  {
    forall i | gap <= i < at + LeadLength(l.s[at]) && ValidFrom(l.s, i)
      ensures l.at(i).None?
    {
      if at < i {
        assert false;
      }
    }
  }

  lemma GapThenHit(l: Lexer, gap: nat, at: nat, m: Match, rest: seq<Piece>)
    requires at < |l.s| && ValidFrom(l.s, at) && SoundMatch(l.s, at, m) && l.at(at) == Some(m)
    requires IsSegmentation(l, rest, m.end)
    requires gap <= at && ValidFrom(l.s, gap) && NoMatchIn(l, gap, at)
    ensures IsSegmentation(l, GapPiece(gap, at) + [Hit(m)] + rest, gap)
  {
    ConsSegmentation(l, Hit(m), rest);
    if gap < m.start {
      assert PieceOk(l, Gap(gap, m.start));
      ConsSegmentation(l, Gap(gap, m.start), [Hit(m)] + rest);
    }
    Prefixed(GapPiece(gap, m.start), Hit(m), rest);
  }

  lemma Prefixed(a: seq<Piece>, p: Piece, rest: seq<Piece>)
    ensures a + [p] + rest == a + ([p] + rest)
    ensures a == [] ==> a + [p] + rest == [p] + rest
  {
  }

  lemma LastGap(l: Lexer, gap: nat)
    requires gap <= |l.s| && ValidFrom(l.s, gap) && NoMatchIn(l, gap, |l.s|)
    ensures IsSegmentation(l, GapPiece(gap, |l.s|), gap)
  {
  }

  /** The scan yields a segmentation: consecutive, non-empty, boundary-aligned, nothing overlooked. */
  lemma {:induction false} PiecesSegment(l: Lexer, gap: nat, at: nat)
    requires Sound(l) && gap <= at <= |l.s| && ValidFrom(l.s, gap) && ValidFrom(l.s, at)
    requires NoMatchIn(l, gap, at)
    ensures IsSegmentation(l, Pieces(l, gap, at), gap)
    decreases |l.s| - at
  {
    if at == |l.s| {
      LastGap(l, gap);
    } else if l.at(at).Some? {
      var m := l.at(at).value;
      assert SoundMatch(l.s, at, m);
      PiecesSegment(l, m.end, m.end);
      var rest := Pieces(l, m.end, m.end);
      GapThenHit(l, gap, at, m, rest);
      assert Pieces(l, gap, at) == GapPiece(gap, at) + [Hit(m)] + rest;
    } else {
      var next := at + LeadLength(l.s[at]);
      NoMatchStep(l, gap, at);
      PiecesSegment(l, gap, next);
    }
  }

  /** There is only one segmentation, so the one above determines the stream. */
  lemma {:induction false} SegmentationUnique(l: Lexer, ps: seq<Piece>, qs: seq<Piece>, from: nat)
    requires Sound(l) && IsSegmentation(l, ps, from) && IsSegmentation(l, qs, from)
    ensures ps == qs
    decreases |ps|
  {
    if ps == [] || qs == [] {
      assert ps == [] || PieceOk(l, ps[0]);
      assert qs == [] || PieceOk(l, qs[0]);
    } else {
      var p, q := ps[0], qs[0];
      assert PieceOk(l, p) && PieceOk(l, q);
      if p.Gap? && q.Gap? {
        if p.to < q.to {
          GapStops(l, ps, from);
        } else if q.to < p.to {
          GapStops(l, qs, from);
        }
      }
      assert p == q;
      TailSegmentation(l, ps, from);
      TailSegmentation(l, qs, from);
      SegmentationUnique(l, ps[1..], qs[1..], End(p));
      assert ps == [p] + ps[1..] && qs == [q] + qs[1..];
    }
  }

  lemma TailSegmentation(l: Lexer, ps: seq<Piece>, from: nat)
    requires IsSegmentation(l, ps, from) && ps != []
    ensures IsSegmentation(l, ps[1..], End(ps[0]))
  {
    var ts := ps[1..];
    if ts != [] {
      assert ts[|ts| - 1] == ps[|ps| - 1] && ts[0] == ps[1];
    }
    forall k, j | 0 <= k && j == k + 1 && j < |ts|
      ensures End(ts[k]) == Start(ts[j]) && !(ts[k].Gap? && ts[j].Gap?)
    {
      assert ts[k] == ps[k + 1] && ts[j] == ps[j + 1];
    }
  }

  /** A gap that stops short of the end of the text stops in front of a match. */
  lemma GapStops(l: Lexer, ps: seq<Piece>, from: nat)
    requires IsSegmentation(l, ps, from) && ps != [] && ps[0].Gap? && ps[0].to < |l.s|
    ensures ValidFrom(l.s, ps[0].to) && l.at(ps[0].to).Some?
  {
    assert |ps| > 1;
    assert PieceOk(l, ps[0]) && PieceOk(l, ps[1]);
  }

  // ----- tokens -----

  /** `materialise`: a slice off a boundary would give empty text, one that does not decode gives plain text. */
  function Materialise(s: Text, env: Env, m: Match): Token {
    match Get(s, m.start, m.end)
    case None => TText([])
    case Some(slice) =>
      match m.kind
      case LineBreak => TLineBreak
      case Hashtag =>
        (match Get(slice, 1, |slice|)
         case None => TText(slice)
         case Some(body) => THashtag(body))
      case NostrUri => if env.nip21(slice) then TNostr(slice) else TText(slice)
      case Url => if env.url(slice) then TUrl(slice) else TText(slice)
  }

  function Render(l: Lexer, p: Piece): Token {
    match p
    case Gap(a, b) => TText(if a <= b <= |l.s| then l.s[a..b] else [])
    case Hit(m) => Materialise(l.s, l.env, m)
  }

  function RenderAll(l: Lexer, ps: seq<Piece>): (ts: seq<Token>)
    ensures |ts| == |ps|
  {
    if ps == [] then [] else [Render(l, ps[0])] + RenderAll(l, ps[1..])
  }

  lemma {:induction false} RenderAt(l: Lexer, ps: seq<Piece>, k: nat)
    requires k < |ps|
    ensures RenderAll(l, ps)[k] == Render(l, ps[k])
  {
    if k > 0 {
      RenderAt(l, ps[1..], k - 1);
    }
  }

  /** The token stream of the text from boundary `at` on. */
  ghost function TokensFrom(l: Lexer, at: nat): seq<Token>
    requires Sound(l) && at <= |l.s| && ValidFrom(l.s, at)
  {
    RenderAll(l, Pieces(l, at, at))
  }

  function SourceAll(ts: seq<Token>): Text {
    if ts == [] then [] else Source(ts[0]) + SourceAll(ts[1..])
  }

  /** A hashtag match is on `#`, a line break match on one newline. */
  ghost predicate Faithful(l: Lexer) {
    forall i :: 0 <= i < |l.s| && l.at(i).Some? ==> FaithfulMatch(l.s, i, l.at(i).value)
  }

  predicate FaithfulMatch(s: Text, i: nat, m: Match)
    requires i < |s|
  {
    && (m.kind == LineBreak ==> s[i] == NEWLINE && m.end == i + 1)
    && (m.kind == Hashtag ==> s[i] == HASH)
  }

  lemma RenderSource(l: Lexer, p: Piece)
    requires Valid(l.s) && Faithful(l) && PieceOk(l, p)
    ensures Source(Render(l, p)) == l.s[Start(p)..End(p)]
  {
    if p.Hit? {
      BoundaryIffValidSuffix(l.s, p.m.start);
      BoundaryIffValidSuffix(l.s, p.m.end);
      assert FaithfulMatch(l.s, p.m.start, p.m);
      var slice := l.s[p.m.start..p.m.end];
      assert slice == [slice[0]] + slice[1..];
    }
  }

  lemma SourceCons(l: Lexer, p: Piece, ts: seq<Token>)
    requires Valid(l.s) && Faithful(l) && PieceOk(l, p) && SourceAll(ts) == l.s[End(p)..]
    ensures SourceAll([Render(l, p)] + ts) == l.s[Start(p)..]
  {
    RenderSource(l, p);
    assert ([Render(l, p)] + ts)[1..] == ts;
    assert l.s[Start(p)..] == l.s[Start(p)..End(p)] + l.s[End(p)..];
  }

  /** Losslessness: the sources of the tokens concatenate to exactly the text. */
  lemma {:induction false} Lossless(l: Lexer, ps: seq<Piece>, from: nat)
    requires Valid(l.s) && Faithful(l) && from <= |l.s| && IsSegmentation(l, ps, from)
    ensures SourceAll(RenderAll(l, ps)) == l.s[from..]
    decreases |ps|
  {
    if ps != [] {
      var p := ps[0];
      assert PieceOk(l, p);
      TailSegmentation(l, ps, from);
      Lossless(l, ps[1..], End(p));
      SourceCons(l, p, RenderAll(l, ps[1..]));
    }
  }

  // ----- line breaks -----

  ghost function LineBreaks(ts: seq<Token>): nat {
    if ts == [] then 0 else (if ts[0] == TLineBreak then 1 else 0) + LineBreaks(ts[1..])
  }

  /** Every newline starts a line-break match, and no other match reaches over one. */
  ghost predicate Isolating(l: Lexer) {
    && (forall i :: 0 <= i < |l.s| && ValidFrom(l.s, i) && l.s[i] == NEWLINE ==>
          l.at(i) == Some(Match(LineBreak, i, i + 1)))
    && (forall i, k ::
          0 <= i <= k < |l.s| && ValidFrom(l.s, i) && l.at(i).Some? && l.at(i).value.kind != LineBreak
          && k < l.at(i).value.end
          ==> l.s[k] != NEWLINE)
  }

  /** Then a newline occurs in no other token. */
  lemma NewlineOnlyInLineBreak(l: Lexer, p: Piece)
    requires Sound(l) && Faithful(l) && Isolating(l) && PieceOk(l, p)
    ensures Render(l, p) == TLineBreak || NEWLINE !in Source(Render(l, p))
    ensures Count(NEWLINE, Source(Render(l, p))) == if Render(l, p) == TLineBreak then 1 else 0
  {
    RenderSource(l, p);
    if Render(l, p) != TLineBreak {
      forall k | Start(p) <= k < End(p)
        ensures l.s[k] != NEWLINE
      {
        if l.s[k] == NEWLINE && p.Gap? {
          AsciiIsBoundary(l.s, k);
          assert false;
        }
      }
      assert NEWLINE !in l.s[Start(p)..End(p)];
      CountAbsent(NEWLINE, Source(Render(l, p)));
    }
  }

  lemma NewlinesSplit(l: Lexer, p: Piece)
    requires Sound(l) && Faithful(l) && Isolating(l) && PieceOk(l, p)
    ensures Count(NEWLINE, l.s[Start(p)..])
            == (if Render(l, p) == TLineBreak then 1 else 0) + Count(NEWLINE, l.s[End(p)..])
  {
    RenderSource(l, p);
    NewlineOnlyInLineBreak(l, p);
    assert l.s[Start(p)..] == l.s[Start(p)..End(p)] + l.s[End(p)..];
    CountConcat(NEWLINE, l.s[Start(p)..End(p)], l.s[End(p)..]);
  }

  /** One line-break token per newline byte. */
  lemma {:induction false} LineBreakCount(l: Lexer, ps: seq<Piece>, from: nat)
    requires Sound(l) && Faithful(l) && Isolating(l) && from <= |l.s| && IsSegmentation(l, ps, from)
    ensures LineBreaks(RenderAll(l, ps)) == Count(NEWLINE, l.s[from..])
    decreases |ps|
  {
    if ps != [] {
      var p := ps[0];
      assert PieceOk(l, p);
      TailSegmentation(l, ps, from);
      LineBreakCount(l, ps[1..], End(p));
      NewlinesSplit(l, p);
    }
  }
}
