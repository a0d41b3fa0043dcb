/** The character classes of the tokeniser, by the characters themselves, and UTF-8 by the table of RFC 3629. */
module CharTables {
  import opened Bytes
  import opened Utf8
  import opened TokenSpec

  // ----- UTF-8 -----

  /** A Unicode scalar value: a code point that is no surrogate. */
  predicate IsScalar(cp: int) { 0 <= cp < 0xD800 || 0xE000 <= cp < 0x11_0000 }

  /** The table of section 3 of RFC 3629. */
  function Encoded(cp: int): Text
    requires IsScalar(cp)
  {
    if cp < 0x80 then [cp]
    else if cp < 0x800 then [0xC0 + cp / 64, 0x80 + cp % 64]
    else if cp < 0x1_0000 then [0xE0 + cp / 4096, 0x80 + cp / 64 % 64, 0x80 + cp % 64]
    else [0xF0 + cp / 262144, 0x80 + cp / 4096 % 64, 0x80 + cp / 64 % 64, 0x80 + cp % 64]
  }

  /** The encoding of `cp` stands at `i`. */
  predicate StandsAt(s: Text, i: nat, cp: int) {
    IsScalar(cp) && i + |Encoded(cp)| <= |s| && s[i..i + |Encoded(cp)|] == Encoded(cp)
  }

  lemma TwoBytes(a: int, b: int)
    requires 2 <= a < 32 && 0 <= b < 64
    ensures var cp := a * 64 + b; 0x80 <= cp < 0x800 && cp / 64 == a && cp % 64 == b
  {
  }

  lemma ThreeBytes(a: int, b: int, c: int)
    requires 0 <= a < 16 && 0 <= b < 64 && 0 <= c < 64
    ensures var cp := a * 4096 + b * 64 + c; cp / 4096 == a && cp / 64 % 64 == b && cp % 64 == c
  {
    var cp := a * 4096 + b * 64 + c;
    assert cp / 64 == a * 64 + b;
  }

  lemma FourBytes(a: int, b: int, c: int, d: int)
    requires 0 <= a < 8 && 0 <= b < 64 && 0 <= c < 64 && 0 <= d < 64
    ensures var cp := a * 262144 + b * 4096 + c * 64 + d;
            cp / 262144 == a && cp / 4096 % 64 == b && cp / 64 % 64 == c && cp % 64 == d
  {
    var cp := a * 262144 + b * 4096 + c * 64 + d;
    assert cp / 64 == a * 4096 + b * 64 + c && cp / 4096 == a * 64 + b;
  }

  lemma Decoded2(s: Text, i: nat)
    requires CharAt(s, i) && LeadLength(s[i]) == 2
    ensures StandsAt(s, i, Scalar(s, i)) && |Encoded(Scalar(s, i))| == 2
  {
    TwoBytes(s[i] as int - 0xC0, s[i + 1] as int - 0x80);
    assert s[i..i + 2] == [s[i], s[i + 1]];
  }

  lemma Decoded3(s: Text, i: nat)
    requires CharAt(s, i) && LeadLength(s[i]) == 3
    ensures StandsAt(s, i, Scalar(s, i)) && |Encoded(Scalar(s, i))| == 3
  {
    ThreeBytes(s[i] as int - 0xE0, s[i + 1] as int - 0x80, s[i + 2] as int - 0x80);
    assert s[i..i + 3] == [s[i], s[i + 1], s[i + 2]];
  }

  lemma Decoded4(s: Text, i: nat)
    requires CharAt(s, i) && LeadLength(s[i]) == 4
    ensures StandsAt(s, i, Scalar(s, i)) && |Encoded(Scalar(s, i))| == 4
  {
    FourBytes(s[i] as int - 0xF0, s[i + 1] as int - 0x80, s[i + 2] as int - 0x80, s[i + 3] as int - 0x80);
    assert s[i..i + 4] == [s[i], s[i + 1], s[i + 2], s[i + 3]];
  }

  /** What decodes is the encoding of what it decodes to. */
  lemma DecodedStands(s: Text, i: nat)
    requires CharAt(s, i)
    ensures StandsAt(s, i, Scalar(s, i)) && |Encoded(Scalar(s, i))| == LeadLength(s[i])
  {
    var n := LeadLength(s[i]);
    if n == 1 {
      assert s[i..i + 1] == [s[i]];
    } else if n == 2 {
      Decoded2(s, i);
    } else if n == 3 {
      Decoded3(s, i);
    } else {
      Decoded4(s, i);
    }
  }

  lemma Standing2(s: Text, i: nat, cp: int)
    requires 0x80 <= cp < 0x800 && i + 2 <= |s| && s[i] == 0xC0 + cp / 64 && s[i + 1] == 0x80 + cp % 64
    ensures CharAt(s, i) && Scalar(s, i) == cp
  {
  }

  lemma Standing3(s: Text, i: nat, cp: int)
    requires 0x800 <= cp < 0x1_0000 && IsScalar(cp) && i + 3 <= |s|
    requires s[i] == 0xE0 + cp / 4096 && s[i + 1] == 0x80 + cp / 64 % 64 && s[i + 2] == 0x80 + cp % 64
    ensures CharAt(s, i) && Scalar(s, i) == cp
  {
    var q := cp / 64;
    assert cp == 64 * q + cp % 64 && q == 64 * (q / 64) + q % 64 && q / 64 == cp / 4096;
  }

  lemma Standing4(s: Text, i: nat, cp: int)
    requires 0x1_0000 <= cp < 0x11_0000 && i + 4 <= |s| && s[i] == 0xF0 + cp / 262144
    requires s[i + 1] == 0x80 + cp / 4096 % 64 && s[i + 2] == 0x80 + cp / 64 % 64 && s[i + 3] == 0x80 + cp % 64
    ensures CharAt(s, i) && Scalar(s, i) == cp
  {
    var q, r := cp / 64, cp / 4096;
    assert cp == 64 * q + cp % 64 && q == 64 * r + q % 64 && r == 64 * (cp / 262144) + r % 64;
  }

  /** An encoding is well formed and decodes to its scalar value. */
  lemma StandingDecodes(s: Text, i: nat, cp: int)
    requires StandsAt(s, i, cp)
    ensures CharAt(s, i) && Scalar(s, i) == cp
  {
    var t := s[i..i + |Encoded(cp)|];
    assert t[0] == s[i];
    if cp < 0x80 {
    } else if cp < 0x800 {
      assert t[1] == s[i + 1];
      Standing2(s, i, cp);
    } else if cp < 0x1_0000 {
      assert t[1] == s[i + 1] && t[2] == s[i + 2];
      Standing3(s, i, cp);
    } else {
      assert t[1] == s[i + 1] && t[2] == s[i + 2] && t[3] == s[i + 3];
      Standing4(s, i, cp);
    }
  }

  /** Characters are exactly the encodings of the table. */
  lemma CharAtIff(s: Text, i: nat)
    ensures CharAt(s, i) <==> exists cp :: StandsAt(s, i, cp)
    ensures forall cp :: StandsAt(s, i, cp) ==> CharAt(s, i) && Scalar(s, i) == cp
  {
    if CharAt(s, i) {
      DecodedStands(s, i);
    }
    forall cp | StandsAt(s, i, cp)
      ensures CharAt(s, i) && Scalar(s, i) == cp
    {
      StandingDecodes(s, i, cp);
    }
  }

  // ----- character classes -----

  /** The code points with the `White_Space` property. */
  predicate IsWhite(ch: int) {
    || 0x09 <= ch <= 0x0D || ch == 0x20 || ch == 0x85 || ch == 0xA0 || ch == 0x1680 || 0x2000 <= ch <= 0x200A
    || ch == 0x2028 || ch == 0x2029 || ch == 0x202F || ch == 0x205F || ch == 0x3000
  }

  /** The control characters, general category `Cc`. */
  predicate IsControl(ch: int) { 0 <= ch <= 0x1F || 0x7F <= ch <= 0x9F }

  /** The marks a hashtag stops at. */
  const STOPS := Ascii(".,!?()[]{}\"'@#;:&*+=<>/\\|^~%$`")

  lemma StopsAre()
    ensures STOPS == [46, 44, 33, 63, 40, 41, 91, 93, 123, 125, 34, 39, 64, 35, 59, 58, 38, 42, 43, 61, 60, 62, 47, 92,
                      124, 94, 126, 37, 36, 96]
  {
  }

  predicate IsStop(ch: int) {
    || 0x21 <= ch <= 0x2C || 0x2E <= ch <= 0x2F || 0x3A <= ch <= 0x40
    || 0x5B <= ch <= 0x5E || ch == 0x60 || 0x7B <= ch <= 0x7E
  }

  lemma StopsCover(b: byte)
    ensures IsStop(b) ==> b in [46, 44, 33, 63, 40, 41, 91, 93, 123, 125, 34, 39, 64, 35, 59, 58, 38, 42, 43, 61, 60,
                                62, 47, 92, 124, 94, 126, 37, 36, 96]
  {
  }

  lemma StopsOnly(k: nat)
    requires k < |STOPS|
    ensures IsStop(STOPS[k])
  {
    StopsAre();
  }

  /** That is, every ASCII mark but `-` and `_`. */
  lemma StopMember(ch: nat)
    ensures (exists k :: 0 <= k < |STOPS| && STOPS[k] == ch) <==> IsStop(ch)
  {
    if k :| 0 <= k < |STOPS| && STOPS[k] == ch {
      StopsOnly(k);
    }
    if IsStop(ch) {
      StopsCover(ch);
      StopsAre();
    }
  }

  lemma ForbiddenIff(ch: nat)
    ensures IsForbidden(ch) <==> IsWhite(ch) || IsControl(ch) || exists k :: 0 <= k < |STOPS| && STOPS[k] == ch
  {
    StopMember(ch);
  }

  predicate IsLetterOrDigit(b: byte) {
    'a' as int <= b <= 'z' as int || 'A' as int <= b <= 'Z' as int || '0' as int <= b <= '9' as int
  }

  /** A URL body is made of letters, digits and these marks. */
  lemma UrlByteIff(b: byte)
    ensures IsUrlByte(b) <==> IsLetterOrDigit(b) || b in Ascii("-._~:/?#[]@!$&'()*+,;=%")
  {
    assert Ascii("-._~:/?#[]@!$&'()*+,;=%")
        == [45, 46, 95, 126, 58, 47, 63, 35, 91, 93, 64, 33, 36, 38, 39, 40, 41, 42, 43, 44, 59, 61, 37];
  }

  /** These marks are trimmed off its end. */
  lemma TrailingPunctIff(b: byte)
    ensures IsTrailingPunct(b) <==> b in Ascii(".,;:!?]}")
  {
    assert Ascii(".,;:!?]}") == [46, 44, 59, 58, 33, 63, 93, 125];
  }

  lemma SchemeByteIff(b: byte)
    ensures IsSchemeByte(b) <==> IsLetterOrDigit(b) || b in Ascii("+-.")
  {
    assert Ascii("+-.") == [43, 45, 46];
  }

  /** ASCII whitespace: space, tab, line feed, form feed, carriage return. */
  lemma WhitespaceIff(b: byte)
    ensures IsWhitespace(b) <==> b == ' ' as int || b == '\t' as int || b == '\n' as int || b == 12 || b == '\r' as int
  {
  }

  lemma MarkersAre()
    ensures NOSTR_PREFIX == Ascii("nostr:") && SEPARATOR == Ascii("://")
    ensures [HASH] == Ascii("#") && [NEWLINE] == Ascii("\n")
    ensures [OPEN_PAREN] == Ascii("(") && [CLOSE_PAREN] == Ascii(")")
  {
  }
}
