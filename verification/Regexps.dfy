/** The regular expressions of the decoder (internal/decoder/decoder.go) written as such, and that
    the model recognises exactly what they match. */
module Regexps {
  import opened Decoder

  /** A piece of an expression: a text, n characters out of some, or one and more of them. */
  datatype Piece = Lit(text: string) | Times(n: nat, chars: string) | Plus(chars: string)

  const DIGITS := "0123456789"
  const SLASHED := "0123456789/"
  const LEVELS := "01234567-+"
  const OPEN_LEVELS := "01234567-+/"
  const CAPITALS := "ABCDEFGHIJKLMNOPQRSTUVWXYZ"

  const HEADER_RE: seq<Piece> :=
    [Times(2, DIGITS), Lit(" "), Times(2, DIGITS), Lit(" "), Times(2, DIGITS), Lit(" "), Times(12, DIGITS),
     Lit(" C"), Times(2, DIGITS)]

  const TIME_RE: seq<Piece> := [Times(12, DIGITS)]

  const ND_RE: seq<Piece> := [Lit("ND"), Times(14, DIGITS), Lit(" "), Plus(CAPITALS), Plus(DIGITS)]

  const HYPOCENTER_RE: seq<Piece> :=
    [Times(3, SLASHED), Lit(" N"), Times(3, SLASHED), Lit(" E"), Times(4, SLASHED), Lit(" "),
     Times(3, SLASHED), Lit(" "), Times(2, SLASHED), Lit(" "), Times(2, OPEN_LEVELS),
     Lit(" RK"), Times(5, SLASHED), Lit(" RT"), Times(5, SLASHED), Lit(" RC"), Times(5, SLASHED)]

  const EBI_RE: seq<Piece> :=
    [Times(3, DIGITS), Lit(" S"), Times(2, LEVELS), Times(2, OPEN_LEVELS), Lit(" "), Times(6, SLASHED), Lit(" "),
     Times(2, "01")]

  predicate Within(s: string, lo: nat, hi: nat, chars: string) {
    lo <= hi <= |s| && forall j :: lo <= j < hi ==> s[j] in chars
  }

  /** The pieces from k on match exactly the characters from i to e. */
  predicate Matches(re: seq<Piece>, k: nat, s: string, i: nat, e: nat)
    requires k <= |re|
    decreases |re| - k
  {
    if k == |re| then i == e <= |s|
    else
      match re[k]
      case Lit(text) => i + |text| <= |s| && s[i..i + |text|] == text && Matches(re, k + 1, s, i + |text|, e)
      case Times(n, chars) => Within(s, i, i + n, chars) && Matches(re, k + 1, s, i + n, e)
      case Plus(chars) =>
        exists m: nat :: i < m <= |s| && Within(s, i, m, chars) && Matches(re, k + 1, s, m, e)
  }

  // ---------- one piece at a time ----------

  lemma EndStep(re: seq<Piece>, s: string, i: nat, e: nat)
    ensures Matches(re, |re|, s, i, e) <==> i == e <= |s|
  {}

  lemma LitStep(re: seq<Piece>, k: nat, s: string, i: nat, e: nat)
    requires k < |re| && re[k].Lit? && 1 <= |re[k].text| <= 3
    ensures
      var text := re[k].text;
      Matches(re, k, s, i, e) <==>
        && i + |text| <= |s| && s[i] == text[0]
        && (|text| >= 2 ==> s[i + 1] == text[1]) && (|text| >= 3 ==> s[i + 2] == text[2])
        && Matches(re, k + 1, s, i + |text|, e)
  {
    var text := re[k].text;
    if i + |text| <= |s| {
      var u := s[i..i + |text|];
      assert u[0] == s[i] && (|text| >= 2 ==> u[1] == s[i + 1]) && (|text| >= 3 ==> u[2] == s[i + 2]);
      assert u == text <==>
        u[0] == text[0] && (|text| >= 2 ==> u[1] == text[1]) && (|text| >= 3 ==> u[2] == text[2]);
    }
  }

  lemma TimesStep(re: seq<Piece>, k: nat, s: string, i: nat, e: nat)
    requires k < |re| && re[k].Times?
    ensures Matches(re, k, s, i, e) <==>
              Within(s, i, i + re[k].n, re[k].chars) && Matches(re, k + 1, s, i + re[k].n, e)
  {}

  lemma CharClasses(c: char)
    ensures Is(c, Digit) <==> c in DIGITS
    ensures Is(c, Slashed) <==> c in SLASHED
    ensures Is(c, Level) <==> c in LEVELS
    ensures Is(c, OpenLevel) <==> c in OPEN_LEVELS
    ensures Is(c, Bit) <==> c in "01"
    ensures Is(c, Upper) <==> c in CAPITALS
  {}

  lemma Classes(s: string)
    ensures forall lo: nat, hi: nat :: Within(s, lo, hi, DIGITS) <==> lo <= hi <= |s| && Span(s, lo, hi, Digit)
    ensures forall lo: nat, hi: nat :: Within(s, lo, hi, SLASHED) <==> lo <= hi <= |s| && Span(s, lo, hi, Slashed)
    ensures forall lo: nat, hi: nat :: Within(s, lo, hi, LEVELS) <==> lo <= hi <= |s| && Span(s, lo, hi, Level)
    ensures forall lo: nat, hi: nat ::
              Within(s, lo, hi, OPEN_LEVELS) <==> lo <= hi <= |s| && Span(s, lo, hi, OpenLevel)
    ensures forall lo: nat, hi: nat :: Within(s, lo, hi, "01") <==> lo <= hi <= |s| && Span(s, lo, hi, Bit)
    ensures forall lo: nat, hi: nat :: Within(s, lo, hi, CAPITALS) <==> lo <= hi <= |s| && Span(s, lo, hi, Upper)
  {
    hide Is;
    forall c: char
      ensures Is(c, Digit) <==> c in DIGITS
      ensures Is(c, Slashed) <==> c in SLASHED
      ensures Is(c, Level) <==> c in LEVELS
      ensures Is(c, OpenLevel) <==> c in OPEN_LEVELS
      ensures Is(c, Bit) <==> c in "01"
      ensures Is(c, Upper) <==> c in CAPITALS
    {
      CharClasses(c);
    }
    hide DIGITS, SLASHED, LEVELS, OPEN_LEVELS, CAPITALS;
  }

  // ---------- the five patterns of the decoder ----------

  lemma HeaderRegexp(s: string, i: nat, e: nat)
    ensures Matches(HEADER_RE, 0, s, i, e) <==> e == i + 25 && MatchesAt(HeaderRE, s, i)
  {
    hide Matches, Within, Span;
    Classes(s);
    TimesStep(HEADER_RE, 0, s, i, e);
    LitStep(HEADER_RE, 1, s, i + 2, e);
    TimesStep(HEADER_RE, 2, s, i + 3, e);
    LitStep(HEADER_RE, 3, s, i + 5, e);
    TimesStep(HEADER_RE, 4, s, i + 6, e);
    LitStep(HEADER_RE, 5, s, i + 8, e);
    TimesStep(HEADER_RE, 6, s, i + 9, e);
    LitStep(HEADER_RE, 7, s, i + 21, e);
    TimesStep(HEADER_RE, 8, s, i + 23, e);
    EndStep(HEADER_RE, s, i + 25, e);
  }

  lemma TimeRegexp(s: string, e: nat)
    ensures Matches(TIME_RE, 0, s, 0, e) <==> e == 12 && IsEqTime(s)
  {
    hide Matches, Within, Span;
    Classes(s);
    TimesStep(TIME_RE, 0, s, 0, e);
    EndStep(TIME_RE, s, 12, e);
  }

  lemma HypocenterTail(s: string, i: nat, e: nat)
    ensures Matches(HYPOCENTER_RE, 9, s, i + 21, e) <==>
              && e == i + 48 <= |s| && s[i + 21] == ' '
              && Span(s, i + 22, i + 24, OpenLevel) && s[i + 24] == ' '
              && s[i + 25] == 'R' && s[i + 26] == 'K' && Span(s, i + 27, i + 32, Slashed) && s[i + 32] == ' '
              && s[i + 33] == 'R' && s[i + 34] == 'T' && Span(s, i + 35, i + 40, Slashed) && s[i + 40] == ' '
              && s[i + 41] == 'R' && s[i + 42] == 'C' && Span(s, i + 43, i + 48, Slashed)
  {
    hide Matches, Within, Span;
    Classes(s);
    LitStep(HYPOCENTER_RE, 9, s, i + 21, e);
    TimesStep(HYPOCENTER_RE, 10, s, i + 22, e);
    LitStep(HYPOCENTER_RE, 11, s, i + 24, e);
    TimesStep(HYPOCENTER_RE, 12, s, i + 27, e);
    LitStep(HYPOCENTER_RE, 13, s, i + 32, e);
    TimesStep(HYPOCENTER_RE, 14, s, i + 35, e);
    LitStep(HYPOCENTER_RE, 15, s, i + 40, e);
    TimesStep(HYPOCENTER_RE, 16, s, i + 43, e);
    EndStep(HYPOCENTER_RE, s, i + 48, e);
  }

  lemma HypocenterHead(s: string, i: nat, e: nat)
    ensures Matches(HYPOCENTER_RE, 0, s, i, e) <==>
              && i + 10 <= |s|
              && Span(s, i, i + 3, Slashed) && s[i + 3] == ' ' && s[i + 4] == 'N'
              && Span(s, i + 5, i + 8, Slashed) && s[i + 8] == ' ' && s[i + 9] == 'E'
              && Matches(HYPOCENTER_RE, 4, s, i + 10, e)
  {
    hide Matches, Within, Span;
    Classes(s);
    TimesStep(HYPOCENTER_RE, 0, s, i, e);
    LitStep(HYPOCENTER_RE, 1, s, i + 3, e);
    TimesStep(HYPOCENTER_RE, 2, s, i + 5, e);
    LitStep(HYPOCENTER_RE, 3, s, i + 8, e);
  }

  lemma HypocenterMiddle(s: string, i: nat, e: nat)
    ensures Matches(HYPOCENTER_RE, 4, s, i + 10, e) <==>
              && i + 21 <= |s|
              && Span(s, i + 10, i + 14, Slashed) && s[i + 14] == ' '
              && Span(s, i + 15, i + 18, Slashed) && s[i + 18] == ' '
              && Span(s, i + 19, i + 21, Slashed)
              && Matches(HYPOCENTER_RE, 9, s, i + 21, e)
  {
    hide Matches, Within, Span;
    Classes(s);
    TimesStep(HYPOCENTER_RE, 4, s, i + 10, e);
    LitStep(HYPOCENTER_RE, 5, s, i + 14, e);
    TimesStep(HYPOCENTER_RE, 6, s, i + 15, e);
    LitStep(HYPOCENTER_RE, 7, s, i + 18, e);
    TimesStep(HYPOCENTER_RE, 8, s, i + 19, e);
  }

  lemma HypocenterRegexp(s: string, i: nat, e: nat)
    ensures Matches(HYPOCENTER_RE, 0, s, i, e) <==> e == i + 48 && MatchesAt(HypocenterRE, s, i)
  {
    hide Matches, Within, Span;
    HypocenterHead(s, i, e);
    HypocenterMiddle(s, i, e);
    HypocenterTail(s, i, e);
  }

  lemma EbiRegexp(s: string, i: nat, e: nat)
    ensures Matches(EBI_RE, 0, s, i, e) <==> e == i + 19 && MatchesAt(EbiRE, s, i)
  {
    hide Matches, Within, Span;
    Classes(s);
    TimesStep(EBI_RE, 0, s, i, e);
    LitStep(EBI_RE, 1, s, i + 3, e);
    TimesStep(EBI_RE, 2, s, i + 5, e);
    TimesStep(EBI_RE, 3, s, i + 7, e);
    LitStep(EBI_RE, 4, s, i + 9, e);
    TimesStep(EBI_RE, 5, s, i + 10, e);
    LitStep(EBI_RE, 6, s, i + 16, e);
    TimesStep(EBI_RE, 7, s, i + 17, e);
    EndStep(EBI_RE, s, i + 19, e);
  }

  lemma PlusStep(re: seq<Piece>, k: nat, s: string, i: nat, m: nat, e: nat)
    requires k < |re| && re[k].Plus? && i < m && Within(s, i, m, re[k].chars) && Matches(re, k + 1, s, m, e)
    ensures Matches(re, k, s, i, e)
  {}

  lemma LastPlus(re: seq<Piece>, s: string, i: nat, e: nat)
    requires re != [] && re[|re| - 1].Plus?
    ensures Matches(re, |re| - 1, s, i, e) <==> i < e && Within(s, i, e, re[|re| - 1].chars)
  {
    if i < e && Within(s, i, e, re[|re| - 1].chars) {
      PlusStep(re, |re| - 1, s, i, e, e);
    }
  }

  lemma TwoPlus(re: seq<Piece>, k: nat, s: string, i: nat, e: nat)
    requires k + 2 == |re| && re[k].Plus? && re[k + 1].Plus?
    ensures Matches(re, k, s, i, e) <==>
              exists a: nat :: i < a < e && Within(s, i, a, re[k].chars) && Within(s, a, e, re[k + 1].chars)
  {
    hide Within;
    if Matches(re, k, s, i, e) {
      var a: nat :| i < a <= |s| && Within(s, i, a, re[k].chars) && Matches(re, k + 1, s, a, e);
      LastPlus(re, s, a, e);
    }
    if a: nat :| i < a < e && Within(s, i, a, re[k].chars) && Within(s, a, e, re[k + 1].chars) {
      LastPlus(re, s, a, e);
      PlusStep(re, k, s, i, a, e);
    }
  }

  /** The ND pattern matches at i, up to e, exactly when capitals run from i + 17 up to some a and
      digits from there up to e. */
  lemma NdRegexp(s: string, i: nat, e: nat)
    ensures Matches(ND_RE, 0, s, i, e) <==>
              && i + 17 < e <= |s| && s[i] == 'N' && s[i + 1] == 'D'
              && Span(s, i + 2, i + 16, Digit) && s[i + 16] == ' '
              && exists a: nat :: i + 17 < a < e && Span(s, i + 17, a, Upper) && Span(s, a, e, Digit)
  {
    hide Matches, Within, Span;
    Classes(s);
    LitStep(ND_RE, 0, s, i, e);
    TimesStep(ND_RE, 1, s, i + 2, e);
    LitStep(ND_RE, 2, s, i + 16, e);
    TwoPlus(ND_RE, 3, s, i + 17, e);
  }
}
