/** A token depends on its own characters and on one character after it. */
module Relexing {
  import opened Text
  import opened Syntax
  import opened Lexing

  /** A token with this text can be followed directly by c without being read differently. */
  predicate Stops(k: Kind, hex: bool, c: char) {
    match k
    case Ident => !In(NameChar, c)
    case Int => !IsAlnum(c) && (c != '.' || hex)
    case Float => !IsAlnum(c)
    case String => c != '\''
    case Bang | Less | Greater => c != '='
    case _ => true
  }

  predicate StopsAt(k: Kind, hex: bool, src: string, e: nat) {
    e < |src| ==> Stops(k, hex, src[e])
  }

  predicate HexPrefix(src: string, q: nat) {
    Is(src, q, '0') && Is(src, q + 1, 'x')
  }

  /** Does a number with the 0x prefix start here? */
  predicate HexAt(src: string, p: nat) {
    HexPrefix(src, if Is(src, p, '-') then p + 1 else p)
  }

  /** The n characters of one text at p are the n characters of another at p'. */
  ghost predicate Same(src: string, p: nat, src': string, p': nat, n: nat)
    decreases n
  {
    p + n <= |src| && p' + n <= |src'| &&
    (n > 0 ==> src[p] == src'[p'] && Same(src, p + 1, src', p' + 1, n - 1))
  }

  lemma {:induction false} SamePart(src: string, p: nat, src': string, p': nat, n: nat, a: nat, m: nat)
    requires Same(src, p, src', p', n) && a + m <= n
    ensures Same(src, p + a, src', p' + a, m)
    decreases n
  {
    if a > 0 {
      SamePart(src, p + 1, src', p' + 1, n - 1, a - 1, m);
    } else if m > 0 {
      SamePart(src, p + 1, src', p' + 1, n - 1, 0, m - 1);
    }
  }

  lemma SameAt(src: string, p: nat, src': string, p': nat, n: nat, k: nat)
    requires Same(src, p, src', p', n) && k < n
    ensures src[p + k] == src'[p' + k]
  {
    SamePart(src, p, src', p', n, k, 1);
  }

  lemma {:induction false} SameIntro(src: string, p: nat, src': string, p': nat, n: nat)
    requires p + n <= |src| && p' + n <= |src'| && src[p..p + n] == src'[p'..p' + n]
    ensures Same(src, p, src', p', n)
    decreases n
  {
    if n > 0 {
      assert src[p] == src[p..p + n][0] && src'[p'] == src'[p'..p' + n][0];
      assert src[p + 1..p + n] == src[p..p + n][1..] && src'[p' + 1..p' + n] == src'[p'..p' + n][1..];
      SameIntro(src, p + 1, src', p' + 1, n - 1);
    }
  }

  lemma {:induction false} RunEndAll(src: string, i: nat, cls: CharClass)
    requires i <= |src|
    ensures forall k | i <= k < RunEnd(src, i, cls) :: In(cls, src[k])
    ensures !InAt(src, RunEnd(src, i, cls), cls)
    decreases |src| - i
  {
    if InAt(src, i, cls) { RunEndAll(src, i + 1, cls); }
  }

  lemma {:induction false} RunEndIs(src: string, i: nat, cls: CharClass, e: nat)
    requires i <= e <= |src|
    requires forall k | i <= k < e :: In(cls, src[k])
    requires !InAt(src, e, cls)
    ensures RunEnd(src, i, cls) == e
    decreases e - i
  {
    if i < e { RunEndIs(src, i + 1, cls, e); }
  }

  lemma {:induction false} RunEndLocal(src: string, i: nat, src': string, i': nat, cls: CharClass)
    requires i <= |src|
    requires var n := RunEnd(src, i, cls) - i;
      Same(src, i, src', i', n) && !InAt(src', i' + n, cls)
    ensures RunEnd(src', i', cls) == i' + (RunEnd(src, i, cls) - i)
    decreases |src| - i
  {
    if InAt(src, i, cls) { RunEndLocal(src, i + 1, src', i' + 1, cls); }
  }

  /** The situation of all locality lemmas below. */
  ghost predicate Moved(src: string, p: nat, src': string, p': nat, s: Shape, hex: bool) {
    s.Tok? && p <= s.at && Same(src, p, src', p', s.at - p) && StopsAt(s.kind, hex, src', p' + (s.at - p))
  }

  function Shift(s: Shape, p: nat, p': nat): Shape
    requires p <= s.at
  {
    s.(at := s.at - p + p')
  }

  lemma HexLocal(src: string, q: nat, src': string, q': nat)
    requires q <= |src| && Moved(src, q, src', q', LexHex(src, q), true)
    ensures LexHex(src', q') == Shift(LexHex(src, q), q, q')
  {
    var n := LexHex(src, q).at - q;
    SameAt(src, q, src', q', n, 0);
    if !Is(src, q, '0') {
      SamePart(src, q, src', q', n, 1, n - 1);
      RunEndLocal(src, q + 1, src', q' + 1, HexDigit);
    }
  }

  lemma ExponentEndLocal(src: string, q: nat, src': string, q': nat)
    requires q <= |src| && Moved(src, q, src', q', LexExponentEnd(src, q), false)
    ensures LexExponentEnd(src', q') == Shift(LexExponentEnd(src, q), q, q')
  {
    var n := LexExponentEnd(src, q).at - q;
    SameAt(src, q, src', q', n, 0);
    SamePart(src, q, src', q', n, 1, n - 1);
    RunEndLocal(src, q + 1, src', q' + 1, Digit);
  }

  lemma ExponentLocal(src: string, q: nat, src': string, q': nat, k: Kind)
    requires q <= |src| && (k == Int || k == Float) && Moved(src, q, src', q', LexExponent(src, q, k), false)
    ensures LexExponent(src', q', k) == Shift(LexExponent(src, q, k), q, q')
  {
    var n := LexExponent(src, q, k).at - q;
    if Is(src, q, 'e') || Is(src, q, 'E') {
      var sign := if Is(src, q + 1, '-') || Is(src, q + 1, '+') then 2 else 1;
      SameAt(src, q, src', q', n, 0);
      SameAt(src, q, src', q', n, 1);
      SamePart(src, q, src', q', n, sign, n - sign);
      ExponentEndLocal(src, q + sign, src', q' + sign);
    }
  }

  lemma FractionLocal(src: string, q: nat, src': string, q': nat)
    requires q <= |src| && Moved(src, q, src', q', LexFraction(src, q), false)
    ensures LexFraction(src', q') == Shift(LexFraction(src, q), q, q')
  {
    hide RunEnd, Same;
    var n := LexFraction(src, q).at - q;
    SameBounds(src, q, src', q', n);
    if Is(src, q, '.') {
      var f := RunEnd(src, q + 2, Digit);
      SameAt(src, q, src', q', n, 0);
      SameAt(src, q, src', q', n, 1);
      SamePart(src, q, src', q', n, 2, f - q - 2);
      SamePart(src, q, src', q', n, f - q, n - (f - q));
      if f - q < n { SameAt(src, q, src', q', n, f - q); }
      RunEndAll(src, q + 2, Digit);
      RunEndLocal(src, q + 2, src', q' + 2, Digit);
      ExponentLocal(src, f, src', q' + (f - q), Float);
    } else {
      if n > 0 { SameAt(src, q, src', q', n, 0); }
      ExponentLocal(src, q, src', q', Int);
    }
  }

  lemma NumberKind(src: string, q: nat)
    requires q <= |src|
    ensures LexFraction(src, q).Tok? ==> LexFraction(src, q).kind == Int || LexFraction(src, q).kind == Float
    ensures LexHex(src, q).Tok? ==> LexHex(src, q).kind == Int
  {
  }

  lemma DecimalLocal(src: string, q: nat, src': string, q': nat)
    requires InAt(src, q, Digit) && !Is(src, q, '0')
    requires Moved(src, q, src', q', LexUnsigned(src, q), false)
    ensures LexUnsigned(src', q') == Shift(LexUnsigned(src, q), q, q')
  {
    hide RunEnd;
    var n := LexUnsigned(src, q).at - q;
    var f := RunEnd(src, q + 1, Digit);
    NumberKind(src, f);
    SamePart(src, q, src', q', n, f - q, n - (f - q));
    SamePart(src, q, src', q', n, 1, f - q - 1);
    RunEndLocal(src, q + 1, src', q' + 1, Digit);
    FractionLocal(src, f, src', q' + (f - q));
  }

  lemma ZeroLocal(src: string, q: nat, src': string, q': nat)
    requires Is(src, q, '0') && !HexPrefix(src, q)
    requires Moved(src, q, src', q', LexUnsigned(src, q), false)
    ensures LexUnsigned(src', q') == Shift(LexUnsigned(src, q), q, q')
  {
    NumberKind(src, q + 1);
    FractionLocal(src, q + 1, src', q' + 1);
  }

  lemma UnsignedLocal(src: string, q: nat, src': string, q': nat)
    requires q <= |src| && Moved(src, q, src', q', LexUnsigned(src, q), HexPrefix(src, q))
    ensures LexUnsigned(src', q') == Shift(LexUnsigned(src, q), q, q')
  {
    if HexPrefix(src, q) {
      SameAt(src, q, src', q', LexUnsigned(src, q).at - q, 1);
      SamePart(src, q, src', q', LexUnsigned(src, q).at - q, 2, LexUnsigned(src, q).at - q - 2);
      HexLocal(src, q + 2, src', q' + 2);
    } else if Is(src, q, '0') {
      ZeroLocal(src, q, src', q');
    } else {
      DecimalLocal(src, q, src', q');
    }
  }

  lemma NumberLocal(src: string, p: nat, src': string, p': nat)
    requires InAt(src, p, Digit) || Is(src, p, '-')
    requires Moved(src, p, src', p', LexNumber(src, p), HexAt(src, p))
    ensures InAt(src', p', Digit) || Is(src', p', '-')
    ensures LexNumber(src', p') == Shift(LexNumber(src, p), p, p')
  {
    hide LexUnsigned;
    var n := LexNumber(src, p).at - p;
    var m := if Is(src, p, '-') then 1 else 0;
    SamePart(src, p, src', p', n, m, n - m);
    UnsignedLocal(src, p + m, src', p' + m);
  }

  lemma {:induction false} StringLocal(src: string, q: nat, src': string, q': nat)
    requires q <= |src| && Moved(src, q, src', q', LexStringRest(src, q), false)
    ensures LexStringRest(src', q') == Shift(LexStringRest(src, q), q, q')
    decreases |src| - q
  {
    var n := LexStringRest(src, q).at - q;
    SameAt(src, q, src', q', n, 0);
    if src[q] != '\'' {
      SamePart(src, q, src', q', n, 1, n - 1);
      StringLocal(src, q + 1, src', q' + 1);
    } else if Is(src, q + 1, '\'') {
      SameAt(src, q, src', q', n, 1);
      SamePart(src, q, src', q', n, 2, n - 2);
      StringLocal(src, q + 2, src', q' + 2);
    }
  }

  lemma {:induction false} StringKind(src: string, q: nat)
    requires q <= |src| && LexStringRest(src, q).Tok?
    ensures LexStringRest(src, q).kind == String && StopsAt(String, false, src, LexStringRest(src, q).at)
    decreases |src| - q
  {
    if src[q] != '\'' {
      StringKind(src, q + 1);
    } else if Is(src, q + 1, '\'') {
      StringKind(src, q + 2);
    }
  }

  /** Whatever follows a token in the source does not extend it. */
  lemma ShapeStops(src: string, p: nat)
    requires p < |src| && LexShape(src, p).Tok?
    ensures StopsAt(LexShape(src, p).kind, HexAt(src, p), src, LexShape(src, p).at)
  {
    var c := src[p];
    if IsAlpha(c) || c == '_' {
      RunEndAll(src, p + 1, NameChar);
    } else if IsDigit(c) || c == '-' {
      NumberStops(src, p);
    } else if c == '\'' {
      StringKind(src, p + 1);
    }
  }

  lemma NumberStops(src: string, p: nat)
    requires (InAt(src, p, Digit) || Is(src, p, '-')) && LexNumber(src, p).Tok?
    ensures StopsAt(LexNumber(src, p).kind, HexAt(src, p), src, LexNumber(src, p).at)
  {
    var q := if Is(src, p, '-') then p + 1 else p;
    if !HexPrefix(src, q) {
      FractionStops(src, if Is(src, q, '0') then q + 1 else RunEnd(src, q + 1, Digit));
    }
  }

  lemma FractionStops(src: string, q: nat)
    requires q <= |src| && LexFraction(src, q).Tok?
    ensures StopsAt(LexFraction(src, q).kind, false, src, LexFraction(src, q).at)
  {
  }

  /** The same characters elsewhere, followed by something that does not extend them, are the same token. */
  lemma ShapeLocal(src: string, p: nat, src': string, p': nat)
    requires p < |src| && Moved(src, p, src', p', LexShape(src, p), HexAt(src, p))
    ensures p' < |src'| && LexShape(src', p') == Shift(LexShape(src, p), p, p')
  {
    hide Same, LexNumber, LexStringRest, RunEnd, HexAt;
    var n := LexShape(src, p).at - p;
    var c := src[p];
    SameBounds(src, p, src', p', n);
    SameAt(src, p, src', p', n, 0);
    if IsAlpha(c) || c == '_' {
      SamePart(src, p, src', p', n, 1, n - 1);
      RunEndLocal(src, p + 1, src', p' + 1, NameChar);
    } else if IsDigit(c) || c == '-' {
      NumberLocal(src, p, src', p');
    } else if c == '\'' {
      StringKind(src, p + 1);
      SamePart(src, p, src', p', n, 1, n - 1);
      StringLocal(src, p + 1, src', p' + 1);
    } else {
      MarkLocal(src, p, src', p');
    }
  }

  /** The same for the tokens of one or two characters. */
  lemma MarkLocal(src: string, p: nat, src': string, p': nat)
    requires p < |src| && Moved(src, p, src', p', LexShape(src, p), HexAt(src, p))
    requires var c := src[p]; !IsAlpha(c) && c != '_' && !IsDigit(c) && c != '-' && c != '\''
    ensures p' < |src'| && LexShape(src', p') == Shift(LexShape(src, p), p, p')
  {
    hide LexNumber, LexStringRest, RunEnd, HexAt;
    var n := LexShape(src, p).at - p;
    SameAt(src, p, src', p', n, 0);
    if n == 2 { SameAt(src, p, src', p', n, 1); }
  }

  lemma SameBounds(src: string, p: nat, src': string, p': nat, n: nat)
    requires Same(src, p, src', p', n)
    ensures p + n <= |src| && p' + n <= |src'|
  {
  }
}
