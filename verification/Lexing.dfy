/** The incremental lexer (internal/expression/expr_lexer.go). */
module Lexing {
  import opened Text
  import opened Syntax

  // ----- which token starts at a position -----

  datatype CharClass = White | NameChar | Digit | HexDigit

  predicate In(cls: CharClass, c: char) {
    match cls
    case White => IsWhite(c)
    case NameChar => IsNameChar(c)
    case Digit => IsDigit(c)
    case HexDigit => IsHexDigit(c)
  }

  /** Is there a character of the class at position i? */
  predicate InAt(src: string, i: nat, cls: CharClass) {
    i < |src| && In(cls, src[i])
  }

  predicate Is(src: string, i: nat, c: char) {
    i < |src| && src[i] == c
  }

  predicate AlnumAt(src: string, i: nat) {
    i < |src| && IsAlnum(src[i])
  }

  /** The first position from i on that holds no character of the class. */
  function RunEnd(src: string, i: nat, cls: CharClass): (e: nat)
    requires i <= |src|
    ensures i <= e <= |src|
    decreases |src| - i
  {
    if InAt(src, i, cls) then RunEnd(src, i + 1, cls) else i
  }

  /** Either a token ending before `at`, or an unexpected character met at `at`. */
  datatype Shape = Tok(kind: Kind, at: nat) | Bad(at: nat)

  function NumberEnd(src: string, q: nat, k: Kind): (s: Shape)
    requires q <= |src|
    ensures s.at == q
  {
    if AlnumAt(src, q) then Bad(q) else Tok(k, q)
  }

  function LexHex(src: string, q: nat): (s: Shape)
    requires q <= |src|
    ensures q <= s.at <= |src| && (s.Tok? ==> q < s.at)
  {
    if Is(src, q, '0') then NumberEnd(src, q + 1, Int)
    else if !InAt(src, q, HexDigit) then Bad(q)
    else NumberEnd(src, RunEnd(src, q + 1, HexDigit), Int)
  }

  function LexExponentEnd(src: string, q: nat): (s: Shape)
    requires q <= |src|
    ensures q <= s.at <= |src|
  {
    if !InAt(src, q, Digit) then Bad(q)
    else NumberEnd(src, RunEnd(src, q + 1, Digit), Float)
  }

  function LexExponent(src: string, q: nat, k: Kind): (s: Shape)
    requires q <= |src|
    ensures q <= s.at <= |src|
  {
    if !Is(src, q, 'e') && !Is(src, q, 'E') then NumberEnd(src, q, k)
    else LexExponentEnd(src, if Is(src, q + 1, '-') || Is(src, q + 1, '+') then q + 2 else q + 1)
  }

  function LexFraction(src: string, q: nat): (s: Shape)
    requires q <= |src|
    ensures q <= s.at <= |src|
  {
    if !Is(src, q, '.') then LexExponent(src, q, Int)
    else if !InAt(src, q + 1, Digit) then Bad(q + 1)
    else LexExponent(src, RunEnd(src, q + 2, Digit), Float)
  }

  function LexUnsigned(src: string, q: nat): (s: Shape)
    requires q <= |src|
    ensures q <= s.at <= |src| && (s.Tok? ==> q < s.at)
  {
    if Is(src, q, '0') then
      if Is(src, q + 1, 'x') then LexHex(src, q + 2) else LexFraction(src, q + 1)
    else if !InAt(src, q, Digit) then Bad(q)
    else LexFraction(src, RunEnd(src, q + 1, Digit))
  }

  function LexNumber(src: string, p: nat): (s: Shape)
    requires InAt(src, p, Digit) || Is(src, p, '-')
    ensures p <= s.at <= |src| && (s.Tok? ==> p < s.at)
  {
    LexUnsigned(src, if Is(src, p, '-') then p + 1 else p)
  }

  /** The rest of a string literal; two quotes in a row are one escaped quote. */
  function LexStringRest(src: string, q: nat): (s: Shape)
    requires q <= |src|
    ensures q <= s.at <= |src| && (s.Tok? ==> q < s.at)
    decreases |src| - q
  {
    if q == |src| then Bad(q)
    else if src[q] != '\'' then LexStringRest(src, q + 1)
    else if Is(src, q + 1, '\'') then LexStringRest(src, q + 2)
    else Tok(String, q + 1)
  }

  /** A doubled character, or an error at the second position. */
  function LexPair(src: string, p: nat, second: char, k: Kind): (s: Shape)
    requires p < |src|
    ensures p < s.at <= |src|
  {
    if Is(src, p + 1, second) then Tok(k, p + 2) else Bad(p + 1)
  }

  /** One character, or two when an equals sign follows. */
  function LexMaybeEq(src: string, p: nat, short: Kind, long: Kind): (s: Shape)
    requires p < |src|
    ensures p < s.at <= |src|
  {
    if Is(src, p + 1, '=') then Tok(long, p + 2) else Tok(short, p + 1)
  }

  function LexShape(src: string, p: nat): (s: Shape)
    requires p < |src|
    ensures p <= s.at <= |src| && (s.Tok? ==> p < s.at)
  {
    var c := src[p];
    if IsAlpha(c) || c == '_' then Tok(Ident, RunEnd(src, p + 1, NameChar))
    else if IsDigit(c) || c == '-' then LexNumber(src, p)
    else match c
    case '\'' => LexStringRest(src, p + 1)
    case '}' => LexPair(src, p, '}', End)
    case '!' => LexMaybeEq(src, p, Bang, NotEq)
    case '<' => LexMaybeEq(src, p, Less, LessEq)
    case '>' => LexMaybeEq(src, p, Greater, GreaterEq)
    case '=' => LexPair(src, p, '=', EqEq)
    case '&' => LexPair(src, p, '&', AndAnd)
    case '|' => LexPair(src, p, '|', OrOr)
    case '(' => Tok(LeftParen, p + 1)
    case ')' => Tok(RightParen, p + 1)
    case '[' => Tok(LeftBracket, p + 1)
    case ']' => Tok(RightBracket, p + 1)
    case '.' => Tok(Dot, p + 1)
    case '*' => Tok(Star, p + 1)
    case ',' => Tok(Comma, p + 1)
    case _ => Bad(p)
  }

  // ----- one call of Next -----

  datatype LexError =
    | NulCharacter(offset: nat)
    | Unexpected(offset: nat)

  /** The first NUL among positions lo..hi; the scanner rejects it as soon as it looks at it. */
  function NulBetween(src: string, lo: nat, hi: nat): (e: Option<LexError>)
    requires lo <= hi <= |src|
    ensures Is(src, hi, NUL) ==> e.Some?
    decreases hi - lo
  {
    if Is(src, lo, NUL) then Some(NulCharacter(lo))
    else if lo == hi then None
    else NulBetween(src, lo + 1, hi)
  }

  /** The first of two possible errors wins. */
  function First(a: Option<LexError>, b: Option<LexError>): Option<LexError> {
    if a.Some? then a else b
  }

  /** What one call of Next returns, and the lexer state it leaves. */
  datatype Lexed = Lexed(tok: Token, start: nat, pos: nat, err: Option<LexError>)

  function Lex(src: string, start: nat, pos: nat): (l: Lexed)
    requires start <= pos <= |src|
    ensures l.start <= l.pos <= |src| && pos <= l.pos
    ensures l.tok.kind != End ==> pos < l.pos
    ensures l.tok.EndOffset() <= |src|
  {
    var p := RunEnd(src, pos, White);
    var s := if p > pos then p else start;
    var shape := if p < |src| then LexShape(src, p) else Bad(p);
    var nul := NulBetween(src, pos, shape.at);
    match shape
    case Tok(k, e) => Lexed(Token(k, src[s..e], s), e, e, nul)
    case Bad(q) => Lexed(Token(End, "", s), s, q, First(nul, Some(Unexpected(q))))
  }

  /** All tokens from a state on, up to and including the first End token. */
  function Scan(src: string, start: nat, pos: nat): (ls: seq<Lexed>)
    requires start <= pos <= |src|
    ensures |ls| > 0 && ls[0] == Lex(src, start, pos)
    decreases |src| - pos
  {
    var l := Lex(src, start, pos);
    if l.tok.kind == End then [l] else [l] + Scan(src, l.start, l.pos)
  }

  function Tokens(ls: seq<Lexed>): (ts: seq<Token>)
    ensures |ts| == |ls|
    ensures forall i | 0 <= i < |ls| :: ts[i] == ls[i].tok
  {
    seq(|ls|, i requires 0 <= i < |ls| => ls[i].tok)
  }

  /** The first error reported while reading the first n tokens. */
  function FirstError(ls: seq<Lexed>, n: nat): Option<LexError>
    requires n <= |ls|
  {
    if n == 0 then None else First(FirstError(ls, n - 1), ls[n - 1].err)
  }

  /** Exactly one End token, at the end. */
  predicate Closed(ts: seq<Token>) {
    && |ts| > 0
    && ts[|ts| - 1].kind == End
    && forall i | 0 <= i < |ts| - 1 :: ts[i].kind != End
  }

  /** Each token is what Next returns in the state its predecessor left. */
  lemma {:induction false} ScanSteps(src: string, start: nat, pos: nat)
    requires start <= pos <= |src|
    ensures var ls := Scan(src, start, pos);
      && Closed(Tokens(ls))
      && (forall i | 0 <= i < |ls| :: ls[i].start <= ls[i].pos <= |src|)
      && forall i | 0 <= i < |ls| - 1 :: ls[i + 1] == Lex(src, ls[i].start, ls[i].pos)
    decreases |src| - pos
  {
    var ls := Scan(src, start, pos);
    var l := Lex(src, start, pos);
    if l.tok.kind != End {
      ScanSteps(src, l.start, l.pos);
      var rest := Scan(src, l.start, l.pos);
      assert ls == [l] + rest;
      assert Closed(Tokens(rest));
      forall i | 0 <= i < |ls| - 1
        ensures ls[i + 1] == Lex(src, ls[i].start, ls[i].pos) && ls[i].tok.kind != End
      {
        if i > 0 { assert ls[i] == rest[i - 1] && ls[i + 1] == rest[i]; assert Tokens(rest)[i - 1].kind != End; }
      }
      assert Tokens(ls)[|ls| - 1] == Tokens(rest)[|rest| - 1];
    }
  }

  // ----- the lexer object -----

  lemma {:induction false} NulBetweenExtends(src: string, a: nat, b: nat)
    requires a <= b < |src|
    ensures NulBetween(src, a, b + 1) == First(NulBetween(src, a, b), NulBetween(src, b + 1, b + 1))
    decreases b - a
  {
    if a < b { NulBetweenExtends(src, a + 1, b); }
  }

  class Lexer {
    const src: string
    var pos: nat
    var start: nat
    var lexErr: Option<LexError>
    /** Where the current call of Next began, and the error known at that time. */
    ghost var origin: nat
    ghost var before: Option<LexError>

    ghost predicate Valid()
      reads this
    {
      start <= pos <= |src|
    }

    /** Every character from the origin up to and including the one at pos has been looked at. */
    ghost predicate Noted()
      reads this
    {
      Valid() && origin <= pos && lexErr == First(before, NulBetween(src, origin, pos))
    }

    ghost function Ahead(): Option<char>
      reads this
    {
      if pos < |src| then Some(src[pos]) else None
    }

    constructor (src: string)
      ensures Valid() && this.src == src && pos == start == 0 && lexErr == None
    {
      this.src := src;
      pos, start, lexErr := 0, 0, None;
    }

    method Error(e: LexError)
      modifies this`lexErr
      ensures lexErr == First(old(lexErr), Some(e))
    {
      if lexErr.None? { lexErr := Some(e); }
    }

    /** The character after the ones read so far; None at the end. */
    method Peek() returns (r: Option<char>)
      modifies this`lexErr
      ensures r == Ahead()
      ensures lexErr == if Is(src, pos, NUL) then First(old(lexErr), Some(NulCharacter(pos))) else old(lexErr)
    {
      if pos < |src| {
        if src[pos] == NUL { Error(NulCharacter(pos)); }
        r := Some(src[pos]);
      } else {
        r := None;
      }
    }

    /** Reads one character and returns the one after it. */
    method Eat() returns (r: Option<char>)
      requires Noted()
      modifies this`pos, this`lexErr
      ensures Noted()
      ensures pos == if old(pos) < |src| then old(pos) + 1 else old(pos)
      ensures r == Ahead()
    {
      if pos < |src| {
        NulBetweenExtends(src, origin, pos);
        pos := pos + 1;
      }
      r := Peek();
    }

    method SkipWhite()
      requires Valid() && origin == pos && before == lexErr
      modifies this`pos, this`start, this`lexErr
      ensures Noted()
      ensures pos == RunEnd(src, old(pos), White)
      ensures start == if pos > old(pos) then pos else old(start)
    {
      var r := Peek();
      while r.Some? && IsWhite(r.value)
        invariant Noted() && old(pos) <= pos
        invariant r == Ahead()
        invariant RunEnd(src, pos, White) == RunEnd(src, old(pos), White)
        invariant start == if pos > old(pos) then pos else old(start)
        decreases |src| - pos
      {
        r := Eat();
        start := pos;
      }
    }

    /** Eats one character and then a run of characters of one class, as every scanning loop does. */
    method EatRun(cls: CharClass) returns (r: Option<char>)
      requires Noted() && pos < |src|
      modifies this`pos, this`lexErr
      ensures Noted() && old(pos) < pos
      ensures pos == RunEnd(src, old(pos) + 1, cls)
      ensures r == Ahead()
    {
      r := Eat();
      while r.Some? && In(cls, r.value)
        invariant Noted() && old(pos) < pos
        invariant r == Ahead()
        invariant RunEnd(src, pos, cls) == RunEnd(src, old(pos) + 1, cls)
        decreases |src| - pos
      {
        r := Eat();
      }
    }

    method MakeToken(kind: Kind) returns (t: Token)
      requires Valid()
      modifies this`start
      ensures start == pos
      ensures t == Token(kind, src[old(start)..pos], old(start))
    {
      t := Token(kind, src[start..pos], start);
      start := pos;
    }

    method UnexpectedHere() returns (t: Token)
      requires Noted()
      modifies this`lexErr
      ensures t == Token(End, "", start)
      ensures lexErr == First(before, First(NulBetween(src, origin, pos), Some(Unexpected(pos))))
    {
      Error(Unexpected(pos));
      t := Token(End, "", start);
    }

    /** The state in which a shape has been read: t is its token, and start was `s`. */
    ghost predicate Read(shape: Shape, s: nat, t: Token)
      reads this
    {
      && Valid() && origin <= pos == shape.at && s <= pos
      && match shape
         case Tok(k, e) =>
           && t == Token(k, src[s..e], s)
           && start == e
           && lexErr == First(before, NulBetween(src, origin, e))
         case Bad(q) =>
           && t == Token(End, "", s)
           && start == s
           && lexErr == First(before, First(NulBetween(src, origin, q), Some(Unexpected(q))))
    }

    method LexIdent() returns (t: Token)
      requires Noted() && pos < |src| && (IsAlpha(src[pos]) || src[pos] == '_')
      modifies this`pos, this`start, this`lexErr
      ensures Read(LexShape(src, old(pos)), old(start), t)
    {
      var _ := EatRun(NameChar);
      t := MakeToken(Ident);
    }

    /** A number; its parts are read by the methods below. */
    method LexNum() returns (t: Token)
      requires Noted() && (InAt(src, pos, Digit) || Is(src, pos, '-'))
      modifies this`pos, this`start, this`lexErr
      ensures Read(LexNumber(src, old(pos)), old(start), t)
    {
      var r := Peek();
      if r == Some('-') { r := Eat(); }
      t := LexIntegerPart();
    }

    method LexIntegerPart() returns (t: Token)
      requires Noted()
      modifies this`pos, this`start, this`lexErr
      ensures Read(LexUnsigned(src, old(pos)), old(start), t)
    {
      hide NulBetween, RunEnd, LexHex, LexFraction;
      var r := Peek();
      if r == Some('0') {
        r := Eat();
        if r == Some('x') {
          var _ := Eat();
          t := LexHexInt();
          return;
        }
      } else {
        if !(r.Some? && IsDigit(r.value)) {
          t := UnexpectedHere();
          return;
        }
        r := EatRun(Digit);
      }
      t := LexFractionPart();
    }

    method LexFractionPart() returns (t: Token)
      requires Noted()
      modifies this`pos, this`start, this`lexErr
      ensures Read(LexFraction(src, old(pos)), old(start), t)
    {
      hide NulBetween, RunEnd, LexExponent;
      var k := Int;
      var r := Peek();
      if r == Some('.') {
        r := Eat();
        if !(r.Some? && IsDigit(r.value)) {
          t := UnexpectedHere();
          return;
        }
        r := EatRun(Digit);
        k := Float;
      }
      t := LexExponentPart(k);
    }

    method LexExponentPart(k: Kind) returns (t: Token)
      requires Noted()
      modifies this`pos, this`start, this`lexErr
      ensures Read(LexExponent(src, old(pos), k), old(start), t)
    {
      hide NulBetween, RunEnd, LexExponentEnd, NumberEnd;
      var r := Peek();
      if r != Some('e') && r != Some('E') {
        t := FinishNumber(k);
        return;
      }
      r := Eat();
      if r == Some('-') || r == Some('+') { r := Eat(); }
      t := LexExponentDigits();
    }

    method LexExponentDigits() returns (t: Token)
      requires Noted()
      modifies this`pos, this`start, this`lexErr
      ensures Read(LexExponentEnd(src, old(pos)), old(start), t)
    {
      var r := Peek();
      if !(r.Some? && IsDigit(r.value)) {
        t := UnexpectedHere();
        return;
      }
      r := EatRun(Digit);
      t := FinishNumber(Float);
    }

    /** A letter or digit must not follow a number. */
    method FinishNumber(k: Kind) returns (t: Token)
      requires Noted()
      modifies this`start, this`lexErr
      ensures Read(NumberEnd(src, pos, k), old(start), t)
    {
      var r := Peek();
      if r.Some? && IsAlnum(r.value) {
        t := UnexpectedHere();
      } else {
        t := MakeToken(k);
      }
    }

    method LexHexInt() returns (t: Token)
      requires Noted()
      modifies this`pos, this`start, this`lexErr
      ensures Read(LexHex(src, old(pos)), old(start), t)
    {
      var r := Peek();
      if r == Some('0') {
        r := Eat();
      } else {
        if !(r.Some? && IsHexDigit(r.value)) {
          t := UnexpectedHere();
          return;
        }
        r := EatRun(HexDigit);
      }
      t := FinishNumber(Int);
    }

    method LexString() returns (t: Token)
      requires Noted() && Is(src, pos, '\'')
      modifies this`pos, this`start, this`lexErr
      ensures Read(LexStringRest(src, old(pos) + 1), old(start), t)
    {
      while true
        invariant Noted() && pos < |src| && start == old(start)
        invariant LexStringRest(src, pos + 1) == LexStringRest(src, old(pos) + 1)
        decreases |src| - pos
      {
        var r := Eat();
        if r == Some('\'') {
          r := Eat();
          if r != Some('\'') {
            t := MakeToken(String);
            return;
          }
        } else if r.None? {
          t := UnexpectedHere();
          return;
        }
      }
    }

    method LexDouble(second: char, k: Kind) returns (t: Token)
      requires Noted() && pos < |src|
      modifies this`pos, this`start, this`lexErr
      ensures Read(LexPair(src, old(pos), second, k), old(start), t)
    {
      var r := Eat();
      if r != Some(second) {
        t := UnexpectedHere();
        return;
      }
      var _ := Eat();
      t := MakeToken(k);
    }

    method LexWithEq(short: Kind, long: Kind) returns (t: Token)
      requires Noted() && pos < |src|
      modifies this`pos, this`start, this`lexErr
      ensures Read(LexMaybeEq(src, old(pos), short, long), old(start), t)
    {
      var k := short;
      var r := Eat();
      if r == Some('=') {
        k := long;
        var _ := Eat();
      }
      t := MakeToken(k);
    }

    method LexChar(k: Kind) returns (t: Token)
      requires Noted() && pos < |src|
      modifies this`pos, this`start, this`lexErr
      ensures Read(Tok(k, old(pos) + 1), old(start), t)
    {
      var _ := Eat();
      t := MakeToken(k);
    }

    /** Lexes the token that starts at the current character. */
    method LexToken(c: char) returns (t: Token)
      requires Noted() && Ahead() == Some(c)
      modifies this`pos, this`start, this`lexErr
      ensures Read(LexShape(src, old(pos)), old(start), t)
    {
      if IsAlpha(c) || c == '_' {
        t := LexIdent();
      } else if IsDigit(c) || c == '-' {
        t := LexNum();
      } else {
        match c {
          case '\'' => t := LexString();
          case '}' => t := LexDouble('}', End);
          case '!' => t := LexWithEq(Bang, NotEq);
          case '<' => t := LexWithEq(Less, LessEq);
          case '>' => t := LexWithEq(Greater, GreaterEq);
          case '=' => t := LexDouble('=', EqEq);
          case '&' => t := LexDouble('&', AndAnd);
          case '|' => t := LexDouble('|', OrOr);
          case '(' => t := LexChar(LeftParen);
          case ')' => t := LexChar(RightParen);
          case '[' => t := LexChar(LeftBracket);
          case ']' => t := LexChar(RightBracket);
          case '.' => t := LexChar(Dot);
          case '*' => t := LexChar(Star);
          case ',' => t := LexChar(Comma);
          case _ => t := UnexpectedHere();
        }
      }
    }

    /** Lexes one token; the whole new state is a function of the old one. */
    method Next() returns (t: Token)
      requires Valid()
      modifies this
      ensures Valid()
      ensures var l := Lex(src, old(start), old(pos));
        && t == l.tok && start == l.start && pos == l.pos
        && lexErr == First(old(lexErr), l.err)
    {
      origin, before := pos, lexErr;
      SkipWhite();
      if pos == |src| {
        t := UnexpectedHere();
      } else {
        t := LexToken(src[pos]);
      }
    }
  }

  // ----- lexing a whole expression -----

  datatype LexResult =
    | Lexemes(tokens: seq<Token>, offset: nat)
    | LexFailure(error: LexError, offset: nat)

  /** All tokens up to the end marker, or the first error. */
  method LexExpression(src: string) returns (r: LexResult)
    ensures var ls := Scan(src, 0, 0);
      match r
      case Lexemes(ts, offset) =>
        ts == Tokens(ls) && FirstError(ls, |ls|) == None && offset == ls[|ls| - 1].pos
      case LexFailure(e, offset) =>
        exists n | 0 < n <= |ls| :: FirstError(ls, n - 1) == None && FirstError(ls, n) == Some(e) && offset == ls[n - 1].pos
  {
    hide Lex;
    ghost var ls := Scan(src, 0, 0);
    ScanSteps(src, 0, 0);
    var l := new Lexer(src);
    var ts: seq<Token> := [];
    while true
      invariant fresh(l) && l.Valid() && l.src == src && l.lexErr == None
      invariant |ts| < |ls| && ts == Tokens(ls)[..|ts|]
      invariant FirstError(ls, |ts|) == None
      invariant ls[|ts|] == Lex(src, l.start, l.pos)
      decreases |ls| - |ts|
    {
      var t := l.Next();
      assert FirstError(ls, |ts| + 1) == l.lexErr;
      if l.lexErr.Some? {
        return LexFailure(l.lexErr.value, l.pos);
      }
      ts := ts + [t];
      if t.kind == End {
        assert Tokens(ls)[|ts| - 1].kind == End;
        return Lexemes(ts, l.pos);
      }
    }
  }
}
