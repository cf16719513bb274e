/** Printing an expression and parsing the text gives the expression back. */
module RoundTrip {
  import opened Text
  import opened Syntax
  import opened Lexing
  import opened Relexing
  import opened Numbers
  import opened Depth
  import opened Parsing
  import opened Grammar

  // ----- text -----

  datatype Lexeme = Lexeme(kind: Kind, text: string)

  predicate NoNul(s: string) {
    forall i | 0 <= i < |s| :: s[i] != NUL
  }

  /** The text is one token of its kind. */
  predicate IsLexeme(x: Lexeme) {
    x.kind != End && x.text != "" && NoNul(x.text) && LexShape(x.text, 0) == Tok(x.kind, |x.text|)
  }

  predicate StopsBefore(x: Lexeme, c: char) {
    Stops(x.kind, HexAt(x.text, 0), c)
  }

  /** Any whitespace between tokens, which may be empty where the next token's text cannot extend this one. */
  predicate Spaced(xs: seq<Lexeme>, gaps: seq<string>) {
    && |gaps| == |xs| + 1
    && AllWhite(gaps[0])
    && (xs != [] ==>
        && (gaps[1] != "" || |xs| == 1 || (xs[1].text != "" && StopsBefore(xs[0], xs[1].text[0])))
        && Spaced(xs[1..], gaps[1..]))
  }

  /** The tokens with the gaps around them, the end marker, and whatever text comes after it. */
  function Layout(xs: seq<Lexeme>, gaps: seq<string>, rest: string): (t: string)
    requires |gaps| == |xs| + 1
    ensures |rest| < |t|
  {
    if xs == [] then gaps[0] + "}}" + rest
    else gaps[0] + xs[0].text + Layout(xs[1..], gaps[1..], rest)
  }

  lemma {:induction false} NoNulBetween(src: string, lo: nat, hi: nat)
    requires lo <= hi <= |src|
    requires forall k | lo <= k <= hi && k < |src| :: src[k] != NUL
    ensures NulBetween(src, lo, hi) == None
    decreases hi - lo
  {
    if lo < hi { NoNulBetween(src, lo + 1, hi); }
  }

  lemma LexemeStart(x: Lexeme)
    requires IsLexeme(x)
    ensures x.text != "" && !IsWhite(x.text[0]) && x.kind != End
  {
  }

  /** One token after a gap. */
  lemma LexOne(src: string, p: nat, gap: string, x: Lexeme, tail: string)
    requires p <= |src| && src[p..] == gap + x.text + tail && AllWhite(gap) && IsLexeme(x)
    requires tail != "" ==> tail[0] != NUL && StopsBefore(x, tail[0])
    ensures x.kind != End
    ensures var q := p + |gap|;
      Lex(src, p, p) == Lexed(Token(x.kind, x.text, q), q + |x.text|, q + |x.text|, None)
  {
    hide LexShape, StopsBefore, RunEnd, NulBetween, AllWhite, IsLexeme;
    var q := p + |gap|;
    var e := q + |x.text|;
    Slices(src, p, gap, x.text, tail);
    LexemeStart(x);
    GapEnds(src, p, gap);
    ShapeOf(src, q, x);
    NothingNul(src, p, q, e, x);
  }

  lemma GapEnds(src: string, p: nat, gap: string)
    requires p + |gap| <= |src| && src[p..p + |gap|] == gap && AllWhite(gap)
    requires p + |gap| < |src| ==> !IsWhite(src[p + |gap|])
    ensures RunEnd(src, p, White) == p + |gap|
  {
    assert forall k | p <= k < p + |gap| :: src[k] == gap[k - p];
    RunEndIs(src, p, White, p + |gap|);
  }

  lemma ShapeOf(src: string, q: nat, x: Lexeme)
    requires IsLexeme(x) && q + |x.text| <= |src| && src[q..q + |x.text|] == x.text
    requires q + |x.text| < |src| ==> StopsBefore(x, src[q + |x.text|])
    ensures LexShape(src, q) == Tok(x.kind, q + |x.text|)
  {
    hide LexShape, Stops, HexAt;
    assert x.text[0..0 + |x.text|] == x.text;
    SameIntro(x.text, 0, src, q, |x.text|);
    ShapeLocal(x.text, 0, src, q);
  }

  lemma NothingNul(src: string, p: nat, q: nat, e: nat, x: Lexeme)
    requires p <= q <= e <= |src| && AllWhite(src[p..q]) && src[q..e] == x.text && IsLexeme(x)
    requires e < |src| ==> src[e] != NUL
    ensures NulBetween(src, p, e) == None
  {
    hide LexShape;
    assert forall k | p <= k < q :: src[k] == src[p..q][k - p];
    assert forall k | q <= k < e :: src[k] == src[q..e][k - q];
    NoNulBetween(src, p, e);
  }

  lemma Slices(src: string, p: nat, a: string, b: string, c: string)
    requires p <= |src| && src[p..] == a + b + c
    ensures var q, e := p + |a|, p + |a| + |b|;
      && e <= |src| && src[p..q] == a && src[q..e] == b && (b != "" ==> src[q] == b[0])
      && (c == "" ==> e == |src|) && (c != "" ==> e < |src| && src[e] == c[0])
  {
    var t := src[p..];
    assert t[..|a|] == a && t[|a|..|a| + |b|] == b;
    assert src[p..p + |a|] == t[..|a|] && src[p + |a|..p + |a| + |b|] == t[|a|..|a| + |b|];
    if c != "" { assert t[|a| + |b|] == c[0]; }
  }

  /** The end marker after a gap. */
  lemma LexEndMarker(src: string, p: nat, gap: string, rest: string)
    requires p <= |src| && src[p..] == gap + "}}" + rest && AllWhite(gap) && (rest != "" ==> rest[0] != NUL)
    ensures var q := p + |gap|; Lex(src, p, p) == Lexed(Token(End, "}}", q), q + 2, q + 2, None)
  {
    LexPairMarker();
    var q := p + |gap|;
    assert forall k | p <= k < |src| :: src[k] == (gap + "}}" + rest)[k - p];
    assert src[q..q + 2] == "}}";
    assert src[q] == src[q..q + 2][0];
    assert forall k | p <= k < q :: src[k] == gap[k - p];
    RunEndIs(src, p, White, q);
    NoNulBetween(src, p, q + 2);
  }

  lemma LexPairMarker()
    ensures LexShape("}}", 0) == Tok(End, 2)
  {
  }

  /** Scanning a layout yields its lexemes and then the end token, without an error. */
  ghost predicate Scanned(ls: seq<Lexed>, xs: seq<Lexeme>, end: nat) {
    && |ls| == |xs| + 1
    && (forall i | 0 <= i < |xs| :: ls[i].tok.kind == xs[i].kind && ls[i].tok.value == xs[i].text)
    && (forall i | 0 <= i < |ls| :: ls[i].err == None)
    && ls[|xs|].tok.kind == End && ls[|xs|].pos == end
  }

  lemma {:induction false} ScanLayout(xs: seq<Lexeme>, gaps: seq<string>, rest: string, src: string, p: nat)
    requires (forall x | x in xs :: IsLexeme(x)) && Spaced(xs, gaps) && (rest != "" ==> rest[0] != NUL)
    requires p <= |src| && src[p..] == Layout(xs, gaps, rest)
    ensures |rest| <= |src| && Scanned(Scan(src, p, p), xs, |src| - |rest|)
    decreases |xs|
  {
    hide Lex, LexShape, IsLexeme, Spaced, AllWhite, StopsBefore, Scanned;
    SpacedGaps(xs, gaps);
    if xs == [] {
      LexEndMarker(src, p, gaps[0], rest);
      ScannedEnd(Lex(src, p, p), |src| - |rest|);
    } else {
      var tail := Layout(xs[1..], gaps[1..], rest);
      TailStops(xs, gaps, rest);
      assert xs[0] in xs;
      LexOne(src, p, gaps[0], xs[0], tail);
      var e := p + |gaps[0]| + |xs[0].text|;
      assert src[e..] == src[p..][e - p..] == tail;
      ScanLayout(xs[1..], gaps[1..], rest, src, e);
      ScannedMore(Lex(src, p, p), Scan(src, e, e), xs, |src| - |rest|);
    }
  }

  lemma ScannedEnd(l: Lexed, end: nat)
    requires l.tok.kind == End && l.err == None && l.pos == end
    ensures Scanned([l], [], end)
  {
  }

  lemma ScannedMore(l: Lexed, ls: seq<Lexed>, xs: seq<Lexeme>, end: nat)
    requires xs != [] && l.tok.kind == xs[0].kind && l.tok.value == xs[0].text && l.err == None && Scanned(ls, xs[1..], end)
    ensures Scanned([l] + ls, xs, end)
  {
    assert forall i | 0 < i < |xs| :: xs[i] == xs[1..][i - 1];
  }

  /** What follows a token in a layout does not extend it. */
  lemma TailStops(xs: seq<Lexeme>, gaps: seq<string>, rest: string)
    requires (forall x | x in xs :: IsLexeme(x)) && Spaced(xs, gaps) && xs != []
    ensures |gaps| == |xs| + 1
    ensures var tail := Layout(xs[1..], gaps[1..], rest); tail != "" && tail[0] != NUL && StopsBefore(xs[0], tail[0])
  {
    hide IsLexeme, StopsBefore, AllWhite, Layout, Spaced;
    SpacedGaps(xs, gaps);
    LayoutStart(xs[1..], gaps[1..], rest);
  }

  lemma SpacedGaps(xs: seq<Lexeme>, gaps: seq<string>)
    requires Spaced(xs, gaps)
    ensures |gaps| == |xs| + 1 && AllWhite(gaps[0]) && (xs != [] ==> Spaced(xs[1..], gaps[1..]))
    ensures |xs| > 1 && gaps[1] == "" ==> xs[1].text != "" && StopsBefore(xs[0], xs[1].text[0])
  {
    hide AllWhite, StopsBefore;
  }

  /** What a layout begins with. */
  lemma LayoutStart(xs: seq<Lexeme>, gaps: seq<string>, rest: string)
    requires (forall x | x in xs :: IsLexeme(x)) && Spaced(xs, gaps)
    ensures var t := Layout(xs, gaps, rest);
      && t != ""
      && (gaps[0] != "" ==> t[0] == gaps[0][0] && IsWhite(t[0]))
      && (gaps[0] == "" && xs == [] ==> t[0] == '}')
      && (gaps[0] == "" && xs != [] ==> xs[0].text != "" && t[0] == xs[0].text[0])
      && t[0] != NUL
    ensures forall x: Lexeme, c | IsWhite(c) || c == '}' :: StopsBefore(x, c)
  {
    if xs != [] { assert xs[0] in xs; }
  }

  // ----- the tokens of a derivation as lexemes -----

  function Lexemes(c: Cst): (xs: seq<Lexeme>)
    ensures |xs| == Width(c)
    decreases c
  {
    match c
    case WordC(t) => [Lexeme(Ident, t)]
    case IntC(t) => [Lexeme(Int, t)]
    case FloatC(t) => [Lexeme(Float, t)]
    case StringC(t) => [Lexeme(String, t)]
    case ParenC(x) => [Lexeme(LeftParen, "(")] + Lexemes(x) + [Lexeme(RightParen, ")")]
    case CallC(f, args) =>
      [Lexeme(Ident, f), Lexeme(LeftParen, "(")] + ArgLexemes(args) + [Lexeme(RightParen, ")")]
    case PropertyC(x, n) => Lexemes(x) + [Lexeme(Dot, "."), Lexeme(Ident, n)]
    case FilterC(x) => Lexemes(x) + [Lexeme(Dot, "."), Lexeme(Star, "*")]
    case IndexC(x, y) => Lexemes(x) + [Lexeme(LeftBracket, "[")] + Lexemes(y) + [Lexeme(RightBracket, "]")]
    case NotC(x) => [Lexeme(Bang, "!")] + Lexemes(x)
    case CompareC(op, x, y) => Lexemes(x) + [CompareLexeme(op)] + Lexemes(y)
    case LogicC(k, x, y) => Lexemes(x) + [if k == And then Lexeme(AndAnd, "&&") else Lexeme(OrOr, "||")] + Lexemes(y)
  }

  function ArgLexemes(args: seq<Cst>): (xs: seq<Lexeme>)
    ensures |xs| == ArgsWidth(args)
    decreases args
  {
    if args == [] then []
    else if |args| == 1 then Lexemes(args[0])
    else Lexemes(args[0]) + [Lexeme(Comma, ",")] + ArgLexemes(args[1..])
  }

  function CompareLexeme(op: CompareOp): Lexeme {
    match op
    case Lt => Lexeme(Less, "<")
    case Le => Lexeme(LessEq, "<=")
    case Gt => Lexeme(Greater, ">")
    case Ge => Lexeme(GreaterEq, ">=")
    case Eq => Lexeme(EqEq, "==")
    case Ne => Lexeme(NotEq, "!=")
  }

  /** The tokens from i on are the given lexemes. */
  ghost predicate TokensAre(ts: seq<Token>, i: nat, xs: seq<Lexeme>) {
    i + |xs| <= |ts| && forall k | 0 <= k < |xs| :: ts[i + k].kind == xs[k].kind && ts[i + k].value == xs[k].text
  }

  lemma TokensSplit(ts: seq<Token>, i: nat, a: seq<Lexeme>, b: seq<Lexeme>)
    requires TokensAre(ts, i, a + b)
    ensures TokensAre(ts, i, a) && TokensAre(ts, i + |a|, b)
  {
    forall k | 0 <= k < |a|
      ensures ts[i + k].kind == a[k].kind && ts[i + k].value == a[k].text
    {
      assert (a + b)[k] == a[k];
    }
    forall k | 0 <= k < |b|
      ensures ts[i + |a| + k].kind == b[k].kind && ts[i + |a| + k].value == b[k].text
    {
      assert (a + b)[|a| + k] == b[k] && ts[i + (|a| + k)].kind == (a + b)[|a| + k].kind;
    }
  }

  lemma TokenFirst(ts: seq<Token>, i: nat, xs: seq<Lexeme>)
    requires TokensAre(ts, i, xs) && xs != []
    ensures TokenReads(ts, i, xs[0].kind, xs[0].text)
  {
    assert ts[i + 0].kind == xs[0].kind;
  }

  /** The operator between two operands, and the operands. */
  lemma TokensInfix(ts: seq<Token>, i: nat, a: seq<Lexeme>, x: Lexeme, b: seq<Lexeme>)
    requires TokensAre(ts, i, a + [x] + b)
    ensures TokensAre(ts, i, a) && TokenReads(ts, i + |a|, x.kind, x.text) && TokensAre(ts, i + |a| + 1, b)
  {
    TokensSplit(ts, i, a + [x], b);
    TokensSplit(ts, i, a, [x]);
    TokenFirst(ts, i + |a|, [x]);
  }

  lemma {:induction false} TokensSpell(c: Cst, ts: seq<Token>, i: nat)
    requires TokensAre(ts, i, Lexemes(c))
    ensures Spells(c, ts, i)
    decreases c
  {
    hide Spells, Lexemes;
    match c
    case WordC(_) | IntC(_) | FloatC(_) | StringC(_) => SpellLeaf(c, ts, i);
    case ParenC(_) => SpellParen(c, ts, i);
    case CallC(_, _) => SpellCall(c, ts, i);
    case PropertyC(_, _) | FilterC(_) => SpellMember(c, ts, i);
    case IndexC(_, _) => SpellIndex(c, ts, i);
    case NotC(_) => SpellNot(c, ts, i);
    case CompareC(_, _, _) | LogicC(_, _, _) => SpellBinary(c, ts, i);
  }

  lemma SpellLeaf(c: Cst, ts: seq<Token>, i: nat)
    requires (c.WordC? || c.IntC? || c.FloatC? || c.StringC?) && TokensAre(ts, i, Lexemes(c))
    ensures Spells(c, ts, i)
  {
    TokenFirst(ts, i, Lexemes(c));
  }

  lemma {:induction false} SpellMember(c: Cst, ts: seq<Token>, i: nat)
    requires (c.PropertyC? || c.FilterC?) && TokensAre(ts, i, Lexemes(c))
    ensures Spells(c, ts, i)
    decreases c, 0
  {
    var name := if c.PropertyC? then Lexeme(Ident, c.name) else Lexeme(Star, "*");
    assert Lexemes(c) == Lexemes(c.of) + [Lexeme(Dot, ".")] + [name];
    TokensInfix(ts, i, Lexemes(c.of), Lexeme(Dot, "."), [name]);
    TokenFirst(ts, i + Width(c.of) + 1, [name]);
    TokensSpell(c.of, ts, i);
  }

  lemma {:induction false} SpellNot(c: Cst, ts: seq<Token>, i: nat)
    requires c.NotC? && TokensAre(ts, i, Lexemes(c))
    ensures Spells(c, ts, i)
    decreases c, 0
  {
    assert Lexemes(c) == [] + [Lexeme(Bang, "!")] + Lexemes(c.of);
    TokensInfix(ts, i, [], Lexeme(Bang, "!"), Lexemes(c.of));
    TokensSpell(c.of, ts, i + 1);
  }

  lemma {:induction false} SpellBinary(c: Cst, ts: seq<Token>, i: nat)
    requires (c.CompareC? || c.LogicC?) && TokensAre(ts, i, Lexemes(c))
    ensures Spells(c, ts, i)
    decreases c, 0
  {
    hide Spells, Width;
    SpellsTwo(c, c.left, c.right, ts, i);
    var op := if c.CompareC? then CompareLexeme(c.op)
      else if c.kind == And then Lexeme(AndAnd, "&&") else Lexeme(OrOr, "||");
    TokensInfix(ts, i, Lexemes(c.left), op, Lexemes(c.right));
    TokensSpell(c.left, ts, i);
    TokensSpell(c.right, ts, i + Width(c.left) + 1);
  }

  lemma {:induction false} SpellParen(c: Cst, ts: seq<Token>, i: nat)
    requires c.ParenC? && TokensAre(ts, i, Lexemes(c))
    ensures Spells(c, ts, i)
    decreases c, 0
  {
    var open, close := [Lexeme(LeftParen, "(")], Lexeme(RightParen, ")");
    assert open + Lexemes(c.inner) + [close] + [] == Lexemes(c);
    TokensInfix(ts, i, open + Lexemes(c.inner), close, []);
    TokensSplit(ts, i, open, Lexemes(c.inner));
    TokenFirst(ts, i, open);
    TokensSpell(c.inner, ts, i + 1);
  }

  lemma {:induction false} SpellIndex(c: Cst, ts: seq<Token>, i: nat)
    requires c.IndexC? && TokensAre(ts, i, Lexemes(c))
    ensures Spells(c, ts, i)
    decreases c, 0
  {
    hide Spells, Lexemes, Width;
    var x, y := c.of, c.index;
    var left, right := Lexeme(LeftBracket, "["), Lexeme(RightBracket, "]");
    IndexLexemes(c);
    TokensInfix(ts, i, Lexemes(x) + [left] + Lexemes(y), right, []);
    TokensInfix(ts, i, Lexemes(x), left, Lexemes(y));
    TokensSpell(x, ts, i);
    TokensSpell(y, ts, i + Width(x) + 1);
    IndexSpells(c, ts, i);
  }

  lemma IndexLexemes(c: Cst)
    requires c.IndexC?
    ensures Lexemes(c) == Lexemes(c.of) + [Lexeme(LeftBracket, "[")] + Lexemes(c.index) + [Lexeme(RightBracket, "]")] + []
  {
  }

  lemma IndexSpells(c: Cst, ts: seq<Token>, i: nat)
    requires c.IndexC? && Spells(c.of, ts, i) && TokenIs(ts, i + Width(c.of), LeftBracket)
    requires Spells(c.index, ts, i + Width(c.of) + 1) && TokenIs(ts, i + Width(c.of) + 1 + Width(c.index), RightBracket)
    ensures Spells(c, ts, i)
  {
  }

  lemma {:induction false} SpellCall(c: Cst, ts: seq<Token>, i: nat)
    requires c.CallC? && TokensAre(ts, i, Lexemes(c))
    ensures Spells(c, ts, i)
    decreases c, 0
  {
    var head := [Lexeme(Ident, c.callee), Lexeme(LeftParen, "(")];
    var args := ArgLexemes(c.args);
    assert head + args + [Lexeme(RightParen, ")")] + [] == Lexemes(c);
    TokensInfix(ts, i, head + args, Lexeme(RightParen, ")"), []);
    TokensSplit(ts, i, head, args);
    TokenFirst(ts, i, head);
    TokensSplit(ts, i, head[..1], head[1..]);
    TokenFirst(ts, i + 1, head[1..]);
    TokensSpellArgs(c.args, ts, i + 2);
  }

  lemma {:induction false} TokensSpellArgs(args: seq<Cst>, ts: seq<Token>, i: nat)
    requires TokensAre(ts, i, ArgLexemes(args))
    ensures SpellsArgs(args, ts, i)
    decreases args
  {
    if |args| == 1 {
      TokensSpell(args[0], ts, i);
    } else if |args| > 1 {
      TokensInfix(ts, i, Lexemes(args[0]), Lexeme(Comma, ","), ArgLexemes(args[1..]));
      TokensSpell(args[0], ts, i);
      TokensSpellArgs(args[1..], ts, i + Width(args[0]) + 1);
    }
  }

  // ----- every derivation is recognised, in every layout -----

  /** The tree of a derivation laid out with the given gaps. */
  function TreeOf(c: Cst, gaps: seq<string>, rest: string): Expr
    requires |gaps| == Width(c) + 1
  {
    var ts := Tokens(Scan(Layout(Lexemes(c), gaps, rest), 0, 0));
    if Width(c) <= |ts| then Build(c, ts, 0) else NullLit(NO_SPAN)
  }

  /** Parsing any layout of a derivation, with redundant parentheses or not, yields its tree. */
  lemma Recognised(c: Cst, gaps: seq<string>, rest: string)
    requires WellFormed(c, OR_LEVEL) && (forall x | x in Lexemes(c) :: IsLexeme(x))
    requires Spaced(Lexemes(c), gaps) && (rest != "" ==> rest[0] != NUL)
    ensures var src, tree := Layout(Lexemes(c), gaps, rest), TreeOf(c, gaps, rest);
      ParseSource(src) ==
        if Exceeding(tree, 1).None? then Tree(tree, |src| - |rest|)
        else ParseFailure(TooDeep(Exceeding(tree, 1).value))
  {
    hide Build, Spells, WellFormed, ParseOr, Exceeding, Lexemes, Layout, Scan, IsLexeme, Lex, Spaced, FirstError, Width, ParseAnd;
    SpacedGaps(Lexemes(c), gaps);
    var src := Layout(Lexemes(c), gaps, rest);
    var ls := Scan(src, 0, 0);
    LayoutSpells(c, gaps, rest);
    ScanSteps(src, 0, 0);
    Complete(c, Tokens(ls), 0, OR_LEVEL);
  }

  /** Scanning a layout of a derivation yields tokens that spell it, then the end token, and no error. */
  lemma LayoutSpells(c: Cst, gaps: seq<string>, rest: string)
    requires (forall x | x in Lexemes(c) :: IsLexeme(x)) && Spaced(Lexemes(c), gaps) && (rest != "" ==> rest[0] != NUL)
    ensures var src := Layout(Lexemes(c), gaps, rest); var ls := Scan(src, 0, 0); var n := Width(c);
      && |ls| == n + 1 && Spells(c, Tokens(ls), 0) && FirstError(ls, n + 1) == None
      && ls[n].tok.kind == End && ls[n].pos == |src| - |rest|
  {
    hide Build, Spells, Lexemes, Layout, Scan, Width, IsLexeme, Lex, Spaced;
    var xs := Lexemes(c);
    SpacedGaps(xs, gaps);
    var src := Layout(xs, gaps, rest);
    var ls := Scan(src, 0, 0);
    assert src[0..] == src;
    ScanLayout(xs, gaps, rest, src, 0);
    TokensSpell(c, Tokens(ls), 0);
    NoErrors(ls, |ls|);
  }

  lemma {:induction false} NoErrors(ls: seq<Lexed>, n: nat)
    requires n <= |ls| && forall i | 0 <= i < n :: ls[i].err == None
    ensures FirstError(ls, n) == None
  {
    if n > 0 { NoErrors(ls, n - 1); }
  }

  // ----- printing -----

  /** The text with its quotes doubled. */
  function Escape(s: string): string {
    if s == "" then "" else (if s[0] == '\'' then "''" else [s[0]]) + Escape(s[1..])
  }

  function Quote(s: string): string {
    "'" + Escape(s) + "'"
  }

  /** The derivation of an expression with the parentheses its context needs. */
  function Unparse(e: Expr, l: Level): Cst
    decreases e, 1
  {
    var c := Form(e);
    if l <= LevelOf(c) then c else ParenC(c)
  }

  function Form(e: Expr): Cst
    decreases e, 0
  {
    match e
    case NullLit(_) => WordC("null")
    case BoolLit(_, b) => WordC(if b then "true" else "false")
    case IntLit(_, t) => IntC(t)
    case FloatLit(_, t) => FloatC(t)
    case StrLit(_, s) => StringC(Quote(s))
    case Variable(_, n) => WordC(n)
    case Property(_, r, n) => PropertyC(Unparse(r, POSTFIX_LEVEL), n)
    case Filter(_, r) => FilterC(Unparse(r, POSTFIX_LEVEL))
    case Index(_, o, i) => IndexC(Unparse(o, POSTFIX_LEVEL), Unparse(i, OR_LEVEL))
    case Not(_, o) => NotC(Unparse(o, PREFIX_LEVEL))
    case Compare(_, op, l, r) => CompareC(op, Unparse(l, PREFIX_LEVEL), Unparse(r, COMPARE_LEVEL))
    case Logic(_, And, l, r) => LogicC(And, Unparse(l, COMPARE_LEVEL), Unparse(r, AND_LEVEL))
    case Logic(_, Or, l, r) => LogicC(Or, Unparse(l, AND_LEVEL), Unparse(r, OR_LEVEL))
    case Call(_, f, args) => CallC(f, UnparseArgs(args))
  }

  function UnparseArgs(args: seq<Expr>): (cs: seq<Cst>)
    ensures |cs| == |args|
    ensures forall k | 0 <= k < |args| :: cs[k] == Unparse(args[k], OR_LEVEL)
    decreases args
  {
    if args == [] then [] else [Unparse(args[0], OR_LEVEL)] + UnparseArgs(args[1..])
  }

  predicate IsName(s: string) {
    IsLexeme(Lexeme(Ident, s))
  }

  /** Names and number texts are tokens, numbers are in range, and strings hold no NUL. */
  predicate Printable(e: Expr)
    decreases e
  {
    (forall c | c in Children(e) :: Printable(c)) &&
    match e
    case IntLit(_, t) => IsLexeme(Lexeme(Int, t)) && ParseInt32(t).Some?
    case FloatLit(_, t) => IsLexeme(Lexeme(Float, t)) && ParseFloat64(t).Some?
    case StrLit(_, s) => NoNul(s)
    case Variable(_, n) => IsName(n) && n != "null" && n != "true" && n != "false"
    case Property(_, _, n) => IsName(n)
    case Call(_, f, _) => IsName(f)
    case _ => true
  }

  lemma PrintableParts(e: Expr)
    requires Printable(e)
    ensures forall c | c in Children(e) :: Printable(c)
    ensures (e.Compare? || e.Logic?) ==> Printable(e.left) && Printable(e.right)
    ensures (e.Property? || e.Filter?) ==> Printable(e.receiver)
    ensures e.Index? ==> Printable(e.operand) && Printable(e.index)
    ensures e.Not? ==> Printable(e.operand)
  {
    hide IsLexeme, ParseInt32, ParseFloat64;
    assert forall i | 0 <= i < |Children(e)| :: Children(e)[i] in Children(e);
    match e
    case Compare(_, _, l, r) => assert Children(e)[0] == l && Children(e)[1] == r;
    case Logic(_, _, l, r) => assert Children(e)[0] == l && Children(e)[1] == r;
    case Property(_, r, _) => assert Children(e)[0] == r;
    case Filter(_, r) => assert Children(e)[0] == r;
    case Index(_, o, i) => assert Children(e)[0] == o && Children(e)[1] == i;
    case Not(_, o) => assert Children(e)[0] == o;
    case _ =>
  }

  lemma {:induction false} UnescapeEscape(s: string)
    ensures Unescape(Escape(s)) == s
  {
    if s != "" {
      UnescapeEscape(s[1..]);
      var t := Escape(s[1..]);
      if s[0] == '\'' {
        assert Escape(s)[2..] == t;
      } else {
        assert Escape(s)[1..] == t && Escape(s)[0] == s[0];
      }
    }
  }

  lemma QuotedValue(s: string)
    ensures StringValue(Quote(s)) == s
  {
    assert Quote(s)[1..|Quote(s)| - 1] == Escape(s);
    UnescapeEscape(s);
  }

  /** Scanning an escaped string from inside stops at its closing quote. */
  lemma {:induction false} EscapedRest(src: string, q: nat, s: string)
    requires q <= |src| && src[q..] == Escape(s) + "'"
    ensures LexStringRest(src, q) == Tok(String, |src|)
    decreases |s|
  {
    assert forall k | 0 <= k < |src| - q :: src[q + k] == src[q..][k];
    if s == "" {
      assert |src| == q + 1 && src[q] == src[q..][0];
    } else {
      var t := Escape(s[1..]);
      if s[0] == '\'' {
        assert src[q] == src[q..][0] && src[q + 1] == src[q..][1];
        assert src[q + 2..] == src[q..][2..] == t + "'";
        EscapedRest(src, q + 2, s[1..]);
      } else {
        assert src[q] == src[q..][0] == s[0];
        assert src[q + 1..] == src[q..][1..] == t + "'";
        EscapedRest(src, q + 1, s[1..]);
      }
    }
  }

  lemma {:induction false} EscapeNoNul(s: string)
    requires NoNul(s)
    ensures NoNul(Escape(s))
  {
    if s != "" { EscapeNoNul(s[1..]); }
  }

  lemma QuotedLexeme(s: string)
    requires NoNul(s)
    ensures IsLexeme(Lexeme(String, Quote(s)))
  {
    var t := Quote(s);
    assert t[1..] == Escape(s) + "'";
    EscapedRest(t, 1, s);
    EscapeNoNul(s);
  }

  lemma {:induction false} UnparseWellFormed(e: Expr, l: Level)
    requires Printable(e)
    ensures WellFormed(Unparse(e, l), l)
    decreases e, 2
  {
    FormWellFormed(e);
    var c := Form(e);
    if l <= LevelOf(c) { Looser(c, l, LevelOf(c)); } else { Looser(c, OR_LEVEL, LevelOf(c)); }
  }

  lemma {:induction false} FormWellFormed(e: Expr)
    requires Printable(e)
    ensures WellFormed(Form(e), LevelOf(Form(e)))
    decreases e, 1
  {
    hide Unparse, IsLexeme, ParseInt32, ParseFloat64, Printable, WellFormed, Form;
    PrintableParts(e);
    if e.Not? || e.Compare? || e.Logic? {
      OperatorWellFormed(e);
    } else if e.Call? {
      CallWellFormed(e);
    } else if Children(e) == [] {
      LeafWellFormed(e);
    } else {
      PostfixWellFormed(e);
    }
  }

  lemma LeafWellFormed(e: Expr)
    requires Printable(e) && Children(e) == [] && !e.Call?
    ensures WellFormed(Form(e), LevelOf(Form(e)))
  {
    hide IsLexeme, ParseInt32, ParseFloat64;
  }

  lemma {:induction false} PostfixWellFormed(e: Expr)
    requires Printable(e) && (e.Property? || e.Filter? || e.Index?)
    ensures WellFormed(Form(e), LevelOf(Form(e)))
    decreases e, 0
  {
    hide Unparse, Printable;
    PrintableParts(e);
    match e
    case Property(_, r, _) => UnparseWellFormed(r, POSTFIX_LEVEL);
    case Filter(_, r) => UnparseWellFormed(r, POSTFIX_LEVEL);
    case Index(_, o, i) => UnparseWellFormed(o, POSTFIX_LEVEL); UnparseWellFormed(i, OR_LEVEL);
  }

  lemma {:induction false} OperatorWellFormed(e: Expr)
    requires Printable(e) && (e.Not? || e.Compare? || e.Logic?)
    ensures WellFormed(Form(e), LevelOf(Form(e)))
    decreases e, 0
  {
    hide Unparse, Printable;
    PrintableParts(e);
    match e
    case Not(_, o) => UnparseWellFormed(o, PREFIX_LEVEL);
    case Compare(_, _, l, r) => UnparseWellFormed(l, PREFIX_LEVEL); UnparseWellFormed(r, COMPARE_LEVEL);
    case Logic(_, And, l, r) => UnparseWellFormed(l, COMPARE_LEVEL); UnparseWellFormed(r, AND_LEVEL);
    case Logic(_, Or, l, r) => UnparseWellFormed(l, AND_LEVEL); UnparseWellFormed(r, OR_LEVEL);
  }

  lemma {:induction false} CallWellFormed(e: Expr)
    requires Printable(e) && e.Call?
    ensures WellFormed(Form(e), LevelOf(Form(e)))
    decreases e, 0
  {
    hide Unparse, Printable;
    PrintableParts(e);
    assert Children(e) == e.args;
    forall a | a in UnparseArgs(e.args) ensures WellFormed(a, OR_LEVEL) {
      var k :| 0 <= k < |e.args| && UnparseArgs(e.args)[k] == a;
      UnparseWellFormed(e.args[k], OR_LEVEL);
    }
  }

  ghost predicate AllLexemes(xs: seq<Lexeme>) {
    forall x | x in xs :: IsLexeme(x)
  }

  lemma Brackets()
    ensures IsLexeme(Lexeme(LeftParen, "(")) && IsLexeme(Lexeme(RightParen, ")"))
    ensures IsLexeme(Lexeme(LeftBracket, "[")) && IsLexeme(Lexeme(RightBracket, "]"))
  {
  }

  lemma Marks()
    ensures IsLexeme(Lexeme(Dot, ".")) && IsLexeme(Lexeme(Star, "*"))
    ensures IsLexeme(Lexeme(Comma, ",")) && IsLexeme(Lexeme(Bang, "!"))
  {
  }

  lemma Connectives()
    ensures IsLexeme(Lexeme(AndAnd, "&&")) && IsLexeme(Lexeme(OrOr, "||"))
  {
  }

  lemma Comparison(op: CompareOp)
    ensures IsLexeme(CompareLexeme(op))
  {
    match op case Lt => case Le => case Gt => case Ge => case Eq => case Ne =>
  }

  lemma Keywords()
    ensures IsName("null") && IsName("true") && IsName("false")
  {
    RunEndIs("null", 1, NameChar, 4);
    RunEndIs("true", 1, NameChar, 4);
    RunEndIs("false", 1, NameChar, 5);
  }

  lemma {:induction false} UnparseLexemes(e: Expr, l: Level)
    requires Printable(e)
    ensures AllLexemes(Lexemes(Unparse(e, l)))
    decreases e, 2
  {
    hide IsLexeme, Form, LevelOf;
    FormLexemes(e);
    Brackets();
  }

  lemma {:induction false} FormLexemes(e: Expr)
    requires Printable(e)
    ensures AllLexemes(Lexemes(Form(e)))
    decreases e, 1
  {
    hide Unparse, IsLexeme, ParseInt32, ParseFloat64, Quote, Form, Lexemes, Printable;
    if e.Property? || e.Filter? || e.Index? || e.Call? {
      PostfixLexemes(e);
    } else if e.Not? || e.Compare? || e.Logic? {
      OperatorLexemes(e);
    } else {
      LeafLexemes(e);
    }
  }

  lemma LeafLexemes(e: Expr)
    requires Printable(e) && Children(e) == [] && !e.Call?
    ensures AllLexemes(Lexemes(Form(e)))
  {
    hide Unparse, IsLexeme, ParseInt32, ParseFloat64, Quote;
    Keywords();
    if e.StrLit? { QuotedLexeme(e.str); }
  }

  lemma {:induction false} PostfixLexemes(e: Expr)
    requires Printable(e) && (e.Property? || e.Filter? || e.Index? || e.Call?)
    ensures AllLexemes(Lexemes(Form(e)))
    decreases e, 0
  {
    hide Unparse, IsLexeme, ParseInt32, ParseFloat64, Quote;
    PrintableParts(e);
    Brackets();
    Marks();
    match e
    case Property(_, r, _) => UnparseLexemes(r, POSTFIX_LEVEL);
    case Filter(_, r) => UnparseLexemes(r, POSTFIX_LEVEL);
    case Index(_, o, i) => UnparseLexemes(o, POSTFIX_LEVEL); UnparseLexemes(i, OR_LEVEL);
    case Call(_, _, args) => ArgsLexemes(args);
  }

  lemma {:induction false} OperatorLexemes(e: Expr)
    requires Printable(e) && (e.Not? || e.Compare? || e.Logic?)
    ensures AllLexemes(Lexemes(Form(e)))
    decreases e, 0
  {
    hide Unparse, IsLexeme, ParseInt32, ParseFloat64, Quote;
    PrintableParts(e);
    Marks();
    Connectives();
    match e
    case Not(_, o) => UnparseLexemes(o, PREFIX_LEVEL);
    case Compare(_, op, l, r) => Comparison(op); UnparseLexemes(l, PREFIX_LEVEL); UnparseLexemes(r, COMPARE_LEVEL);
    case Logic(_, And, l, r) => UnparseLexemes(l, COMPARE_LEVEL); UnparseLexemes(r, AND_LEVEL);
    case Logic(_, Or, l, r) => UnparseLexemes(l, AND_LEVEL); UnparseLexemes(r, OR_LEVEL);
  }

  lemma {:induction false} ArgsLexemes(args: seq<Expr>)
    requires forall a | a in args :: Printable(a)
    ensures AllLexemes(ArgLexemes(UnparseArgs(args)))
    decreases args
  {
    hide Unparse, IsLexeme, Lexemes;
    Marks();
    if args != [] {
      UnparseLexemes(args[0], OR_LEVEL);
      ArgsLexemes(args[1..]);
      assert UnparseArgs(args)[1..] == UnparseArgs(args[1..]);
    }
  }

  lemma {:induction false} UnparseStrip(e: Expr, l: Level, ts: seq<Token>, i: nat)
    requires Printable(e) && i + Width(Unparse(e, l)) <= |ts|
    ensures Strip(Build(Unparse(e, l), ts, i)) == Strip(e)
    decreases e, 2
  {
    FormStrip(e, ts, if l <= LevelOf(Form(e)) then i else i + 1);
    SpanIsStripped(Build(Form(e), ts, if l <= LevelOf(Form(e)) then i else i + 1), SpanOf(ts, i, i + Width(Unparse(e, l))));
  }

  lemma SpanIsStripped(e: Expr, s: Span)
    ensures Strip(e.(span := s)) == Strip(e)
  {
  }

  lemma {:induction false} FormStrip(e: Expr, ts: seq<Token>, i: nat)
    requires Printable(e) && i + Width(Form(e)) <= |ts|
    ensures Strip(Build(Form(e), ts, i)) == Strip(e)
    decreases e, 1
  {
    hide Form, Build, Strip, Printable, Width;
    match e
    case Compare(_, _, _, _) | Logic(_, _, _, _) => BinaryStrip(e, ts, i);
    case Property(_, _, _) | Filter(_, _) | Index(_, _, _) => PostfixStrip(e, ts, i);
    case Not(_, _) => NotStrip(e, ts, i);
    case Call(_, _, _) => CallStrip(e, ts, i);
    case _ => LeafStrip(e, ts, i);
  }

  lemma {:induction false} NotStrip(e: Expr, ts: seq<Token>, i: nat)
    requires e.Not? && Printable(e) && i + Width(Form(e)) <= |ts|
    ensures Strip(Build(Form(e), ts, i)) == Strip(e)
    decreases e, 0
  {
    assert e.operand in Children(e);
    UnparseStrip(e.operand, PREFIX_LEVEL, ts, i + 1);
  }

  lemma LeafStrip(e: Expr, ts: seq<Token>, i: nat)
    requires Printable(e) && Children(e) == [] && !e.Call? && i + Width(Form(e)) <= |ts|
    ensures Strip(Build(Form(e), ts, i)) == Strip(e)
  {
    hide SpanOf, Quote, StringValue, IsLexeme, NoNul;
    if e.StrLit? { QuotedValue(e.str); }
  }

  lemma {:induction false} CallStrip(e: Expr, ts: seq<Token>, i: nat)
    requires e.Call? && Printable(e) && i + Width(Form(e)) <= |ts|
    ensures Strip(Build(Form(e), ts, i)) == Strip(e)
    decreases e, 0
  {
    hide BuildArgs, ArgsWidth;
    assert Children(e) == e.args;
    ArgsStrip(e.args, ts, i + 2);
  }

  lemma {:induction false} PostfixStrip(e: Expr, ts: seq<Token>, i: nat)
    requires (e.Property? || e.Filter? || e.Index?) && Printable(e) && i + Width(Form(e)) <= |ts|
    ensures Strip(Build(Form(e), ts, i)) == Strip(e)
    decreases e, 0
  {
    hide Unparse, Build, Printable, Children, SpanOf;
    BuildPostfix(Form(e), ts, i);
    PrintableParts(e);
    UnparseStrip(if e.Index? then e.operand else e.receiver, POSTFIX_LEVEL, ts, i);
    if e.Index? { UnparseStrip(e.index, OR_LEVEL, ts, i + Width(Unparse(e.operand, POSTFIX_LEVEL)) + 1); }
  }

  lemma {:induction false} BinaryStrip(e: Expr, ts: seq<Token>, i: nat)
    requires (e.Compare? || e.Logic?) && Printable(e) && i + Width(Form(e)) <= |ts|
    ensures Strip(Build(Form(e), ts, i)) == Strip(e)
    decreases e, 0
  {
    hide Unparse, Build, Printable, Children, Width, Strip, SpanOf;
    var c := Form(e);
    var l := if e.Compare? then PREFIX_LEVEL else LevelOf(c) + 1;
    BinaryForm(e, l);
    BuildBinary(c, ts, i);
    PrintableParts(e);
    UnparseStrip(e.left, l, ts, i);
    UnparseStrip(e.right, LevelOf(c), ts, i + Width(c.left) + 1);
    var x, y := Build(c.left, ts, i), Build(c.right, ts, i + Width(c.left) + 1);
    if e.Compare? { StripCompare(e, x, y, Build(c, ts, i).span); } else { StripLogic(e, x, y, Build(c, ts, i).span); }
  }

  lemma BinaryForm(e: Expr, l: Level)
    requires e.Compare? || e.Logic?
    requires l == if e.Compare? then PREFIX_LEVEL else LevelOf(Form(e)) + 1
    ensures var c := Form(e);
      && (if e.Compare? then c.CompareC? && c.op == e.op else c.LogicC? && c.kind == e.kind)
      && c.left == Unparse(e.left, l) && c.right == Unparse(e.right, LevelOf(c))
      && Width(c) == Width(c.left) + 1 + Width(c.right)
  {
    hide Unparse;
  }

  lemma StripCompare(e: Expr, x: Expr, y: Expr, s: Span)
    requires e.Compare? && Strip(x) == Strip(e.left) && Strip(y) == Strip(e.right)
    ensures Strip(Compare(s, e.op, x, y)) == Strip(e)
  {
    assert Strip(e) == Compare(NO_SPAN, e.op, Strip(e.left), Strip(e.right));
  }

  lemma StripLogic(e: Expr, x: Expr, y: Expr, s: Span)
    requires e.Logic? && Strip(x) == Strip(e.left) && Strip(y) == Strip(e.right)
    ensures Strip(Logic(s, e.kind, x, y)) == Strip(e)
  {
    assert Strip(e) == Logic(NO_SPAN, e.kind, Strip(e.left), Strip(e.right));
  }

  lemma {:induction false} ArgsStrip(args: seq<Expr>, ts: seq<Token>, i: nat)
    requires (forall a | a in args :: Printable(a)) && i + ArgsWidth(UnparseArgs(args)) <= |ts|
    ensures forall k | 0 <= k < |args| :: Strip(BuildArgs(UnparseArgs(args), ts, i)[k]) == Strip(args[k])
    decreases args
  {
    hide Unparse, Strip, Build;
    if args != [] {
      var cs := UnparseArgs(args);
      UnparseStrip(args[0], OR_LEVEL, ts, i);
      if |args| > 1 {
        assert cs[1..] == UnparseArgs(args[1..]);
        var j := i + Width(cs[0]) + 1;
        ArgsStrip(args[1..], ts, j);
        forall k | 0 <= k < |args|
          ensures Strip(BuildArgs(cs, ts, i)[k]) == Strip(args[k])
        {
          if k > 0 { assert BuildArgs(cs, ts, i)[k] == BuildArgs(cs[1..], ts, j)[k - 1] && args[k] == args[1..][k - 1]; }
        }
      }
    }
  }

  // ----- depth does not depend on spans -----

  lemma {:induction false} StripDepth(e: Expr)
    ensures FlatDepth(Strip(e)) == FlatDepth(e)
    decreases e, |Children(e)| + 1
  {
    StripChildren(e);
    match e
    case Logic(_, k, l, r) => StripOperand(k, l); StripOperand(k, r);
    case _ => StripDepthBelow(e, |Children(e)|);
  }

  lemma {:induction false} StripOperand(k: LogicOp, e: Expr)
    ensures OperandDepth(k, Strip(e)) == OperandDepth(k, e)
    decreases e, |Children(e)| + 2
  {
    if e.Logic? && e.kind == k {
      StripOperand(k, e.left);
      StripOperand(k, e.right);
    } else {
      StripDepth(e);
    }
  }

  lemma StripChildren(e: Expr)
    ensures |Children(Strip(e))| == |Children(e)|
    ensures forall i | 0 <= i < |Children(e)| :: Children(Strip(e))[i] == Strip(Children(e)[i])
  {
  }

  lemma {:induction false} StripDepthBelow(e: Expr, n: nat)
    requires n <= |Children(e)|
    ensures n <= |Children(Strip(e))| && DepthBelow(Strip(e), n) == DepthBelow(e, n)
    decreases e, n
  {
    hide Strip, FlatDepth;
    StripChildren(e);
    if n > 0 {
      StripDepthBelow(e, n - 1);
      StripDepth(Children(e)[n - 1]);
    }
  }

  // ----- the theorem -----

  /** Printing with the needed parentheses, in any layout, and parsing gives the expression back. */
  lemma RoundTrip(e: Expr, gaps: seq<string>, rest: string)
    requires Printable(e) && FlatDepth(e) <= 50
    requires Spaced(Lexemes(Unparse(e, OR_LEVEL)), gaps) && (rest != "" ==> rest[0] != NUL)
    ensures var src := Layout(Lexemes(Unparse(e, OR_LEVEL)), gaps, rest);
      var r := ParseSource(src);
      r.Tree? && Strip(r.node) == Strip(e) && r.offset == |src| - |rest|
  {
    hide Build, Lexemes, Layout, Scan, Exceeding, FlatDepth, IsLexeme, WellFormed, Strip, Unparse, Printable, ParseSource;
    var c := Unparse(e, OR_LEVEL);
    UnparseWellFormed(e, OR_LEVEL);
    UnparseLexemes(e, OR_LEVEL);
    Recognised(c, gaps, rest);
    var src := Layout(Lexemes(c), gaps, rest);
    assert src[0..] == src;
    ScanLayout(Lexemes(c), gaps, rest, src, 0);
    UnparseStrip(e, OR_LEVEL, Tokens(Scan(src, 0, 0)), 0);
    var tree := TreeOf(c, gaps, rest);
    StripDepth(tree);
    StripDepth(e);
    ExceedingIsDepth(tree, 1);
  }
}
