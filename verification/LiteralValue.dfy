/** A text that is one assigned expression, and the literal it may hold (internal/expression/expr_parser.go). */
module LiteralValue {
  import opened Text
  import opened Syntax
  import opened Depth
  import opened Parsing
  import opened Grammar
  import opened RoundTrip
  import Lexing
  import opened AcceptedTexts

  /** The expression of a text that is one interpolation from its first character to its last. */
  function AssignedExpression(s: string): Option<Expr> {
    if !HasPrefix(s, "${{") then None
    else
      var r := ParseSource(s[3..]);
      if r.Tree? && r.offset == |s| - 3 then Some(r.node) else None
  }

  function LiteralExpressionValue(s: string): Option<string> {
    var e := AssignedExpression(s);
    if e.Some? && e.value.StrLit? then Some(e.value.str) else None
  }

  lemma StripLiteral(e: Expr, v: string)
    ensures Strip(e) == StrLit(NO_SPAN, v) <==> e.StrLit? && e.str == v
  {
  }

  lemma LiteralLexemes(v: string)
    ensures Lexemes(Unparse(StrLit(NO_SPAN, v), OR_LEVEL)) == [Lexeme(String, Quote(v))]
  {
    hide Quote;
  }

  lemma LiteralDepth(v: string)
    ensures FlatDepth(StrLit(NO_SPAN, v)) <= 50
  {
  }

  lemma LiteralLayout(v: string, before: string, after: string, rest: string)
    requires AllWhite(before) && AllWhite(after)
    ensures var xs := [Lexeme(String, Quote(v))];
      Spaced(xs, [before, after]) && Layout(xs, [before, after], rest) == before + Quote(v) + (after + "}}" + rest)
  {
    hide Quote;
    var xs, gaps := [Lexeme(String, Quote(v))], [before, after];
    assert xs[1..] == [] && gaps[1..] == [after];
    assert Layout(xs[1..], gaps[1..], rest) == after + "}}" + rest;
  }

  lemma LiteralPrintable(v: string)
    requires NoNul(v)
    ensures Printable(StrLit(NO_SPAN, v))
  {
  }

  lemma LiteralParses(v: string, before: string, after: string, rest: string)
    requires NoNul(v) && AllWhite(before) && AllWhite(after) && (rest != "" ==> rest[0] != NUL)
    ensures var src := before + Quote(v) + (after + "}}" + rest);
      var r := ParseSource(src);
      r.Tree? && r.node.StrLit? && r.node.str == v && r.offset == |src| - |rest|
  {
    hide Quote, ParseSource, Layout, Lexemes, Unparse, Strip, FlatDepth, Spaced, AllWhite, NoNul, Printable;
    var e := StrLit(NO_SPAN, v);
    LiteralLexemes(v);
    LiteralDepth(v);
    LiteralLayout(v, before, after, rest);
    LiteralPrintable(v);
    RoundTrip.RoundTrip(e, [before, after], rest);
    StripLiteral(e, v);
    StripLiteral(ParseSource(before + Quote(v) + (after + "}}" + rest)).node, v);
  }

  /** A quoted string alone in an interpolation is its value; with text after the interpolation there is none. */
  lemma QuotedLiteral(v: string, before: string, after: string, rest: string)
    requires NoNul(v) && AllWhite(before) && AllWhite(after) && (rest != "" ==> rest[0] != NUL)
    ensures LiteralExpressionValue("${{" + before + Quote(v) + after + "}}" + rest) == if rest == "" then Some(v) else None
  {
    hide Quote, ParseSource, AllWhite, NoNul;
    LiteralParses(v, before, after, rest);
    var src := before + Quote(v) + (after + "}}" + rest);
    var s := "${{" + before + Quote(v) + after + "}}" + rest;
    assert s == "${{" + src;
    assert s[..3] == "${{" && s[3..] == src;
  }

  // ----- exactly the texts of one literal -----

  /** The value of a derivation that is a string literal in any number of parentheses. */
  function LiteralOf(c: Cst): Option<string> {
    match c
    case StringC(t) => Some(StringValue(t))
    case ParenC(x) => LiteralOf(x)
    case _ => None
  }

  lemma {:induction false} BuiltLiteral(c: Cst, ts: seq<Token>, i: nat)
    requires i + Width(c) <= |ts|
    ensures var e := Build(c, ts, i); LiteralOf(c) == if e.StrLit? then Some(e.str) else None
  {
    hide SpanOf, StringValue;
    if c.ParenC? {
      BuildOne(c, c.inner, 1, ts, i);
      BuiltLiteral(c.inner, ts, i + 1);
    }
  }

  lemma LaidTokens(src: string, c: Cst, gaps: seq<string>, rest: string)
    requires Laid(src, c, gaps, rest)
    ensures |gaps| == Width(c) + 1 && Width(c) <= |Lexing.Tokens(Lexing.Scan(src, 0, 0))|
    ensures TreeOf(c, gaps, rest) == Build(c, Lexing.Tokens(Lexing.Scan(src, 0, 0)), 0)
  {
    hide WellFormed, Build, Spaced, Layout, IsLexeme, Lexing.Scan, RoundTrip.Lexemes;
    LaidGaps(src, c, gaps, rest);
    assert src[0..] == src;
    ScanLayout(RoundTrip.Lexemes(c), gaps, rest, src, 0);
  }

  lemma ShallowLiteral(e: Expr)
    requires e.StrLit?
    ensures Exceeding(e, 1) == None
  {
    ExceedingIsDepth(e, 1);
  }

  /** A value is found exactly in a text that is one string literal, in any parentheses and whitespace, interpolated. */
  lemma LiteralExactly(s: string, v: string)
    ensures LiteralExpressionValue(s) == Some(v) <==>
      HasPrefix(s, "${{") && exists c, gaps :: Laid(s[3..], c, gaps, "") && LiteralOf(c) == Some(v)
  {
    hide ParseSource, Laid, TreeOf, LiteralOf, Exceeding, Build, Lexing.Scan;
    if HasPrefix(s, "${{") {
      var src := s[3..];
      if LiteralExpressionValue(s) == Some(v) {
        var c, gaps, rest := ParsedIsLaid(src);
        assert rest == "";
        LaidTokens(src, c, gaps, rest);
        BuiltLiteral(c, Lexing.Tokens(Lexing.Scan(src, 0, 0)), 0);
      }
      forall c, gaps | Laid(src, c, gaps, "") && LiteralOf(c) == Some(v) ensures LiteralExpressionValue(s) == Some(v) {
        LaidTokens(src, c, gaps, "");
        BuiltLiteral(c, Lexing.Tokens(Lexing.Scan(src, 0, 0)), 0);
        ShallowLiteral(TreeOf(c, gaps, ""));
        LaidParses(src, c, gaps, "");
      }
    }
  }
}
