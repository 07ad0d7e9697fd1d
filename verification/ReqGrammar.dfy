/**
  The grammar of request patterns, and that the parser accepts exactly it. `and` binds tighter than `or`,
  both associate to the left:

    expression = term | expression "or" term
    term       = factor | term "and" factor
    factor     = "(" expression ")" | "host" value | "port" value
 */
module ReqGrammar {
  import opened Basics
  import opened ReqLexer
  import opened ReqParser

  datatype Expr = OneTerm(term: Term) | OrMore(before: Expr, term: Term)
  datatype Term = OneFactor(factor: Factor) | AndMore(before: Term, factor: Factor)
  datatype Factor = Parens(expr: Expr) | Cond(isHost: bool, text: string)

  function ExprTokens(e: Expr): seq<Token> {
    match e
    case OneTerm(t) => TermTokens(t)
    case OrMore(b, t) => ExprTokens(b) + [OrWord] + TermTokens(t)
  }

  function TermTokens(t: Term): seq<Token> {
    match t
    case OneFactor(f) => FactorTokens(f)
    case AndMore(b, f) => TermTokens(b) + [AndWord] + FactorTokens(f)
  }

  function FactorTokens(f: Factor): seq<Token> {
    match f
    case Parens(e) => [LeftParen] + ExprTokens(e) + [RightParen]
    case Cond(h, v) => [if h then HostWord else PortWord, Value(v)]
  }

  /** The tree of an expression; none when a value in it is not a host or a port. */
  function ExprTree(e: Expr, lookup: Lookup): Option<Node> {
    match e
    case OneTerm(t) => TermTree(t, lookup)
    case OrMore(b, t) =>
      var l, r := ExprTree(b, lookup), TermTree(t, lookup);
      if l.Some? && r.Some? then Some(Or(l.value, r.value)) else None
  }

  function TermTree(t: Term, lookup: Lookup): Option<Node> {
    match t
    case OneFactor(f) => FactorTree(f, lookup)
    case AndMore(b, f) =>
      var l, r := TermTree(b, lookup), FactorTree(f, lookup);
      if l.Some? && r.Some? then Some(And(l.value, r.value)) else None
  }

  function FactorTree(f: Factor, lookup: Lookup): Option<Node> {
    match f
    case Parens(e) => ExprTree(e, lookup)
    case Cond(h, v) => Condition(h, v, lookup)
  }

  // ---- everything in the grammar parses ------------------------------------------------------------

  lemma {:induction false} FactorParses(f: Factor, rest: seq<Token>, lookup: Lookup)
    requires FactorTree(f, lookup).Some? && Stream(rest)
    ensures Stream(FactorTokens(f) + rest) && ParseFactor(FactorTokens(f) + rest, lookup) == (FactorTree(f, lookup), rest)
    decreases f
  {
    hide ParseExpr, Condition;
    var ts := FactorTokens(f) + rest;
    match f {
      case Cond(_, _) =>
        assert ts[2..] == rest;
      case Parens(e) =>
        assert ts[1..] == ExprTokens(e) + ([RightParen] + rest);
        ExprParses(e, [RightParen] + rest, lookup);
        OrStop(ExprTree(e, lookup).value, [RightParen] + rest, lookup);
        assert ([RightParen] + rest)[1..] == rest;
    }
  }

  lemma {:induction false} TermParses(t: Term, rest: seq<Token>, lookup: Lookup)
    requires TermTree(t, lookup).Some? && Stream(rest)
    ensures Stream(TermTokens(t) + rest)
    ensures ParseTerm(TermTokens(t) + rest, lookup) == AndTail(TermTree(t, lookup).value, rest, lookup)
    decreases t
  {
    hide ParseFactor, ParseTerm, AndTail;
    match t {
      case OneFactor(f) =>
        FactorParses(f, rest, lookup);
        AndStart(TermTokens(t) + rest, lookup);
      case AndMore(b, f) =>
        var rest' := [AndWord] + FactorTokens(f) + rest;
        assert TermTokens(t) + rest == TermTokens(b) + rest';
        FactorParses(f, rest, lookup);
        TermParses(b, rest', lookup);
        assert rest'[1..] == FactorTokens(f) + rest;
        AndMoves(TermTree(b, lookup).value, rest', lookup);
    }
  }

  lemma AndMoves(left: Node, ts: seq<Token>, lookup: Lookup)
    requires Stream(ts) && ts[0] == AndWord
    ensures var f := ParseFactor(ts[1..], lookup);
      AndTail(left, ts, lookup) == if f.0 == None then f else AndTail(And(left, f.0.value), f.1, lookup)
  {
    hide ParseFactor;
  }

  lemma OrMoves(left: Node, ts: seq<Token>, lookup: Lookup)
    requires Stream(ts) && ts[0] == OrWord
    ensures var t := ParseTerm(ts[1..], lookup);
      OrTail(left, ts, lookup) == if t.0 == None then t else OrTail(Or(left, t.0.value), t.1, lookup)
  {
    hide ParseTerm;
  }

  lemma {:induction false} ExprParses(e: Expr, rest: seq<Token>, lookup: Lookup)
    requires ExprTree(e, lookup).Some? && Stream(rest) && rest[0] != AndWord
    ensures Stream(ExprTokens(e) + rest)
    ensures ParseExpr(ExprTokens(e) + rest, lookup) == OrTail(ExprTree(e, lookup).value, rest, lookup)
    decreases e
  {
    hide ParseExpr, ParseTerm, AndTail, OrTail;
    match e {
      case OneTerm(t) =>
        TermParses(t, rest, lookup);
        AndStop(TermTree(t, lookup).value, rest, lookup);
        OrStart(ExprTokens(e) + rest, lookup);
      case OrMore(b, t) =>
        var rest' := [OrWord] + TermTokens(t) + rest;
        assert ExprTokens(e) + rest == ExprTokens(b) + rest';
        TermParses(t, rest, lookup);
        AndStop(TermTree(t, lookup).value, rest, lookup);
        ExprParses(b, rest', lookup);
        assert rest'[1..] == TermTokens(t) + rest;
        OrMoves(ExprTree(b, lookup).value, rest', lookup);
    }
  }

  // ---- everything that parses is in the grammar ----------------------------------------------------

  lemma {:induction false} FactorFound(ts: seq<Token>, lookup: Lookup) returns (f: Factor)
    requires Stream(ts) && ParseFactor(ts, lookup).0.Some?
    ensures FactorTree(f, lookup) == ParseFactor(ts, lookup).0
    ensures ts == FactorTokens(f) + ParseFactor(ts, lookup).1
    decreases |ts|, 0
  {
    hide ParseExpr, Condition;
    if ts[0] == LeftParen {
      var e := ExprFound(ts[1..], lookup);
      f := Parens(e);
      var rest := ParseExpr(ts[1..], lookup).1;
      assert ts == [LeftParen] + ts[1..] && rest == [RightParen] + rest[1..];
    } else {
      f := Cond(ts[0] == HostWord, ts[1].text);
      assert ts == [ts[0], ts[1]] + ts[2..];
    }
  }

  lemma {:induction false} AndTailFound(before: Term, left: Node, ts: seq<Token>, lookup: Lookup) returns (t: Term)
    requires Stream(ts) && TermTree(before, lookup) == Some(left) && AndTail(left, ts, lookup).0.Some?
    ensures TermTree(t, lookup) == AndTail(left, ts, lookup).0
    ensures TermTokens(before) + ts == TermTokens(t) + AndTail(left, ts, lookup).1
    decreases |ts|, 3
  {
    hide ParseFactor, AndTail;
    if ts[0] == AndWord {
      AndMoves(left, ts, lookup);
      var f := FactorFound(ts[1..], lookup);
      var more := AndMore(before, f);
      var rest := ParseFactor(ts[1..], lookup).1;
      t := AndTailFound(more, TermTree(more, lookup).value, rest, lookup);
      assert ts == [AndWord] + ts[1..];
      assert TermTokens(before) + ts == TermTokens(more) + rest;
    } else {
      AndStop(left, ts, lookup);
      t := before;
    }
  }

  lemma {:induction false} TermFound(ts: seq<Token>, lookup: Lookup) returns (t: Term)
    requires Stream(ts) && ParseTerm(ts, lookup).0.Some?
    ensures TermTree(t, lookup) == ParseTerm(ts, lookup).0
    ensures ts == TermTokens(t) + ParseTerm(ts, lookup).1
    decreases |ts|, 1
  {
    hide ParseFactor, ParseTerm, AndTail;
    AndStart(ts, lookup);
    var f := FactorFound(ts, lookup);
    var r := ParseFactor(ts, lookup);
    t := AndTailFound(OneFactor(f), r.0.value, r.1, lookup);
  }

  lemma {:induction false} OrTailFound(before: Expr, left: Node, ts: seq<Token>, lookup: Lookup) returns (e: Expr)
    requires Stream(ts) && ExprTree(before, lookup) == Some(left) && OrTail(left, ts, lookup).0.Some?
    ensures ExprTree(e, lookup) == OrTail(left, ts, lookup).0
    ensures ExprTokens(before) + ts == ExprTokens(e) + OrTail(left, ts, lookup).1
    decreases |ts|, 3
  {
    hide ParseTerm, OrTail;
    if ts[0] == OrWord {
      OrMoves(left, ts, lookup);
      var t := TermFound(ts[1..], lookup);
      var more := OrMore(before, t);
      var rest := ParseTerm(ts[1..], lookup).1;
      e := OrTailFound(more, ExprTree(more, lookup).value, rest, lookup);
      assert ts == [OrWord] + ts[1..];
      assert ExprTokens(before) + ts == ExprTokens(more) + rest;
    } else {
      OrStop(left, ts, lookup);
      e := before;
    }
  }

  lemma {:induction false} ExprFound(ts: seq<Token>, lookup: Lookup) returns (e: Expr)
    requires Stream(ts) && ParseExpr(ts, lookup).0.Some?
    ensures ExprTree(e, lookup) == ParseExpr(ts, lookup).0
    ensures ts == ExprTokens(e) + ParseExpr(ts, lookup).1
    decreases |ts|, 2
  {
    hide ParseTerm, ParseExpr, OrTail;
    OrStart(ts, lookup);
    var t := TermFound(ts, lookup);
    var r := ParseTerm(ts, lookup);
    e := OrTailFound(OneTerm(t), r.0.value, r.1, lookup);
  }

  /** The text is an expression of the grammar whose tree is n. */
  ghost predicate Spells(s: string, e: Expr, n: Node, lookup: Lookup) {
    Tokens(s, 0) == ExprTokens(e) + [End] && ExprTree(e, lookup) == Some(n)
  }

  /** The parser accepts exactly the grammar and builds exactly its trees. */
  lemma PatternsAreTheGrammar(s: string, n: Node, lookup: Lookup)
    ensures ParsePattern(s, lookup) == Some(n) <==> exists e :: Spells(s, e, n, lookup)
  {
    hide ParseExpr, Tokens, OrTail;
    var ts := Tokens(s, 0);
    if ParsePattern(s, lookup) == Some(n) {
      var e := ExprFound(ts, lookup);
      StreamEnd(s, ParseExpr(ts, lookup).1, ExprTokens(e));
      assert Spells(s, e, n, lookup);
    }
    if e :| Spells(s, e, n, lookup) {
      ExprParses(e, [End], lookup);
      OrStop(n, [End], lookup);
    }
  }

  /** The end token occurs only at the end. */
  lemma StreamEnd(s: string, rest: seq<Token>, before: seq<Token>)
    requires Stream(rest) && rest[0] == End && Tokens(s, 0) == before + rest
    ensures rest == [End]
  {
    var ts := Tokens(s, 0);
    assert ts[|before|] == End;
  }
}
