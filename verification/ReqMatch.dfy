/** What a parsed pattern means, and that every pattern can be written. */
module ReqMatch {
  import opened Basics
  import opened ReqLexer
  import opened ReqParser
  import opened ReqGrammar

  predicate Matches(n: Node, ip: Address, port: nat) {
    match n
    case Host(a) => a == ip
    case Port(p) => p == port
    case And(l, r) => Matches(l, ip, port) && Matches(r, ip, port)
    case Or(l, r) => Matches(l, ip, port) || Matches(r, ip, port)
  }

  // ---- alternatives and conditions ------------------------------------------------------------------

  /** The alternatives of an expression, in order. */
  function Terms(e: Expr): (ts: seq<Term>)
    ensures ts != []
  {
    match e
    case OneTerm(t) => [t]
    case OrMore(b, t) => Terms(b) + [t]
  }

  /** The conditions of a term, in order. */
  function Factors(t: Term): (fs: seq<Factor>)
    ensures fs != []
  {
    match t
    case OneFactor(f) => [f]
    case AndMore(b, f) => Factors(b) + [f]
  }

  // ---- port numbers --------------------------------------------------------------------------------

  function Digit(d: nat): char
    requires d < 10
  {
    ('0' as int + d) as char
  }

  function Decimal(n: nat): (v: string)
    ensures v != "" && AllDigits(v)
  {
    if n < 10 then [Digit(n)] else Decimal(n / 10) + [Digit(n % 10)]
  }

  lemma {:induction false} DecimalIsNumber(n: nat)
    ensures Number(Decimal(n)) == n && (Decimal(n)[0] == '0' <==> n == 0) && (n < 10 <==> |Decimal(n)| == 1)
  {
    var v := Decimal(n);
    if n < 10 {
      assert v[..0] == "";
    } else {
      DecimalIsNumber(n / 10);
      assert v[..|v| - 1] == Decimal(n / 10);
    }
  }

  lemma {:induction false} NumberIsDecimal(v: string)
    requires v != "" && AllDigits(v) && (v[0] == '0' ==> |v| == 1)
    ensures Decimal(Number(v)) == v
  {
    var w := v[..|v| - 1];
    if w == "" {
      assert Number(v) < 10 && v == [v[0]];
    } else {
      NumberIsDecimal(w);
      DecimalIsNumber(Number(w));
      var d := v[|v| - 1] as int - '0' as int;
      assert Number(v) == Number(w) * 10 + d;
      assert Number(v) / 10 == Number(w) && Number(v) % 10 == d;
      assert v == w + [v[|v| - 1]];
    }
  }

  /** A port text is accepted exactly when it is the decimal of a number up to 65535. */
  lemma PortTextsAreDecimals(v: string, n: nat)
    ensures PortNumber(v) == Some(n) <==> n <= 65535 && v == Decimal(n)
  {
    if PortNumber(v) == Some(n) {
      NumberIsDecimal(v);
    }
    if n <= 65535 && v == Decimal(n) {
      DecimalIsNumber(n);
    }
  }

  // ---- what a pattern means ------------------------------------------------------------------------

  /**
    A condition on the grammar alone: `host v` holds when v looks up to the address, `port v` when v is the
    decimal of the port, and a parenthesis when all conditions of one of its alternatives hold.
   */
  ghost predicate FactorHolds(f: Factor, lookup: Lookup, ip: Address, port: nat)
    decreases f, 0
  {
    match f
    case Cond(isHost, v) => if isHost then lookup(v) == Some(ip) else port <= 65535 && v == Decimal(port)
    case Parens(e) => ExprHolds(e, lookup, ip, port)
  }

  ghost predicate TermHolds(t: Term, lookup: Lookup, ip: Address, port: nat)
    decreases t, 1
  {
    SmallerFactors(t);
    forall i :: 0 <= i < |Factors(t)| ==> FactorHolds(Factors(t)[i], lookup, ip, port)
  }

  ghost predicate ExprHolds(e: Expr, lookup: Lookup, ip: Address, port: nat)
    decreases e, 2
  {
    SmallerTerms(e);
    exists i :: 0 <= i < |Terms(e)| && TermHolds(Terms(e)[i], lookup, ip, port)
  }

  lemma {:induction false} SmallerFactors(t: Term)
    ensures forall i :: 0 <= i < |Factors(t)| ==> (t decreases to Factors(t)[i])
  {
    if t.AndMore? {
      SmallerFactors(t.before);
    }
  }

  lemma {:induction false} SmallerTerms(e: Expr)
    ensures forall i :: 0 <= i < |Terms(e)| ==> (e decreases to Terms(e)[i])
  {
    if e.OrMore? {
      SmallerTerms(e.before);
    }
  }

  lemma {:induction false} FactorMeans(f: Factor, lookup: Lookup, ip: Address, port: nat)
    requires FactorTree(f, lookup).Some?
    ensures Matches(FactorTree(f, lookup).value, ip, port) <==> FactorHolds(f, lookup, ip, port)
    decreases f, 0
  {
    match f {
      case Cond(isHost, v) =>
        if !isHost {
          PortTextsAreDecimals(v, PortNumber(v).value);
          PortTextsAreDecimals(v, port);
        }
      case Parens(e) => PatternIsOrOfAnds(e, lookup, ip, port);
    }
  }

  lemma {:induction false} TermIsAnd(t: Term, lookup: Lookup, ip: Address, port: nat)
    requires TermTree(t, lookup).Some?
    ensures Matches(TermTree(t, lookup).value, ip, port) <==> TermHolds(t, lookup, ip, port)
    decreases t, 1
  {
    hide FactorHolds;
    match t {
      case OneFactor(f) =>
        assert Factors(t)[0] == f;
        FactorMeans(f, lookup, ip, port);
      case AndMore(b, f) =>
        TermIsAnd(b, lookup, ip, port);
        FactorMeans(f, lookup, ip, port);
        OneMoreFactor(b, f, lookup, ip, port);
    }
  }

  lemma OneMoreFactor(b: Term, f: Factor, lookup: Lookup, ip: Address, port: nat)
    ensures TermHolds(AndMore(b, f), lookup, ip, port) <==> TermHolds(b, lookup, ip, port) && FactorHolds(f, lookup, ip, port)
  {
    hide FactorHolds;
    var t, fs := AndMore(b, f), Factors(b);
    assert Factors(t)[|fs|] == f;
    forall i | 0 <= i < |fs|
      ensures Factors(t)[i] == fs[i]
    {
    }
    if TermHolds(t, lookup, ip, port) {
      forall i | 0 <= i < |fs|
        ensures FactorHolds(fs[i], lookup, ip, port)
      {
        assert FactorHolds(Factors(t)[i], lookup, ip, port);
      }
    }
  }

  /** A pattern matches exactly when all conditions of one of its alternatives hold. */
  lemma {:induction false} PatternIsOrOfAnds(e: Expr, lookup: Lookup, ip: Address, port: nat)
    requires ExprTree(e, lookup).Some?
    ensures Matches(ExprTree(e, lookup).value, ip, port) <==> ExprHolds(e, lookup, ip, port)
    decreases e, 2
  {
    hide TermHolds;
    match e {
      case OneTerm(t) =>
        TermIsAnd(t, lookup, ip, port);
        assert Terms(e)[0] == t;
      case OrMore(b, t) =>
        TermIsAnd(t, lookup, ip, port);
        PatternIsOrOfAnds(b, lookup, ip, port);
        var ts := Terms(b);
        assert forall i :: 0 <= i < |ts| ==> Terms(e)[i] == ts[i];
        assert Terms(e)[|ts|] == t;
    }
  }

  lemma DecimalIsReadable(n: nat)
    ensures Readable(Decimal(n))
  {
    AddressesAreReadable(Decimal(n));
  }

  // ---- writing a tree as a pattern -----------------------------------------------------------------

  /** Parentheses only where precedence or left association needs them. */
  function WriteExpr(n: Node, name: Address -> string): Expr
    decreases n, if n.Or? then 0 else if n.And? then 1 else 2
  {
    if n.Or? then OrMore(WriteExpr(n.left, name), WriteTerm(n.right, name)) else OneTerm(WriteTerm(n, name))
  }

  function WriteTerm(n: Node, name: Address -> string): Term
    decreases n, if n.Or? then 2 else if n.And? then 0 else 1
  {
    if n.And? then AndMore(WriteTerm(n.left, name), WriteFactor(n.right, name)) else OneFactor(WriteFactor(n, name))
  }

  function WriteFactor(n: Node, name: Address -> string): Factor
    decreases n, if n.Or? then 1 else if n.And? then 2 else 0
  {
    match n
    case Host(a) => Cond(true, name(a))
    case Port(p) => Cond(false, Decimal(p))
    case _ => Parens(WriteExpr(n, name))
  }

  /** Names that read back and look up to their address; ports in range. */
  ghost predicate Nameable(n: Node, name: Address -> string, lookup: Lookup) {
    match n
    case Host(a) => Readable(name(a)) && lookup(name(a)) == Some(a)
    case Port(p) => p <= 65535
    case And(l, r) => Nameable(l, name, lookup) && Nameable(r, name, lookup)
    case Or(l, r) => Nameable(l, name, lookup) && Nameable(r, name, lookup)
  }

  ghost predicate AllWritable(ts: seq<Token>) {
    forall k :: 0 <= k < |ts| ==> Writable(ts[k])
  }

  lemma {:induction false} ExprIsWritten(n: Node, name: Address -> string, lookup: Lookup)
    requires Nameable(n, name, lookup)
    ensures ExprTree(WriteExpr(n, name), lookup) == Some(n) && AllWritable(ExprTokens(WriteExpr(n, name)))
    decreases n, if n.Or? then 0 else if n.And? then 1 else 2
  {
    hide Readable;
    if n.Or? {
      ExprIsWritten(n.left, name, lookup);
      TermIsWritten(n.right, name, lookup);
    } else {
      TermIsWritten(n, name, lookup);
    }
  }

  lemma {:induction false} TermIsWritten(n: Node, name: Address -> string, lookup: Lookup)
    requires Nameable(n, name, lookup)
    ensures TermTree(WriteTerm(n, name), lookup) == Some(n) && AllWritable(TermTokens(WriteTerm(n, name)))
    decreases n, if n.Or? then 2 else if n.And? then 0 else 1
  {
    hide Readable;
    if n.And? {
      TermIsWritten(n.left, name, lookup);
      FactorIsWritten(n.right, name, lookup);
    } else {
      FactorIsWritten(n, name, lookup);
    }
  }

  lemma {:induction false} FactorIsWritten(n: Node, name: Address -> string, lookup: Lookup)
    requires Nameable(n, name, lookup)
    ensures FactorTree(WriteFactor(n, name), lookup) == Some(n) && AllWritable(FactorTokens(WriteFactor(n, name)))
    decreases n, if n.Or? then 1 else if n.And? then 2 else 0
  {
    hide Readable;
    match n {
      case Host(_) =>
      case Port(p) =>
        PortTextsAreDecimals(Decimal(p), p);
        DecimalIsReadable(p);
      case And(_, _) =>
        ExprIsWritten(n, name, lookup);
      case Or(_, _) =>
        ExprIsWritten(n, name, lookup);
    }
  }

  /** The text of a tree. */
  function Written(n: Node, name: Address -> string): string {
    Spaced(ExprTokens(WriteExpr(n, name)))
  }

  /** Every tree can be written so that the parser gives it back, and so matches the same packets. */
  lemma WrittenPatternsParse(n: Node, name: Address -> string, lookup: Lookup)
    requires Nameable(n, name, lookup)
    ensures ParsePattern(Written(n, name), lookup) == Some(n)
  {
    hide Tokens, ParsePattern, WriteExpr;
    ExprIsWritten(n, name, lookup);
    var e := WriteExpr(n, name);
    var s := Written(n, name);
    assert s[0..] == s;
    SpacedReadsBack(s, 0, ExprTokens(e));
    assert Spells(s, e, n, lookup);
    PatternsAreTheGrammar(s, n, lookup);
  }
}
