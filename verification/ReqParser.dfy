/**
  The request pattern parser: recursive descent over the tokens, building a left-associated tree. `Parser`
  is the program, with its current token and its heap of strings and nodes; the functions say what it finds.
 */
module ReqParser {
  import opened Basics
  import opened Bytes
  import opened ReqLexer

  datatype Address = V4(bytes: seq<byte>) | V6(bytes: seq<byte>)

  datatype Node = Host(address: Address) | Port(port: nat) | And(left: Node, right: Node) | Or(left: Node, right: Node)

  /** How host names are turned into addresses. */
  type Lookup = string -> Option<Address>

  // ---- conditions ----------------------------------------------------------------------------------

  predicate IsDigit(c: char) { '0' <= c <= '9' }

  predicate AllDigits(v: string) { forall i :: 0 <= i < |v| ==> IsDigit(v[i]) }

  function Number(v: string): nat
    requires AllDigits(v)
  {
    if v == "" then 0 else Number(v[..|v| - 1]) * 10 + (v[|v| - 1] as int - '0' as int)
  }

  /** A port is plain decimal: no sign, no leading zero, at most 65535. */
  function PortNumber(v: string): Option<nat> {
    if v == "" || !AllDigits(v) || (v[0] == '0' && |v| > 1) || Number(v) > 65535 then None else Some(Number(v))
  }

  function Condition(isHost: bool, v: string, lookup: Lookup): Option<Node> {
    if isHost then
      match lookup(v) case Some(a) => Some(Host(a)) case None => None
    else
      match PortNumber(v) case Some(p) => Some(Port(p)) case None => None
  }

  // ---- what the parser finds -----------------------------------------------------------------------

  /** Tokens that end with the end token, so that some token is always current. */
  predicate Stream(ts: seq<Token>) {
    |ts| > 0 && ts[|ts| - 1] == End
  }

  /** The tree, if there is one, and the tokens left. */
  type Parsed = (Option<Node>, seq<Token>)

  predicate Shrinks(ts: seq<Token>, r: Parsed) {
    Stream(r.1) && |r.1| <= |ts| && (r.0.Some? ==> |r.1| < |ts|)
  }

  function ParseExpr(ts: seq<Token>, lookup: Lookup): (r: Parsed)
    requires Stream(ts)
    ensures Shrinks(ts, r)
    decreases |ts|, 2
  {
    var t := ParseTerm(ts, lookup);
    if t.0 == None then t else OrTail(t.0.value, t.1, lookup)
  }

  function OrTail(left: Node, ts: seq<Token>, lookup: Lookup): (r: Parsed)
    requires Stream(ts)
    ensures Stream(r.1) && |r.1| <= |ts|
    decreases |ts|, 3
  {
    if ts[0] != OrWord then (Some(left), ts)
    else
      var t := ParseTerm(ts[1..], lookup);
      if t.0 == None then t else OrTail(Or(left, t.0.value), t.1, lookup)
  }

  function ParseTerm(ts: seq<Token>, lookup: Lookup): (r: Parsed)
    requires Stream(ts)
    ensures Shrinks(ts, r)
    decreases |ts|, 1
  {
    var f := ParseFactor(ts, lookup);
    if f.0 == None then f else AndTail(f.0.value, f.1, lookup)
  }

  function AndTail(left: Node, ts: seq<Token>, lookup: Lookup): (r: Parsed)
    requires Stream(ts)
    ensures Stream(r.1) && |r.1| <= |ts|
    decreases |ts|, 3
  {
    if ts[0] != AndWord then (Some(left), ts)
    else
      var f := ParseFactor(ts[1..], lookup);
      if f.0 == None then f else AndTail(And(left, f.0.value), f.1, lookup)
  }

  function ParseFactor(ts: seq<Token>, lookup: Lookup): (r: Parsed)
    requires Stream(ts)
    ensures Shrinks(ts, r)
    decreases |ts|, 0
  {
    if ts[0] == LeftParen then
      var e := ParseExpr(ts[1..], lookup);
      if e.1[0] != RightParen then (None, e.1) else (e.0, e.1[1..])
    else ParseCondition(ts, lookup)
  }

  function ParseCondition(ts: seq<Token>, lookup: Lookup): (r: Parsed)
    requires Stream(ts)
    ensures Shrinks(ts, r)
  {
    if ts[0] == HostWord || ts[0] == PortWord then
      if ts[1].Value? then (Condition(ts[0] == HostWord, ts[1].text, lookup), ts[2..])
      else (None, ts[1..])
    else (None, ts)
  }

  lemma OrStart(ts: seq<Token>, lookup: Lookup)
    requires Stream(ts)
    ensures var f := ParseTerm(ts, lookup);
      && (f.0.Some? ==> |f.1| < |ts| && ParseExpr(ts, lookup) == OrTail(f.0.value, f.1, lookup))
      && (f.0 == None ==> ParseExpr(ts, lookup) == f)
  {
    hide ParseTerm, OrTail;
  }

  lemma OrStop(left: Node, ts: seq<Token>, lookup: Lookup)
    requires Stream(ts)
    ensures ts[0] != OrWord ==> OrTail(left, ts, lookup) == (Some(left), ts)
  {
  }

  lemma AndStart(ts: seq<Token>, lookup: Lookup)
    requires Stream(ts)
    ensures var f := ParseFactor(ts, lookup);
      && (f.0.Some? ==> |f.1| < |ts| && ParseTerm(ts, lookup) == AndTail(f.0.value, f.1, lookup))
      && (f.0 == None ==> ParseTerm(ts, lookup) == f)
  {
    hide ParseFactor, AndTail;
  }

  lemma AndStop(left: Node, ts: seq<Token>, lookup: Lookup)
    requires Stream(ts)
    ensures ts[0] != AndWord ==> AndTail(left, ts, lookup) == (Some(left), ts)
  {
  }

  /** A pattern is one expression and nothing after it. */
  function ParsePattern(s: string, lookup: Lookup): Option<Node> {
    var e := ParseExpr(Tokens(s, 0), lookup);
    if e.1[0] != End then None else e.0
  }

  // ---- trees on the heap -----------------------------------------------------------------------------

  /** A tree of allocated nodes. */
  datatype Tree = Leaf(id: nat, node: Node) | Operator(id: nat, conjunction: bool, left: Tree, right: Tree)

  function Plain(t: Tree): Node {
    match t
    case Leaf(_, n) => n
    case Operator(_, c, l, r) => if c then And(Plain(l), Plain(r)) else Or(Plain(l), Plain(r))
  }

  function Found(r: Option<Tree>): Option<Node> { if r.Some? then Some(Plain(r.value)) else None }

  function Ids(t: Tree): set<nat> {
    match t
    case Leaf(id, _) => {id}
    case Operator(id, _, l, r) => {id} + Ids(l) + Ids(r)
  }

  /** No node is in the tree twice. */
  predicate Proper(t: Tree) {
    t.Operator? ==> Proper(t.left) && Proper(t.right) && Ids(t.left) !! Ids(t.right) && t.id !in Ids(t.left) + Ids(t.right)
  }

  function Kept(r: Option<Tree>): set<nat> { if r.Some? then Ids(r.value) else {} }

  /** The nodes are those there were before and those of the tree, each once. */
  predicate Adds(before: set<nat>, r: Option<Tree>, nodes: set<nat>) {
    nodes == before + Kept(r) && Kept(r) !! before && (r.Some? ==> Proper(r.value))
  }

  /** A new node takes over a tree of the old nodes and one that was added. */
  lemma Joins(before: set<nat>, id: nat, conjunction: bool, left: Tree, right: Tree, nodes: set<nat>)
    requires Proper(left) && Ids(left) <= before && Adds(before, Some(right), nodes) && id !in nodes
    ensures Adds(before - Ids(left), Some(Operator(id, conjunction, left, right)), nodes + {id})
  {
  }

  // ---- the parser ----------------------------------------------------------------------------------

  class Parser {
    const s: string
    const lookup: Lookup
    var pos: nat
    var token: Token
    /** The string of a value token. */
    var value: nat
    /** The strings allocated and not freed, and the next new one. */
    var strings: set<nat>
    var next: nat
    /** The tree nodes allocated and not freed. */
    var nodes: set<nat>

    ghost predicate Valid()
      reads this
    {
      && IsCString(s) && pos <= |s|
      && Owned() <= strings && (forall i :: i in strings ==> i < next) && (forall i :: i in nodes ==> i < next)
    }

    /** The string the current token owns. */
    ghost function Owned(): set<nat>
      reads this
    {
      if token.Value? then {value} else {}
    }

    /** The strings nobody but the caller knows of. */
    ghost function Others(): set<nat>
      reads this
    {
      strings - Owned()
    }

    ghost function Rest(): (ts: seq<Token>)
      requires pos <= |s|
      reads this
      ensures Stream(ts)
    {
      if token == End then [End] else [token] + Tokens(s, pos)
    }

    constructor (s: string, lookup: Lookup)
      requires IsCString(s)
      ensures this.s == s && this.lookup == lookup
      ensures Valid() && pos == 0 && token == OrWord && strings == {} && nodes == {}
    {
      this.s, this.lookup, pos, token, value := s, lookup, 0, OrWord, 0;
      strings, next, nodes := {}, 0, {};
    }

    /** Reads the next token; a value gets a new string. The old token's string stays allocated. */
    method Advance()
      requires Valid()
      modifies this
      ensures Valid() && nodes == old(nodes) && Others() == old(strings)
      ensures Rest() == Tokens(s, old(pos))
      ensures old(token) != End ==> Rest() == old(Rest())[1..]
    {
      var before := strings;
      token, pos := NextToken(s, pos);
      if token.Value? {
        value := next;
        strings := strings + {next};
        next := next + 1;
      }
      assert Others() == before;
    }

    method FreeString(id: nat)
      requires Valid() && id in Others()
      modifies this`strings
      ensures Valid() && Others() == old(Others()) - {id}
    {
      strings := strings - {id};
    }

    /** Frees the string of the current token, which is in use and known to nobody else. */
    method FreeCurrent()
      requires Valid() && token.Value? && value in strings
      modifies this`strings
      ensures strings == old(Others()) && value !in strings
    {
      strings := strings - {value};
    }

    method FreeNode(id: nat)
      requires id in nodes
      modifies this`nodes
      ensures nodes == old(nodes) - {id}
    {
      nodes := nodes - {id};
    }

    /** Frees each node of the tree, and none twice: a node is in use when it is freed. */
    method FreeTree(t: Tree)
      requires Proper(t) && Ids(t) <= nodes
      modifies this`nodes
      ensures nodes == old(nodes) - Ids(t)
      decreases t
    {
      if t.Operator? {
        FreeTree(t.left);
        FreeTree(t.right);
      }
      FreeNode(t.id);
    }

    method NewNode() returns (id: nat)
      requires Valid()
      modifies this`nodes, this`next
      ensures Valid() && id !in old(nodes) && nodes == old(nodes) + {id}
    {
      id := next;
      nodes, next := nodes + {id}, next + 1;
    }

    method NewCondition(isHost: bool, v: string) returns (r: Option<Tree>)
      requires Valid()
      modifies this`nodes, this`next
      ensures Valid() && Found(r) == Condition(isHost, v, lookup) && Adds(old(nodes), r, nodes)
    {
      hide Condition;
      var id := NewNode();
      match Condition(isHost, v, lookup) {
        case Some(n) =>
          r := Some(Leaf(id, n));
        case None =>
          FreeNode(id);
          r := None;
      }
    }

    /** Each parse routine leaves no string behind and no node outside the tree it returns. */
    ghost predicate Clean(r: Option<Tree>, others: set<nat>, before: set<nat>)
      reads this
    {
      Valid() && Others() == others && Adds(before, r, nodes)
    }

    method Expression() returns (r: Option<Tree>)
      requires Valid()
      modifies this
      ensures Clean(r, old(Others()), old(nodes)) && (Found(r), Rest()) == ParseExpr(old(Rest()), lookup)
      decreases |Rest()|, 2
    {
      hide Tokens, IsCString, Ids, Proper, ParseExpr, ParseTerm, ParseFactor, OrTail, AndTail, Shrinks;
      OrStart(Rest(), lookup);
      r := Term();
      while r.Some? && token == OrWord
        invariant Clean(r, old(Others()), old(nodes)) && (r.Some? ==> |Rest()| < |old(Rest())|)
        invariant r.Some? ==> OrTail(Plain(r.value), Rest(), lookup) == ParseExpr(old(Rest()), lookup)
        invariant r == None ==> (Found(r), Rest()) == ParseExpr(old(Rest()), lookup)
        decreases r.Some?, |Rest()|
      {
        r := OrStep(r.value);
      }
      if r.Some? {
        OrStop(Plain(r.value), Rest(), lookup);
      }
    }

    /** One more operand; the tree so far is freed when there is none. */
    method OrStep(left: Tree) returns (r: Option<Tree>)
      requires Valid() && token == OrWord && Proper(left) && Ids(left) <= nodes
      modifies this
      ensures Clean(r, old(Others()), old(nodes) - Ids(left))
      ensures r.Some? ==> |Rest()| < |old(Rest())| && OrTail(Plain(r.value), Rest(), lookup) == OrTail(Plain(left), old(Rest()), lookup)
      ensures r == None ==> (Found(r), Rest()) == OrTail(Plain(left), old(Rest()), lookup)
      decreases |Rest()|, 0
    {
      hide Tokens, IsCString, Ids, Proper, ParseExpr, ParseTerm, ParseFactor, AndTail;
      Advance();
      r := Term();
      if r == None {
        FreeTree(left);
        return;
      }
      ghost var added := nodes;
      var id := NewNode();
      Joins(old(nodes), id, false, left, r.value, added);
      r := Some(Operator(id, false, left, r.value));
    }

    method Term() returns (r: Option<Tree>)
      requires Valid()
      modifies this
      ensures Clean(r, old(Others()), old(nodes)) && (Found(r), Rest()) == ParseTerm(old(Rest()), lookup)
      decreases |Rest()|, 1
    {
      hide Tokens, IsCString, Ids, Proper, ParseExpr, ParseTerm, ParseFactor, OrTail, AndTail, Shrinks;
      AndStart(Rest(), lookup);
      r := Factor();
      while r.Some? && token == AndWord
        invariant Clean(r, old(Others()), old(nodes)) && (r.Some? ==> |Rest()| < |old(Rest())|)
        invariant r.Some? ==> AndTail(Plain(r.value), Rest(), lookup) == ParseTerm(old(Rest()), lookup)
        invariant r == None ==> (Found(r), Rest()) == ParseTerm(old(Rest()), lookup)
        decreases r.Some?, |Rest()|
      {
        r := AndStep(r.value);
      }
      if r.Some? {
        AndStop(Plain(r.value), Rest(), lookup);
      }
    }

    /** One more operand; the tree so far is freed when there is none. */
    method AndStep(left: Tree) returns (r: Option<Tree>)
      requires Valid() && token == AndWord && Proper(left) && Ids(left) <= nodes
      modifies this
      ensures Clean(r, old(Others()), old(nodes) - Ids(left))
      ensures r.Some? ==> |Rest()| < |old(Rest())| && AndTail(Plain(r.value), Rest(), lookup) == AndTail(Plain(left), old(Rest()), lookup)
      ensures r == None ==> (Found(r), Rest()) == AndTail(Plain(left), old(Rest()), lookup)
      decreases |Rest()|, 0
    {
      hide Tokens, IsCString, Ids, Proper, ParseExpr, ParseTerm, ParseFactor, OrTail;
      Advance();
      r := Factor();
      if r == None {
        FreeTree(left);
        return;
      }
      ghost var added := nodes;
      var id := NewNode();
      Joins(old(nodes), id, true, left, r.value, added);
      r := Some(Operator(id, true, left, r.value));
    }

    method Factor() returns (r: Option<Tree>)
      requires Valid()
      modifies this
      ensures Clean(r, old(Others()), old(nodes)) && (Found(r), Rest()) == ParseFactor(old(Rest()), lookup)
      decreases |Rest()|, 0
    {
      hide Tokens, IsCString, Ids, Proper, ParseExpr, ParseTerm, OrTail, AndTail, ParseCondition;
      if token == LeftParen {
        r := Parenthesised();
      } else {
        r := ConditionRule();
      }
    }

    method Parenthesised() returns (r: Option<Tree>)
      requires Valid() && token == LeftParen
      modifies this
      ensures Clean(r, old(Others()), old(nodes))
      ensures var e := ParseExpr(old(Rest())[1..], lookup);
              (Found(r), Rest()) == if e.1[0] != RightParen then (None, e.1) else (e.0, e.1[1..])
      decreases |Rest()| - 1, 3
    {
      hide Tokens, IsCString, Ids, Proper, ParseExpr, Shrinks;
      Advance();
      r := Expression();
      if token == RightParen {
        Advance();
      } else if r.Some? {
        FreeTree(r.value);
        r := None;
      }
    }

    method ConditionRule() returns (r: Option<Tree>)
      requires Valid()
      modifies this
      ensures Clean(r, old(Others()), old(nodes)) && (Found(r), Rest()) == ParseCondition(old(Rest()), lookup)
    {
      hide Tokens, IsCString, Condition;
      if token == HostWord || token == PortWord {
        var isHost := token == HostWord;
        Advance();
        if !token.Value? {
          return None;
        }
        var text, id := token.text, value;
        Advance();
        r := NewCondition(isHost, text);
        FreeString(id);
      } else {
        r := None;
      }
    }
  }

  /** Parses a whole pattern: every string is freed once, and the nodes left are those of the tree. */
  method ParseText(s: string, lookup: Lookup) returns (r: Option<Tree>, liveStrings: set<nat>, liveNodes: set<nat>)
    requires IsCString(s)
    ensures Found(r) == ParsePattern(s, lookup)
    ensures liveStrings == {} && Adds({}, r, liveNodes)
  {
    hide Tokens, ParseExpr, Next;
    var p := new Parser(s, lookup);
    p.Advance();
    r := p.Expression();
    if r == None {
      if p.token.Value? {
        p.FreeCurrent();
      }
      return None, p.strings, p.nodes;
    }
    if p.token != End {
      if p.token.Value? {
        p.FreeCurrent();
      }
      p.FreeTree(r.value);
      return None, p.strings, p.nodes;
    }
    return r, p.strings, p.nodes;
  }
}
