/** Tokens of a request pattern. */
module ReqLexer {
  datatype Token = HostWord | PortWord | AndWord | OrWord | LeftParen | RightParen | Value(text: string) | End

  predicate IsSpace(c: char) {
    c == ' ' || c == '\t' || c == '\n' || c == '\r' || c == '\U{0B}' || c == '\U{0C}'
  }

  predicate IsAlnum(c: char) {
    'a' <= c <= 'z' || 'A' <= c <= 'Z' || '0' <= c <= '9'
  }

  /** The character at i; the terminator at the end. */
  function At(s: string, i: nat): char { if i < |s| then s[i] else '\0' }

  /** The word w stands at i and no letter or digit follows it. */
  predicate WordAt(s: string, i: nat, w: string) {
    (forall j :: 0 <= j < |w| ==> At(s, i + j) == w[j]) && !IsAlnum(At(s, i + |w|))
  }

  function SkipSpaces(s: string, i: nat): (j: nat)
    requires i <= |s|
    ensures i <= j <= |s| && (j < |s| ==> !IsSpace(s[j]))
    ensures forall k :: i <= k < j ==> IsSpace(s[k])
    decreases |s| - i
  {
    if i < |s| && IsSpace(s[i]) then SkipSpaces(s, i + 1) else i
  }

  /** Where a value stops: at a space, at a parenthesis, or where `and` or `or` stands as a word. */
  predicate Stops(s: string, i: nat)
    requires i < |s|
  {
    IsSpace(s[i]) || s[i] == '(' || s[i] == ')' || WordAt(s, i, "and") || WordAt(s, i, "or")
  }

  function ValueEnd(s: string, i: nat): (j: nat)
    requires i <= |s|
    ensures i <= j <= |s| && (j < |s| ==> Stops(s, j))
    ensures forall k :: i <= k < j ==> !Stops(s, k)
    decreases |s| - i
  {
    if i < |s| && !Stops(s, i) then ValueEnd(s, i + 1) else i
  }

  /** A word that stands at i lies within the text. */
  lemma WordsFit(s: string, i: nat)
    ensures WordAt(s, i, "host") || WordAt(s, i, "port") ==> i + 4 <= |s|
    ensures WordAt(s, i, "and") ==> i + 3 <= |s|
    ensures WordAt(s, i, "or") ==> i + 2 <= |s|
  {
    assert "host"[3] == 't' && "port"[3] == 't' && "and"[2] == 'd' && "or"[1] == 'r';
  }

  /** The token that starts at j, where no space is, and its end. */
  function TokenAt(s: string, j: nat): (r: (Token, nat))
    requires j < |s| && !IsSpace(s[j])
    ensures j < r.1 <= |s| && r.0 != End
  {
    WordsFit(s, j);
    if WordAt(s, j, "host") then (HostWord, j + 4)
    else if WordAt(s, j, "port") then (PortWord, j + 4)
    else if WordAt(s, j, "and") then (AndWord, j + 3)
    else if WordAt(s, j, "or") then (OrWord, j + 2)
    else if s[j] == '(' then (LeftParen, j + 1)
    else if s[j] == ')' then (RightParen, j + 1)
    else (Value(s[j..ValueEnd(s, j)]), ValueEnd(s, j))
  }

  function Next(s: string, i: nat): (r: (Token, nat))
    requires i <= |s|
    ensures i <= r.1 <= |s| && (r.0 != End ==> i < r.1)
  {
    var j := SkipSpaces(s, i);
    if j == |s| then (End, j) else TokenAt(s, j)
  }

  /** All tokens from i on, the last one being the end. */
  function Tokens(s: string, i: nat): (ts: seq<Token>)
    requires i <= |s|
    ensures |ts| > 0 && ts[|ts| - 1] == End && forall k :: 0 <= k < |ts| - 1 ==> ts[k] != End
    decreases |s| - i
  {
    var (t, j) := Next(s, i);
    if t == End then [End] else [t] + Tokens(s, j)
  }

  ghost predicate IsCString(s: string) {
    forall i :: 0 <= i < |s| ==> s[i] != '\0'
  }

  /** The scan, one character at a time. */
  method NextToken(s: string, start: nat) returns (t: Token, i: nat)
    requires start <= |s| && IsCString(s)
    ensures (t, i) == Next(s, start)
  {
    i := start;
    while IsSpace(At(s, i))
      invariant start <= i <= |s| && SkipSpaces(s, i) == SkipSpaces(s, start)
      decreases |s| - i
    {
      i := i + 1;
    }
    if At(s, i) == '\0' {
      return End, i;
    }
    if WordAt(s, i, "host") {
      return HostWord, i + 4;
    } else if WordAt(s, i, "port") {
      return PortWord, i + 4;
    } else if WordAt(s, i, "and") {
      return AndWord, i + 3;
    } else if WordAt(s, i, "or") {
      return OrWord, i + 2;
    } else if At(s, i) == '(' {
      return LeftParen, i + 1;
    } else if At(s, i) == ')' {
      return RightParen, i + 1;
    }
    var from := i;
    while At(s, i) != '\0' && !IsSpace(At(s, i)) && At(s, i) != '(' && At(s, i) != ')'
      invariant from <= i <= |s| && ValueEnd(s, i) == ValueEnd(s, from)
      decreases |s| - i
    {
      if WordAt(s, i, "and") || WordAt(s, i, "or") {
        break;
      }
      i := i + 1;
    }
    t := Value(s[from..i]);
  }

  // ---- writing tokens down -------------------------------------------------------------------------

  /** A text that reads back as one value when a space or the end follows it. */
  predicate Readable(v: string) {
    && v != ""
    && (forall k :: 0 <= k < |v| ==> !Stops(v, k))
    && !WordAt(v, 0, "host") && !WordAt(v, 0, "port")
  }

  function Text(t: Token): string {
    match t
    case HostWord => "host"
    case PortWord => "port"
    case AndWord => "and"
    case OrWord => "or"
    case LeftParen => "("
    case RightParen => ")"
    case Value(v) => v
    case End => ""
  }

  /** Tokens with a space after each. */
  function Spaced(ts: seq<Token>): string {
    if ts == [] then "" else Text(ts[0]) + " " + Spaced(ts[1..])
  }

  predicate Writable(t: Token) {
    t != End && (t.Value? ==> Readable(t.text))
  }

  /** Looking at a word inside v gives the same answer when v is followed by a space. */
  lemma WordInside(s: string, at: nat, v: string, k: nat, w: string)
    requires at + |v| < |s| && s[at..at + |v|] == v && s[at + |v|] == ' ' && k < |v|
    requires forall i :: 0 <= i < |w| ==> w[i] != ' ' && w[i] != '\0'
    ensures WordAt(s, at + k, w) <==> WordAt(v, k, w)
  {
    assert forall i :: 0 <= i < |v| ==> v[i] == s[at..at + |v|][i];
    assert forall i :: 0 <= i < |v| ==> At(v, i) == At(s, at + i);
    if k + |w| > |v| {
      assert At(v, k + (|v| - k)) != w[|v| - k];
      assert At(s, at + k + (|v| - k)) != w[|v| - k];
    }
  }

  lemma StopsInside(s: string, at: nat, v: string, k: nat)
    requires at + |v| < |s| && s[at..at + |v|] == v && s[at + |v|] == ' ' && k < |v|
    ensures Stops(s, at + k) <==> Stops(v, k)
  {
    assert s[at + k] == s[at..at + |v|][k];
    WordInside(s, at, v, k, "and");
    WordInside(s, at, v, k, "or");
  }

  lemma NothingStops(s: string, at: nat, v: string)
    requires at + |v| < |s| && s[at..at + |v|] == v && s[at + |v|] == ' '
    ensures (forall k :: at <= k < at + |v| ==> !Stops(s, k)) <==> (forall k :: 0 <= k < |v| ==> !Stops(v, k))
  {
    forall k | at <= k < at + |v|
      ensures Stops(s, k) <==> Stops(v, k - at)
    {
      StopsInside(s, at, v, k - at);
    }
    forall k | 0 <= k < |v|
      ensures Stops(v, k) <==> Stops(s, k + at)
    {
      StopsInside(s, at, v, k);
    }
  }

  /** Exactly the readable texts read back as one value. */
  lemma ValueReadsBack(s: string, at: nat, v: string)
    requires at + |v| < |s| && s[at..at + |v|] == v && s[at + |v|] == ' ' && v != "" && !IsSpace(v[0])
    ensures TokenAt(s, at) == (Value(v), at + |v|) <==> Readable(v)
  {
    assert s[at] == s[at..at + |v|][0];
    NothingStops(s, at, v);
    WordInside(s, at, v, 0, "host");
    WordInside(s, at, v, 0, "port");
    WordInside(s, at, v, 0, "and");
    WordInside(s, at, v, 0, "or");
    ValueEndsAt(s, at, at + |v|);
  }

  /** The value from i on ends at j exactly when nothing stops it before j and j does. */
  lemma ValueEndsAt(s: string, i: nat, j: nat)
    requires i <= j < |s| && Stops(s, j)
    ensures ValueEnd(s, i) == j <==> forall k :: i <= k < j ==> !Stops(s, k)
  {
  }

  lemma WordReadsBack(s: string, at: nat, t: Token)
    requires Writable(t) && at + |Text(t)| < |s| && s[at..at + |Text(t)|] == Text(t) && s[at + |Text(t)|] == ' '
    ensures !IsSpace(s[at]) && TokenAt(s, at) == (t, at + |Text(t)|)
  {
    var v := Text(t);
    assert s[at] == s[at..at + |v|][0];
    FirstLetter(s, at);
    match t {
      case Value(_) =>
        assert !Stops(v, 0);
        ValueReadsBack(s, at, v);
      case LeftParen =>
      case RightParen =>
      case HostWord | PortWord | AndWord | OrWord =>
        WordInside(s, at, v, 0, v);
    }
  }

  lemma FirstLetter(s: string, at: nat)
    ensures WordAt(s, at, "host") ==> At(s, at) == 'h'
    ensures WordAt(s, at, "port") ==> At(s, at) == 'p'
    ensures WordAt(s, at, "and") ==> At(s, at) == 'a' && At(s, at + 1) == 'n'
    ensures WordAt(s, at, "or") ==> At(s, at) == 'o'
  {
    assert "host"[0] == 'h' && "port"[0] == 'p' && "and"[0] == 'a' && "and"[1] == 'n' && "or"[0] == 'o';
    assert At(s, at) == At(s, at + 0);
  }

  lemma SpacedParts(s: string, at: nat, v: string, rest: string)
    requires at <= |s| && s[at..] == v + " " + rest
    ensures at + |v| < |s| && s[at..at + |v|] == v && s[at + |v|] == ' ' && s[at + |v| + 1..] == rest
  {
    var tail := s[at..];
    assert s[at..at + |v|] == tail[..|v|];
    assert s[at + |v|] == tail[|v|];
    assert s[at + |v| + 1..] == tail[|v| + 1..];
  }

  lemma FirstOfSpaced(s: string, at: nat, t: Token, rest: string)
    requires Writable(t) && at <= |s| && s[at..] == Text(t) + " " + rest
    ensures at + |Text(t)| < |s| && s[at + |Text(t)| + 1..] == rest
    ensures Tokens(s, at) == [t] + Tokens(s, at + |Text(t)| + 1)
  {
    hide TokenAt, Text, Readable, Writable;
    var v := Text(t);
    SpacedParts(s, at, v, rest);
    WordReadsBack(s, at, t);
    assert Next(s, at) == (t, at + |v|);
    SpaceBefore(s, at + |v|);
  }

  /** Written tokens read back as they were. */
  lemma {:induction false} SpacedReadsBack(s: string, at: nat, ts: seq<Token>)
    requires forall k :: 0 <= k < |ts| ==> Writable(ts[k])
    requires at <= |s| && s[at..] == Spaced(ts)
    ensures Tokens(s, at) == ts + [End]
    decreases |ts|
  {
    hide Text, Tokens, Writable;
    if ts == [] {
      NothingLeft(s, at);
    } else {
      FirstOfSpaced(s, at, ts[0], Spaced(ts[1..]));
      SpacedReadsBack(s, at + |Text(ts[0])| + 1, ts[1..]);
      assert ts + [End] == [ts[0]] + (ts[1..] + [End]);
    }
  }

  lemma NothingLeft(s: string, at: nat)
    requires at <= |s| && s[at..] == ""
    ensures Tokens(s, at) == [End]
  {
    assert |s[at..]| == 0;
  }

  lemma SpaceBefore(s: string, i: nat)
    requires i < |s| && s[i] == ' '
    ensures Next(s, i) == Next(s, i + 1) && Tokens(s, i) == Tokens(s, i + 1)
  {
    assert SkipSpaces(s, i) == SkipSpaces(s, i + 1);
  }

  // ---- which values can be written -----------------------------------------------------------------

  /** The characters of numeric addresses and of ports. */
  predicate IsAddressChar(c: char) {
    '0' <= c <= '9' || 'a' <= c <= 'f' || 'A' <= c <= 'F' || c == '.' || c == ':'
  }

  /** Numeric addresses and ports always read back. */
  lemma AddressesAreReadable(v: string)
    requires v != "" && forall k :: 0 <= k < |v| ==> IsAddressChar(v[k])
    ensures Readable(v)
  {
    forall k | 0 <= k < |v|
      ensures !WordAt(v, k, "and") && !WordAt(v, k, "or") && !WordAt(v, k, "host") && !WordAt(v, k, "port")
    {
      FirstLetter(v, k);
    }
  }

  /** An interface name that ends in `or` is not read as one value: it is cut before those letters. */
  lemma InterfaceNameIsCut(s: string)
    requires s == "nic.vendor "
    ensures TokenAt(s, 0).0 != Value("nic.vendor") && !Readable("nic.vendor")
  {
    var v := "nic.vendor";
    assert WordAt(v, 8, "or");
    assert Stops(v, 8);
    assert s[0..10] == v;
    ValueReadsBack(s, 0, v);
  }
}
