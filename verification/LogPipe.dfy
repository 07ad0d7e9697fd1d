/** Cutting the worker's output stream into log lines, whatever the chunks it arrives in. */
module LogPipe {
  import opened Bytes

  const MAX_LINE: nat := 1024
  const LF: byte := 10
  const CR: byte := 13

  /** Where the first line feed is; -1 when there is none. */
  function IndexOf(s: seq<byte>): (i: int)
    ensures -1 <= i < |s|
    ensures i >= 0 ==> s[i] == LF && forall k :: 0 <= k < i ==> s[k] != LF
    ensures i < 0 ==> forall k :: 0 <= k < |s| ==> s[k] != LF
  {
    if s == [] then -1
    else if s[0] == LF then 0
    else var i := IndexOf(s[1..]); if i < 0 then -1 else i + 1
  }

  /** A line without one carriage return at its end. */
  function Stripped(line: seq<byte>): seq<byte> {
    if line != [] && line[|line| - 1] == CR then line[..|line| - 1] else line
  }

  function Shown(line: seq<byte>): seq<seq<byte>> { if line == [] then [] else [line] }

  /** The non-empty lines of a stream that end with a line feed, stripped. */
  function Lines(s: seq<byte>): seq<seq<byte>> {
    var i := IndexOf(s);
    if i < 0 then [] else Shown(Stripped(s[..i])) + Lines(s[i + 1..])
  }

  /** What follows the last line feed. */
  function Tail(s: seq<byte>): seq<byte> {
    var i := IndexOf(s);
    if i < 0 then s else Tail(s[i + 1..])
  }

  /** Every line, the unfinished one included, has at most 1024 bytes. */
  predicate Short(s: seq<byte>) {
    var i := IndexOf(s);
    if i < 0 then |s| <= MAX_LINE else i <= MAX_LINE && Short(s[i + 1..])
  }

  lemma FirstFeed(s: seq<byte>, i: nat)
    requires i < |s| && s[i] == LF && forall k :: 0 <= k < i ==> s[k] != LF
    ensures IndexOf(s) == i
  {
  }

  lemma Cut(s: seq<byte>, i: nat)
    requires IndexOf(s) == i
    ensures Lines(s) == Shown(Stripped(s[..i])) + Lines(s[i + 1..]) && Tail(s) == Tail(s[i + 1..])
    ensures Short(s) <==> i <= MAX_LINE && Short(s[i + 1..])
  {
    hide IndexOf, Shown, Stripped;
    assert Tail(s) == Tail(s[i + 1..]) by {
      hide Lines, Short;
    }
    assert Short(s) <==> i <= MAX_LINE && Short(s[i + 1..]) by {
      hide Lines, Tail;
    }
    hide Tail, Short;
  }

  lemma Uncut(s: seq<byte>)
    requires IndexOf(s) < 0
    ensures Lines(s) == [] && Tail(s) == s && (Short(s) <==> |s| <= MAX_LINE)
  {
    hide IndexOf;
  }

  /** Reading on from the unfinished line gives what reading from the start gives. */
  lemma {:induction false} LinesJoin(a: seq<byte>, b: seq<byte>)
    ensures Lines(a + b) == Lines(a) + Lines(Tail(a) + b)
    ensures Tail(a + b) == Tail(Tail(a) + b)
    ensures Short(a + b) ==> Short(Tail(a) + b)
    decreases |a|
  {
    hide IndexOf, Lines, Tail, Short;
    var i := IndexOf(a);
    if i >= 0 {
      FirstFeed(a + b, i);
      Cut(a, i);
      Cut(a + b, i);
      assert (a + b)[..i] == a[..i];
      assert (a + b)[i + 1..] == a[i + 1..] + b;
      LinesJoin(a[i + 1..], b);
    } else {
      Uncut(a);
    }
  }

  class PipeWriter {
    var rem: seq<byte>
    var capacity: nat
    ghost var out: seq<seq<byte>>

    /** The remainder is an unfinished line. */
    ghost predicate Valid()
      reads this
    {
      |rem| <= capacity && IndexOf(rem) < 0
    }

    constructor ()
      ensures Valid() && rem == [] && out == []
    {
      rem, capacity, out := [], 256, [];
    }

    /** Appends what fits; the buffer may grow to any capacity that holds the result. */
    method AddToRem(p: seq<byte>)
      requires |rem| <= capacity
      modifies this`rem, this`capacity
      ensures |rem| <= capacity && old(rem) <= rem <= old(rem) + p
      ensures |old(rem)| + |p| <= MAX_LINE ==> rem == old(rem) + p
    {
      var maxLen := if capacity > MAX_LINE then capacity else MAX_LINE;
      var room := maxLen - |rem|;
      if room == 0 {
        return;
      }
      var q := if room < |p| then p[..room] else p;
      rem := rem + q;
      if |rem| > capacity {
        var grown: nat :| grown >= |rem|;
        capacity := grown;
      }
    }

    /** Ends the current line with p[..i], where p[i] is a line feed, and shows it unless it is empty. */
    method EndLine(p: seq<byte>, i: nat)
      requires Valid() && i == IndexOf(p)
      modifies this
      ensures Valid() && rem == [] && old(out) <= out && |out| <= |old(out)| + 1
      ensures |old(rem)| + i <= MAX_LINE ==> out == old(out) + Shown(Stripped(old(rem) + p[..i]))
    {
      ghost var line := rem + p[..i];
      if i == 0 && |rem| > 0 && rem[|rem| - 1] == CR {
        rem := rem[..|rem| - 1];
        AddToRem(p[0..i]);
      } else if i > 0 && p[i - 1] == CR {
        AddToRem(p[0..i - 1]);
      } else {
        AddToRem(p[0..i]);
      }
      assert |line| <= MAX_LINE ==> rem == Stripped(line);
      if |rem| > 0 {
        out := out + [rem];
        rem := [];
      }
    }

    /** One chunk: the lines shown and the remainder are those of the stream so far. */
    method Write(chunk: seq<byte>)
      requires Valid()
      modifies this
      ensures Valid() && old(out) <= out
      ensures Short(old(rem) + chunk) ==> out == old(out) + Lines(old(rem) + chunk) && rem == Tail(old(rem) + chunk)
    {
      hide IndexOf, Lines, Tail, Short, Shown, Stripped;
      var p := chunk;
      ghost var all := rem + chunk;
      while true
        invariant Valid() && old(out) <= out
        invariant Short(all) ==> Short(rem + p) && out + Lines(rem + p) == old(out) + Lines(all) && Tail(rem + p) == Tail(all)
        decreases |p|
      {
        var i := IndexOf(p);
        if i < 0 {
          NoFeed(rem, p);
          ghost var joined := rem + p;
          AddToRem(p);
          PrefixUnfinished(rem, joined);
          return;
        }
        NextLine(rem, p, i);
        EndLine(p, i);
        p := p[i + 1..];
        assert rem + p == p;
      }
    }
  }

  lemma NoFeed(rem: seq<byte>, p: seq<byte>)
    requires IndexOf(rem) < 0 && IndexOf(p) < 0
    ensures IndexOf(rem + p) < 0 && Lines(rem + p) == [] && Tail(rem + p) == rem + p
    ensures Short(rem + p) ==> |rem| + |p| <= MAX_LINE
  {
    FeedAfter(rem, p);
    Uncut(rem + p);
  }

  lemma PrefixUnfinished(a: seq<byte>, b: seq<byte>)
    requires a <= b && IndexOf(b) < 0
    ensures IndexOf(a) < 0
  {
    hide IndexOf;
    assert forall k :: 0 <= k < |a| ==> a[k] == b[k];
  }

  lemma NextLine(rem: seq<byte>, p: seq<byte>, i: nat)
    requires IndexOf(rem) < 0 && IndexOf(p) == i
    ensures Short(rem + p) ==> |rem| + i <= MAX_LINE && Short(p[i + 1..])
    ensures Lines(rem + p) == Shown(Stripped(rem + p[..i])) + Lines(p[i + 1..])
    ensures Tail(rem + p) == Tail(p[i + 1..])
  {
    hide IndexOf, Lines, Tail, Short;
    FirstFeed(rem + p, |rem| + i);
    Cut(rem + p, |rem| + i);
    assert (rem + p)[..|rem| + i] == rem + p[..i];
    assert (rem + p)[|rem| + i + 1..] == p[i + 1..];
  }

  // ---- what is written is what is shown ------------------------------------------------------------

  /** Lines written to the stream, each ended by a line feed or by carriage return and line feed. */
  function Written(lines: seq<seq<byte>>, crlf: bool): seq<byte> {
    if lines == [] then [] else lines[0] + (if crlf then [CR, LF] else [LF]) + Written(lines[1..], crlf)
  }

  /** A line that can be shown as it is: without a line feed, and not ending in a carriage return. */
  predicate Plain(line: seq<byte>) {
    (line != [] ==> line[|line| - 1] != CR) && forall k :: 0 <= k < |line| ==> line[k] != LF
  }

  /** The lines that are not empty. */
  function Visible(lines: seq<seq<byte>>): seq<seq<byte>> {
    if lines == [] then [] else (if lines[0] == [] then [] else [lines[0]]) + Visible(lines[1..])
  }

  /** Plain lines come out of the stream as they were written, whichever way their ends are marked, and empty ones do not. */
  lemma {:induction false} LinesReadBack(lines: seq<seq<byte>>, crlf: bool, rest: seq<byte>)
    requires (forall i :: 0 <= i < |lines| ==> Plain(lines[i])) && IndexOf(rest) < 0
    ensures Lines(Written(lines, crlf) + rest) == Visible(lines) && Tail(Written(lines, crlf) + rest) == rest
  {
    hide IndexOf, Lines, Tail, Short;
    if lines == [] {
      assert Written(lines, crlf) + rest == rest;
      Uncut(rest);
    } else {
      var line, more := lines[0], Written(lines[1..], crlf) + rest;
      var s := Written(lines, crlf) + rest;
      var i := |line| + if crlf then 1 else 0;
      LinesReadBack(lines[1..], crlf, rest);
      assert s == line + (if crlf then [CR, LF] else [LF]) + more;
      FirstFeed(s, i);
      Cut(s, i);
      assert s[i + 1..] == more;
      assert s[..i] == line + if crlf then [CR] else [];
      assert Stripped(s[..i]) == line;
    }
  }

  function Joined(chunks: seq<seq<byte>>): seq<byte> {
    if chunks == [] then [] else Joined(chunks[..|chunks| - 1]) + chunks[|chunks| - 1]
  }

  /** Any way of cutting a stream of short lines into chunks shows the same lines. */
  method WriteAll(chunks: seq<seq<byte>>) returns (w: PipeWriter)
    ensures Short(Joined(chunks)) ==> w.out == Lines(Joined(chunks)) && w.rem == Tail(Joined(chunks))
  {
    hide Lines, Tail, Short, IndexOf;
    w := new PipeWriter();
    Uncut([]);
    for i := 0 to |chunks|
      invariant w.Valid() && fresh(w)
      invariant Short(Joined(chunks)) ==> w.out == Lines(Joined(chunks[..i])) && w.rem == Tail(Joined(chunks[..i]))
    {
      assert chunks[..i + 1][..i] == chunks[..i];
      if Short(Joined(chunks)) {
        ShortPrefix(chunks, i + 1);
      }
      LinesJoin(Joined(chunks[..i]), chunks[i]);
      w.Write(chunks[i]);
    }
    assert chunks[..|chunks|] == chunks;
  }

  lemma {:induction false} ShortPrefix(chunks: seq<seq<byte>>, k: nat)
    requires k <= |chunks| && Short(Joined(chunks))
    ensures Short(Joined(chunks[..k]))
    decreases |chunks|
  {
    if k < |chunks| {
      var n := |chunks| - 1;
      ShortBefore(Joined(chunks[..n]), chunks[n]);
      ShortPrefix(chunks[..n], k);
      assert chunks[..n][..k] == chunks[..k];
    } else {
      assert chunks[..k] == chunks;
    }
  }

  lemma {:induction false} ShortBefore(a: seq<byte>, b: seq<byte>)
    requires Short(a + b)
    ensures Short(a)
    decreases |a|
  {
    hide IndexOf, Short, Lines, Tail, Shown, Stripped;
    var i := IndexOf(a);
    if i >= 0 {
      FirstFeed(a + b, i);
      Cut(a + b, i);
      Cut(a, i);
      assert (a + b)[i + 1..] == a[i + 1..] + b;
      ShortBefore(a[i + 1..], b);
    } else {
      Uncut(a);
      FeedAfter(a, b);
      var j := IndexOf(a + b);
      if j >= 0 {
        Cut(a + b, j);
      } else {
        Uncut(a + b);
      }
    }
  }

  lemma FeedAfter(a: seq<byte>, b: seq<byte>)
    requires IndexOf(a) < 0
    ensures IndexOf(a + b) < 0 || IndexOf(a + b) >= |a|
    ensures IndexOf(b) < 0 ==> IndexOf(a + b) < 0
  {
    hide IndexOf;
    assert forall j :: 0 <= j < |a| ==> (a + b)[j] == a[j];
    assert forall j :: |a| <= j < |a + b| ==> (a + b)[j] == b[j - |a|];
  }
}
