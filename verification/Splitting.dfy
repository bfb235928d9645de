/**
  The reference theory of newline splitting, shared by the UART line buffer, the Enhanced
  frame parser, the Monitor matcher, log replay and durable-tail paging.

  A byte stream is cut after every newline. `Lines` are the terminated pieces, newline
  included; `Rest` is what follows the last newline.
*/
module Splitting {
  import opened Wrappers

  newtype byte = x: int | 0 <= x < 256

  const NEWLINE: byte := 10

  ghost predicate Unbroken(s: seq<byte>, from: nat, to: nat)
    requires from <= to <= |s|
  {
    forall i :: from <= i < to ==> s[i] != NEWLINE
  }

  /** A terminated line: exactly one newline, in last place. */
  ghost predicate IsLine(line: seq<byte>) {
    && line != []
    && line[|line| - 1] == NEWLINE
    && Unbroken(line, 0, |line| - 1)
  }

  /** `bytes.find(b"\n", from)`: the first newline at or after `from`. */
  function FindNewline(s: seq<byte>, from: nat): (r: Option<nat>)
    requires from <= |s|
    ensures r.Some? ==> from <= r.value < |s|
    decreases |s| - from
  {
    if from == |s| then None
    else if s[from] == NEWLINE then Some(from)
    else FindNewline(s, from + 1)
  }

  lemma {:induction false} FindNewlineIsFirst(s: seq<byte>, from: nat)
    requires from <= |s|
    ensures match FindNewline(s, from)
            case None => Unbroken(s, from, |s|)
            case Some(i) => s[i] == NEWLINE && Unbroken(s, from, i)
    decreases |s| - from
  {
    if from < |s| && s[from] != NEWLINE {
      FindNewlineIsFirst(s, from + 1);
    }
  }

  lemma {:induction false} FirstNewlineUnique(s: seq<byte>, from: nat, i: nat)
    requires from <= i < |s| && s[i] == NEWLINE && Unbroken(s, from, i)
    ensures FindNewline(s, from) == Some(i)
    decreases i - from
  {
    if from < i {
      FirstNewlineUnique(s, from + 1, i);
    }
  }

  lemma {:induction false} NoNewline(s: seq<byte>, from: nat)
    requires from <= |s| && Unbroken(s, from, |s|)
    ensures FindNewline(s, from) == None
    decreases |s| - from
  {
    if from < |s| {
      NoNewline(s, from + 1);
    }
  }

  /** The lines that end in `s`, from position `p` on. */
  function LinesFrom(s: seq<byte>, p: nat): seq<seq<byte>>
    requires p <= |s|
    decreases |s| - p
  {
    match FindNewline(s, p)
    case None => []
    case Some(i) => [s[p..i + 1]] + LinesFrom(s, i + 1)
  }

  /** Where the unterminated line begins. */
  function OpenStart(s: seq<byte>, p: nat): (start: nat)
    requires p <= |s|
    ensures p <= start <= |s|
    decreases |s| - p
  {
    match FindNewline(s, p)
    case None => p
    case Some(i) => OpenStart(s, i + 1)
  }

  function Lines(s: seq<byte>): seq<seq<byte>> {
    LinesFrom(s, 0)
  }

  function Rest(s: seq<byte>): seq<byte> {
    s[OpenStart(s, 0)..]
  }

  ghost function Concat(pieces: seq<seq<byte>>): seq<byte> {
    if pieces == [] then [] else pieces[0] + Concat(pieces[1..])
  }

  ghost predicate AllLines(lines: seq<seq<byte>>) {
    forall k :: 0 <= k < |lines| ==> IsLine(lines[k])
  }

  lemma Regroup<T>(a: seq<T>, b: seq<T>, c: seq<T>)
    ensures (a + b) + c == a + (b + c)
  {
  }

  lemma SliceIsLine(s: seq<byte>, p: nat, i: nat)
    requires p <= i < |s| && s[i] == NEWLINE && Unbroken(s, p, i)
    ensures IsLine(s[p..i + 1])
  {
  }

  lemma ConcatCons(line: seq<byte>, more: seq<seq<byte>>)
    ensures Concat([line] + more) == line + Concat(more)
  {
    assert ([line] + more)[1..] == more;
  }

  lemma JoinAt(s: seq<byte>, p: nat, q: nat)
    requires p <= q <= |s|
    ensures s[p..q] + s[q..] == s[p..]
  {
  }

  lemma JoinStep(s: seq<byte>, p: nat, q: nat, more: seq<seq<byte>>, rest: seq<byte>)
    requires p <= q <= |s| && Concat(more) + rest == s[q..]
    ensures Concat([s[p..q]] + more) + rest == s[p..]
  {
    ConcatCons(s[p..q], more);
    hide Concat;
    Regroup(s[p..q], Concat(more), rest);
    JoinAt(s, p, q);
  }

  lemma {:induction false} SplitFromJoins(s: seq<byte>, p: nat)
    requires p <= |s|
    ensures Concat(LinesFrom(s, p)) + s[OpenStart(s, p)..] == s[p..]
    decreases |s| - p
  {
    hide FindNewline, Concat;
    match FindNewline(s, p)
    case None =>
      ConcatNothing(s[p..]);
    case Some(i) =>
      SplitFromJoins(s, i + 1);
      JoinStep(s, p, i + 1, LinesFrom(s, i + 1), s[OpenStart(s, i + 1)..]);
  }

  lemma ConcatNothing(s: seq<byte>)
    ensures Concat([]) + s == s
  {
  }

  lemma {:induction false} SplitFromCuts(s: seq<byte>, p: nat)
    requires p <= |s|
    ensures AllLines(LinesFrom(s, p))
    ensures Unbroken(s, OpenStart(s, p), |s|)
    decreases |s| - p
  {
    FindNewlineIsFirst(s, p);
    match FindNewline(s, p)
    case None =>
    case Some(i) =>
      SplitFromCuts(s, i + 1);
      SliceIsLine(s, p, i);
      AllLinesAppend([s[p..i + 1]], LinesFrom(s, i + 1));
  }

  /** Splitting loses nothing and cuts only after newlines. */
  lemma SplitSound(s: seq<byte>)
    ensures Concat(Lines(s)) + Rest(s) == s
    ensures AllLines(Lines(s))
    ensures Unbroken(Rest(s), 0, |Rest(s)|)
  {
    SplitFromJoins(s, 0);
    SplitFromCuts(s, 0);
    assert s[0..] == s;
  }

  lemma LineAt(s: seq<byte>, p: nat, line: seq<byte>)
    requires p + |line| <= |s| && s[p..p + |line|] == line && IsLine(line)
    ensures FindNewline(s, p) == Some(p + |line| - 1)
  {
    hide FindNewline;
    forall i | p <= i < p + |line|
      ensures s[i] == line[i - p]
    {
      assert s[p..p + |line|][i - p] == s[i];
    }
    FirstNewlineUnique(s, p, p + |line| - 1);
  }

  lemma TakeDrop(s: seq<byte>, p: nat, a: seq<byte>, b: seq<byte>)
    requires p <= |s| && s[p..] == a + b
    ensures |s| == p + |a| + |b|
    ensures s[p..p + |a|] == a && s[p + |a|..] == b
  {
    assert s[p..][..|a|] == s[p..p + |a|];
    assert s[p..][|a|..] == s[p + |a|..];
  }

  lemma {:induction false} SplitFromUnique(s: seq<byte>, p: nat, lines: seq<seq<byte>>, rest: seq<byte>)
    requires AllLines(lines) && Unbroken(rest, 0, |rest|)
    requires p <= |s| && s[p..] == Concat(lines) + rest
    ensures LinesFrom(s, p) == lines
    ensures OpenStart(s, p) == |s| - |rest|
    decreases lines
  {
    hide FindNewline;
    if lines == [] {
      assert s[p..] == rest;
      assert forall i :: p <= i < |s| ==> s[i] == s[p..][i - p];
      NoNewline(s, p);
    } else {
      var line, more := lines[0], lines[1..];
      assert Concat(lines) == line + Concat(more) && lines == [line] + more;
      hide Concat;
      Regroup(line, Concat(more), rest);
      TakeDrop(s, p, line, Concat(more) + rest);
      LineAt(s, p, line);
      SplitFromUnique(s, p + |line|, more, rest);
    }
  }

  /** There is no other way to cut a stream into terminated lines and an unbroken rest. */
  lemma SplitUnique(lines: seq<seq<byte>>, rest: seq<byte>)
    requires AllLines(lines) && Unbroken(rest, 0, |rest|)
    ensures Lines(Concat(lines) + rest) == lines
    ensures Rest(Concat(lines) + rest) == rest
  {
    var s := Concat(lines) + rest;
    assert s[0..] == s;
    SplitFromUnique(s, 0, lines, rest);
  }

  lemma {:induction false} ConcatAppend(a: seq<seq<byte>>, b: seq<seq<byte>>)
    ensures Concat(a + b) == Concat(a) + Concat(b)
  {
    if a == [] {
      assert a + b == b;
    } else {
      assert (a + b)[0] == a[0] && (a + b)[1..] == a[1..] + b;
      ConcatAppend(a[1..], b);
    }
  }

  /** Chunk by chunk splitting: only the rest of what came before matters to what comes next. */
  lemma SplitAppend(a: seq<byte>, b: seq<byte>)
    ensures Lines(a + b) == Lines(a) + Lines(Rest(a) + b)
    ensures Rest(a + b) == Rest(Rest(a) + b)
  {
    hide *;
    var ra := Rest(a);
    var lines, more, rest := Lines(a), Lines(ra + b), Rest(ra + b);
    SplitSound(a);
    SplitSound(ra + b);
    ConcatAppend(lines, more);
    Regroup(Concat(lines), Concat(more), rest);
    Regroup(Concat(lines), ra, b);
    AllLinesAppend(lines, more);
    SplitUnique(lines + more, rest);
  }

  lemma AllLinesAppend(a: seq<seq<byte>>, b: seq<seq<byte>>)
    requires AllLines(a) && AllLines(b)
    ensures AllLines(a + b)
  {
  }

  /** Number of newlines in a chunk. */
  function Newlines(s: seq<byte>): nat {
    if s == [] then 0
    else Newlines(s[..|s| - 1]) + if s[|s| - 1] == NEWLINE then 1 else 0
  }

  lemma {:induction false} NewlinesOfUnbroken(s: seq<byte>, from: nat, to: nat)
    requires from <= to <= |s|
    requires Unbroken(s, from, to)
    ensures Newlines(s[..to]) == Newlines(s[..from])
  {
    if from < to {
      assert s[..to][..to - 1] == s[..to - 1];
      NewlinesOfUnbroken(s, from, to - 1);
    }
  }
}
