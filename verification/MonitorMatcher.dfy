/**
  The Monitor's condition matcher: literal patterns looked for in complete UART lines that begin at or
  after the operation's start cursor, channel by channel.

  The reference takes all evidence seen so far, per channel drops the line the cursor fell into, cuts
  the rest at newlines, and lists the lines in the order the evidence completed them. The matcher,
  under any batching, returns the first of them that contains a pattern.
*/
module MonitorMatcher {
  import opened Wrappers
  import opened Splitting
  import opened LineBuffer

  const MAX_MONITOR_MATCH_EXCERPT_BYTES := 4096
  const MAX_WAIT_PATTERN_BYTES := 256

  datatype Key = Key(session: string, segment: nat, channel: nat)

  datatype Evidence = Evidence(key: Key, sequence: int, timestampUs: int, data: seq<byte>)

  /** A line and the evidence that completed it. */
  datatype Completed = Completed(source: Evidence, line: UartLine)

  datatype Match = Match(
    conditionIndex: nat,
    source: Evidence,
    span: Span,
    totalLineBytes: nat,
    matchStart: nat,
    matchEnd: nat,
    excerptStart: nat,
    excerptEnd: nat,
    excerpt: seq<byte>,
    excerptTruncated: bool)

  // ----- One line -----

  predicate OccursAt(raw: seq<byte>, pattern: seq<byte>, at: nat) {
    at + |pattern| <= |raw| && raw[at..at + |pattern|] == pattern
  }

  /** `raw.find(pattern)` from offset `from`. */
  function Find(raw: seq<byte>, pattern: seq<byte>, from: nat): (r: Option<nat>)
    requires from <= |raw| + 1
    decreases |raw| + 1 - from
  {
    if from + |pattern| > |raw| then None
    else if OccursAt(raw, pattern, from) then Some(from)
    else Find(raw, pattern, from + 1)
  }

  lemma {:induction false} FindIsFirst(raw: seq<byte>, pattern: seq<byte>, from: nat)
    requires from <= |raw| + 1
    ensures match Find(raw, pattern, from)
            case None => forall at :: from <= at <= |raw| ==> !OccursAt(raw, pattern, at)
            case Some(r) => from <= r && OccursAt(raw, pattern, r) && forall at :: from <= at < r ==> !OccursAt(raw, pattern, at)
    decreases |raw| + 1 - from
  {
    if from + |pattern| <= |raw| && !OccursAt(raw, pattern, from) {
      FindIsFirst(raw, pattern, from + 1);
    }
  }

  /** The least `(offset, index)` among the first occurrences of the first `n` patterns. */
  function Best(raw: seq<byte>, patterns: seq<seq<byte>>, n: nat): (r: Option<(nat, nat)>)
    requires n <= |patterns|
    ensures r.Some? ==> r.value.1 < n
  {
    if n == 0 then None
    else
      var before, here := Best(raw, patterns, n - 1), Find(raw, patterns[n - 1], 0);
      if here.None? || (before.Some? && before.value.0 <= here.value) then before else Some((here.value, n - 1))
  }

  /** The chosen candidate occurs there; no pattern occurs earlier, and none listed before it as early. */
  lemma {:induction false} BestIsLeast(raw: seq<byte>, patterns: seq<seq<byte>>, n: nat)
    requires n <= |patterns|
    ensures match Best(raw, patterns, n)
            case None => forall i, at :: 0 <= i < n && 0 <= at <= |raw| ==> !OccursAt(raw, patterns[i], at)
            case Some((offset, index)) =>
              && OccursAt(raw, patterns[index], offset)
              && forall i, at :: 0 <= i < n && 0 <= at <= |raw| && OccursAt(raw, patterns[i], at) ==>
                   offset < at || (offset == at && index <= i)
  {
    if n > 0 {
      BestIsLeast(raw, patterns, n - 1);
      FindIsFirst(raw, patterns[n - 1], 0);
      hide Best, Find, OccursAt;
    }
  }

  function ExcerptStart(matchStart: nat, length: nat): nat {
    var latest := if length > MAX_MONITOR_MATCH_EXCERPT_BYTES then length - MAX_MONITOR_MATCH_EXCERPT_BYTES else 0;
    if matchStart < latest then matchStart else latest
  }

  function ExcerptEnd(start: nat, length: nat): nat {
    if start + MAX_MONITOR_MATCH_EXCERPT_BYTES < length then start + MAX_MONITOR_MATCH_EXCERPT_BYTES else length
  }

  /** `_match_line`. */
  function MatchLine(patterns: seq<seq<byte>>, completed: Completed): Option<Match> {
    var raw := completed.line.raw;
    match Best(raw, patterns, |patterns|)
    case None => None
    case Some((offset, index)) =>
      var start := ExcerptStart(offset, |raw|);
      var end := ExcerptEnd(start, |raw|);
      if start <= end then
        Some(Match(index, completed.source, completed.line.span, |raw|, offset, offset + |patterns[index]|,
                   start, end, raw[start..end], end - start != |raw|))
      else None
  }

  lemma Window(matchStart: nat, patternBytes: nat, length: nat)
    requires matchStart + patternBytes <= length && patternBytes <= MAX_WAIT_PATTERN_BYTES
    ensures var start := ExcerptStart(matchStart, length);
            var end := ExcerptEnd(start, length);
            && start <= matchStart && matchStart + patternBytes <= end <= length
            && end - start <= MAX_MONITOR_MATCH_EXCERPT_BYTES && (end - start == length ==> start == 0)
  {
  }

  lemma SliceOfSlice(raw: seq<byte>, start: nat, end: nat, from: nat, to: nat)
    requires start <= from <= to <= end <= |raw|
    ensures raw[start..end][from - start..to - start] == raw[from..to]
    ensures end - start == |raw| ==> raw[start..end] == raw
  {
    var a, b := raw[start..end][from - start..to - start], raw[from..to];
    assert |a| == |b| && forall k :: 0 <= k < |a| ==> a[k] == b[k];
  }

  /** The excerpt is a bounded window of the line that always contains the whole match. */
  lemma ExcerptCoversMatch(patterns: seq<seq<byte>>, completed: Completed)
    requires forall i :: 0 <= i < |patterns| ==> |patterns[i]| <= MAX_WAIT_PATTERN_BYTES
    ensures match MatchLine(patterns, completed)
            case None => forall i, at :: 0 <= i < |patterns| && 0 <= at <= |completed.line.raw| ==>
                           !OccursAt(completed.line.raw, patterns[i], at)
            case Some(m) =>
              && m.conditionIndex < |patterns| && m.excerptStart <= m.matchStart && m.matchEnd <= m.excerptEnd
              && |m.excerpt| == m.excerptEnd - m.excerptStart <= MAX_MONITOR_MATCH_EXCERPT_BYTES
              && m.excerpt[m.matchStart - m.excerptStart..m.matchEnd - m.excerptStart] == patterns[m.conditionIndex]
              && (m.excerptTruncated <==> m.excerpt != completed.line.raw)
  {
    var raw := completed.line.raw;
    BestIsLeast(raw, patterns, |patterns|);
    if Best(raw, patterns, |patterns|).Some? {
      var (offset, index) := Best(raw, patterns, |patterns|).value;
      var start := ExcerptStart(offset, |raw|);
      var end := ExcerptEnd(start, |raw|);
      Window(offset, |patterns[index]|, |raw|);
      SliceOfSlice(raw, start, end, offset, offset + |patterns[index]|);
      assert raw[offset..offset + |patterns[index]|] == patterns[index];
      hide ExcerptStart, ExcerptEnd, Best, OccursAt;
    }
  }

  /** No condition's pattern occurs in the line. */
  ghost predicate NoMatch(patterns: seq<seq<byte>>, c: Completed) {
    forall i, at :: 0 <= i < |patterns| && 0 <= at <= |c.line.raw| ==> !OccursAt(c.line.raw, patterns[i], at)
  }

  /** The one match to report for a line: the least occurrence, on a tie of the condition listed first, with
      the line's provenance and a window of it that starts at the match unless the line ends too soon. */
  ghost predicate IsMatchOf(patterns: seq<seq<byte>>, c: Completed, m: Match) {
    var raw := c.line.raw;
    var window := if |raw| < MAX_MONITOR_MATCH_EXCERPT_BYTES then |raw| else MAX_MONITOR_MATCH_EXCERPT_BYTES;
    && m.source == c.source && m.span == c.line.span && m.totalLineBytes == |raw|
    && m.conditionIndex < |patterns| && OccursAt(raw, patterns[m.conditionIndex], m.matchStart)
    && m.matchEnd == m.matchStart + |patterns[m.conditionIndex]|
    && (forall i, at :: 0 <= i < |patterns| && 0 <= at <= |raw| && OccursAt(raw, patterns[i], at) ==>
          m.matchStart < at || (m.matchStart == at && m.conditionIndex <= i))
    && m.excerptStart <= m.matchStart && m.excerptStart <= m.excerptEnd <= |raw|
    && m.excerptEnd - m.excerptStart == window
    && (m.excerptStart == m.matchStart || m.excerptEnd == |raw|)
    && m.excerpt == raw[m.excerptStart..m.excerptEnd]
    && (m.excerptTruncated <==> window < |raw|)
  }

  /** `_match_line` reports exactly that match, and none only when no pattern occurs. */
  lemma MatchIsExact(patterns: seq<seq<byte>>, c: Completed)
    ensures match MatchLine(patterns, c)
            case None => NoMatch(patterns, c)
            case Some(m) => IsMatchOf(patterns, c, m)
  {
    BestIsLeast(c.line.raw, patterns, |patterns|);
    hide Best, OccursAt;
  }

  /** There is only one such match, and no match beside `NoMatch`. */
  lemma MatchIsUnique(patterns: seq<seq<byte>>, c: Completed, m: Match, n: Match)
    requires IsMatchOf(patterns, c, m)
    ensures IsMatchOf(patterns, c, n) ==> m == n
    ensures !NoMatch(patterns, c)
  {
    assert m.matchStart <= |c.line.raw|;
    if IsMatchOf(patterns, c, n) {
      assert n.matchStart <= |c.line.raw|;
    }
  }

  // ----- The reference: lines completed by a list of evidence -----

  ghost function OfKey(evidence: seq<Evidence>, key: Key): seq<Evidence> {
    if evidence == [] then []
    else
      var e := evidence[|evidence| - 1];
      OfKey(evidence[..|evidence| - 1], key) + if e.key == key then [e] else []
  }

  ghost function Bytes(evidence: seq<Evidence>): seq<byte> {
    if evidence == [] then [] else Bytes(evidence[..|evidence| - 1]) + evidence[|evidence| - 1].data
  }

  /** The line the cursor fell into has not ended yet. */
  ghost predicate Discarding(skip: bool, evidence: seq<Evidence>) {
    skip && FindNewline(Bytes(evidence), 0).None?
  }

  /** What one more piece of evidence contributes to its channel's line buffer. */
  ghost function Contribution(discarding: bool, e: Evidence): (more: seq<Event>)
    ensures |more| <= 1
  {
    if !discarding then [Event(Some(e.sequence), Some(e.timestampUs), 0, e.data)]
    else match FindNewline(e.data, 0)
         case None => []
         case Some(i) =>
           if i + 1 == |e.data| then [] else [Event(Some(e.sequence), Some(e.timestampUs), i + 1, e.data[i + 1..])]
  }

  /** A channel's eligible events. */
  ghost function Eligible(skip: bool, evidence: seq<Evidence>): seq<Event> {
    if evidence == [] then []
    else
      var before := evidence[..|evidence| - 1];
      Eligible(skip, before) + Contribution(Discarding(skip, before), evidence[|evidence| - 1])
  }

  /** The lines that `more` completes behind `h`. */
  ghost function NewLines(h: seq<Event>, more: seq<Event>): seq<UartLine>
    requires |more| <= 1
  {
    if more == [] then []
    else
      OpenWithin(h, more[0]);
      Wholes(Items(h + more, OpenStart(Stream(h), 0)))
  }

  lemma OpenWithin(h: seq<Event>, e: Event)
    ensures OpenStart(Stream(h), 0) <= |Stream(h + [e])|
  {
    StreamSnoc(h, e);
  }

  function Tagged(e: Evidence, lines: seq<UartLine>): (tagged: seq<Completed>)
    ensures |tagged| == |lines|
  {
    seq(|lines|, (k: nat) requires k < |lines| => Completed(e, lines[k]))
  }

  /** The lines completed by `e`, after `before`. */
  ghost function CompletedBy(incomplete: set<Key>, before: seq<Evidence>, e: Evidence): seq<Completed> {
    var skip, mine := e.key in incomplete, OfKey(before, e.key);
    Tagged(e, NewLines(Eligible(skip, mine), Contribution(Discarding(skip, mine), e)))
  }

  /** All lines completed, in completion order. */
  ghost function Completions(incomplete: set<Key>, evidence: seq<Evidence>): seq<Completed> {
    if evidence == [] then []
    else
      var before := evidence[..|evidence| - 1];
      Completions(incomplete, before) + CompletedBy(incomplete, before, evidence[|evidence| - 1])
  }

  ghost function FirstMatch(patterns: seq<seq<byte>>, completed: seq<Completed>): Option<Match> {
    if completed == [] then None
    else
      var before := FirstMatch(patterns, completed[..|completed| - 1]);
      if before.Some? then before else MatchLine(patterns, completed[|completed| - 1])
  }

  /** It is the first: no earlier line matches, and without it none does. */
  lemma {:induction false} FirstMatchIsFirst(patterns: seq<seq<byte>>, completed: seq<Completed>)
    ensures match FirstMatch(patterns, completed)
            case None => forall k :: 0 <= k < |completed| ==> MatchLine(patterns, completed[k]).None?
            case Some(m) =>
              exists k :: 0 <= k < |completed| && MatchLine(patterns, completed[k]) == Some(m)
                          && forall i :: 0 <= i < k ==> MatchLine(patterns, completed[i]).None?
  {
    hide MatchLine;
    if completed != [] {
      var n := |completed| - 1;
      FirstMatchIsFirst(patterns, completed[..n]);
      assert forall i :: 0 <= i < n ==> completed[..n][i] == completed[i];
    }
  }

  /** In terms of the lines alone: the match is that of the first completed line in which any pattern
      occurs, and none is reported only when none occurs in any. */
  lemma FirstMatchMeans(patterns: seq<seq<byte>>, completed: seq<Completed>)
    ensures match FirstMatch(patterns, completed)
            case None => forall k :: 0 <= k < |completed| ==> NoMatch(patterns, completed[k])
            case Some(m) =>
              exists k :: 0 <= k < |completed| && IsMatchOf(patterns, completed[k], m)
                          && forall i :: 0 <= i < k ==> NoMatch(patterns, completed[i])
  {
    hide NoMatch, IsMatchOf, MatchLine, FirstMatch;
    FirstMatchIsFirst(patterns, completed);
    forall k | 0 <= k < |completed|
      ensures match MatchLine(patterns, completed[k]) case None => NoMatch(patterns, completed[k]) case Some(m) => IsMatchOf(patterns, completed[k], m)
    {
      MatchIsExact(patterns, completed[k]);
    }
  }

  lemma {:induction false} FirstMatchAppend(patterns: seq<seq<byte>>, a: seq<Completed>, b: seq<Completed>)
    ensures FirstMatch(patterns, a + b) == if FirstMatch(patterns, a).Some? then FirstMatch(patterns, a) else FirstMatch(patterns, b)
  {
    hide MatchLine;
    if b == [] {
      assert a + b == a;
    } else {
      var n := |b| - 1;
      assert (a + b)[..|a| + n] == a + b[..n];
      FirstMatchAppend(patterns, a, b[..n]);
    }
  }

  lemma CompletionsSnoc(incomplete: set<Key>, before: seq<Evidence>, e: Evidence)
    ensures Completions(incomplete, before + [e]) == Completions(incomplete, before) + CompletedBy(incomplete, before, e)
  {
    assert (before + [e])[..|before|] == before;
  }

  /** Later evidence never changes what was completed before. */
  lemma {:induction false} CompletionsGrow(incomplete: set<Key>, a: seq<Evidence>, b: seq<Evidence>)
    ensures Completions(incomplete, a) <= Completions(incomplete, a + b)
  {
    if b == [] {
      assert a + b == a;
    } else {
      var n := |b| - 1;
      assert a + b == (a + b[..n]) + [b[n]];
      CompletionsGrow(incomplete, a, b[..n]);
      CompletionsSnoc(incomplete, a + b[..n], b[n]);
    }
  }

  // ----- Where matching starts -----

  /** The stream from the first byte after the line the cursor fell into. */
  ghost function AfterCut(skip: bool, s: seq<byte>): seq<byte> {
    if !skip then s
    else match FindNewline(s, 0) case None => [] case Some(i) => s[i + 1..]
  }

  lemma FindAcross(s: seq<byte>, d: seq<byte>)
    ensures FindNewline(s + d, 0) ==
            if FindNewline(s, 0).Some? then FindNewline(s, 0) else Shifted(FindNewline(d, 0), |s|)
  {
    FindNewlineIsFirst(s, 0);
    if FindNewline(s, 0).Some? {
      FindInPrefix(s, d, 0);
    } else {
      forall i | 0 <= i < |s|
        ensures (s + d)[i] != NEWLINE
      {
        assert (s + d)[i] == s[i];
      }
      NextNewline(s, d, 0, 0);
    }
  }

  lemma OneEvent(h: seq<Event>, e: Event)
    ensures Stream(h + [e]) == Stream(h) + e.data && Stream(h + []) == Stream(h)
  {
    StreamSnoc(h, e);
    assert h + [] == h;
  }

  /** A channel's eligible events carry exactly the bytes after the cut. */
  lemma {:induction false} EligibleBytes(skip: bool, evidence: seq<Evidence>)
    ensures Stream(Eligible(skip, evidence)) == AfterCut(skip, Bytes(evidence))
  {
    if evidence != [] {
      var n := |evidence| - 1;
      var before, e := evidence[..n], evidence[n];
      EligibleBytes(skip, before);
      EligibleStep(Eligible(skip, before), Bytes(before), skip, e);
    }
  }

  lemma EligibleStep(h: seq<Event>, s: seq<byte>, skip: bool, e: Evidence)
    requires Stream(h) == AfterCut(skip, s)
    ensures Stream(h + Contribution(skip && FindNewline(s, 0).None?, e)) == AfterCut(skip, s + e.data)
  {
    hide FindNewline, Stream;
    FindAcross(s, e.data);
    if !skip || FindNewline(s, 0).Some? {
      OneEvent(h, Event(Some(e.sequence), Some(e.timestampUs), 0, e.data));
      hide Shifted;
      FirstWithin(s);
      CutBefore(s, e.data, if skip then FindNewline(s, 0).value + 1 else 0);
    } else {
      assert Stream(h) == [];
      EligibleCut(h, s, e);
    }
  }

  lemma FirstWithin(s: seq<byte>)
    ensures FindNewline(s, 0).Some? ==> FindNewline(s, 0).value < |s|
  {
  }

  /** What follows the cut when the cut falls into the newest bytes. */
  ghost function Remainder(d: seq<byte>): seq<byte> {
    match FindNewline(d, 0) case None => [] case Some(i) => d[i + 1..]
  }

  lemma CutInNewest(s: seq<byte>, d: seq<byte>)
    requires FindNewline(s + d, 0) == Shifted(FindNewline(d, 0), |s|)
    ensures AfterCut(true, s + d) == Remainder(d)
  {
    hide FindNewline;
    FirstWithin(d);
    if FindNewline(d, 0).Some? {
      CutBehindAt(s, d, |s| + FindNewline(d, 0).value, FindNewline(d, 0).value);
    }
  }

  lemma ContributionBytes(e: Evidence)
    ensures Stream(Contribution(true, e)) == Remainder(e.data)
  {
    hide FindNewline;
    FirstWithin(e.data);
    var more := Contribution(true, e);
    if more != [] {
      assert more == [] + [more[0]];
      OneEvent([], more[0]);
    }
  }

  lemma EligibleCut(h: seq<Event>, s: seq<byte>, e: Evidence)
    requires Stream(h) == []
    requires FindNewline(s + e.data, 0) == Shifted(FindNewline(e.data, 0), |s|)
    ensures Stream(h + Contribution(true, e)) == AfterCut(true, s + e.data)
  {
    hide *;
    CutInNewest(s, e.data);
    ContributionBytes(e);
    StreamAppend(h, Contribution(true, e));
    assert [] + Remainder(e.data) == Remainder(e.data);
  }

  lemma CutBefore(s: seq<byte>, d: seq<byte>, i: nat)
    requires i <= |s|
    ensures (s + d)[i..] == s[i..] + d && s[0..] == s && (s + d)[0..] == s + d
  {
  }

  lemma CutBehindAt(s: seq<byte>, d: seq<byte>, j: nat, i: nat)
    requires i < |d| && j == |s| + i
    ensures (s + d)[j + 1..] == d[i + 1..]
  {
  }

  /** The physical line the cursor falls into, if it ends. */
  ghost function Straddling(pre: seq<byte>, post: seq<byte>): seq<seq<byte>> {
    if Rest(pre) == [] then []
    else match FindNewline(post, 0) case None => [] case Some(i) => [Rest(pre) + post[..i + 1]]
  }

  lemma UnbrokenRest(pre: seq<byte>, post: seq<byte>, i: nat)
    requires i < |post| && post[i] == NEWLINE && Unbroken(post, 0, i)
    ensures IsLine(Rest(pre) + post[..i + 1])
  {
    SplitSound(pre);
  }

  lemma OneLine(line: seq<byte>)
    requires IsLine(line)
    ensures Lines(line) == [line] && Rest(line) == []
  {
    assert Concat([line]) + [] == line by { assert [line][1..] == []; }
    SplitUnique([line], []);
  }

  lemma NoLine(s: seq<byte>)
    requires Unbroken(s, 0, |s|)
    ensures Lines(s) == []
  {
    assert Concat([]) + s == s;
    SplitUnique([], s);
  }

  /** Cursor-local matching: with the discard flag set exactly when the cursor falls inside a line of
      the channel's full stream, the lines cut from the eligible bytes are the full stream's lines that
      begin at or after the cursor. */
  lemma CursorLocal(pre: seq<byte>, post: seq<Evidence>)
    ensures var skip := Rest(pre) != [];
            Lines(pre + Bytes(post)) == Lines(pre) + Straddling(pre, Bytes(post)) + Lines(Stream(Eligible(skip, post)))
  {
    var skip, s := Rest(pre) != [], Bytes(post);
    EligibleBytes(skip, post);
    SplitAppend(pre, s);
    hide *;
    if !skip {
      NotSkipped(pre, s);
    } else {
      Skipped(pre, s);
    }
  }

  lemma NotSkipped(pre: seq<byte>, s: seq<byte>)
    requires Rest(pre) == []
    ensures AfterCut(false, s) == s && Straddling(pre, s) == [] && Rest(pre) + s == s
    ensures Lines(pre) + Straddling(pre, s) + Lines(s) == Lines(pre) + Lines(s)
  {
    hide Lines, Rest;
    assert Lines(pre) + [] == Lines(pre);
  }

  lemma Skipped(pre: seq<byte>, s: seq<byte>)
    requires Rest(pre) != []
    ensures Lines(pre) + Straddling(pre, s) + Lines(AfterCut(true, s)) == Lines(pre) + Lines(Rest(pre) + s)
  {
    var r := Rest(pre);
    FindNewlineIsFirst(s, 0);
    SplitSound(pre);
    match FindNewline(s, 0)
    case None =>
      NoLine(r + s);
      NoLine([]);
      hide Lines, Rest, FindNewline;
      assert Lines(pre) + [] + [] == Lines(pre) + [];
    case Some(i) =>
      UnbrokenRest(pre, s, i);
      CutLine(r, s, i + 1);
      hide Lines, Rest, FindNewline;
      Regroup(Lines(pre), [r + s[..i + 1]], Lines(s[i + 1..]));
  }

  lemma CutLine(r: seq<byte>, s: seq<byte>, i: nat)
    requires i <= |s| && IsLine(r + s[..i])
    ensures Lines(r + s) == [r + s[..i]] + Lines(s[i..])
  {
    hide Lines, Rest, IsLine;
    OneLine(r + s[..i]);
    SplitAppend(r + s[..i], s[i..]);
    assert (r + s[..i]) + s[i..] == r + s;
    assert [] + s[i..] == s[i..];
  }

  // ----- Completed lines are the short lines of the split -----

  /** The raw lines of one channel among completed lines. */
  ghost function RawsOf(completed: seq<Completed>, key: Key): seq<seq<byte>> {
    if completed == [] then []
    else
      var c := completed[|completed| - 1];
      RawsOf(completed[..|completed| - 1], key) + if c.source.key == key then [c.line.raw] else []
  }

  lemma {:induction false} RawsOfTagged(completed: seq<Completed>, e: Evidence, lines: seq<UartLine>, key: Key)
    ensures RawsOf(completed + Tagged(e, lines), key) == RawsOf(completed, key) + if e.key == key then Raws(lines) else []
  {
    if lines == [] {
      assert completed + Tagged(e, lines) == completed;
    } else {
      var n := |lines| - 1;
      var all := completed + Tagged(e, lines);
      assert all[..|all| - 1] == completed + Tagged(e, lines[..n]);
      RawsOfTagged(completed, e, lines[..n], key);
      assert Raws(lines) == Raws(lines[..n]) + [lines[n].raw];
    }
  }

  lemma OfKeySnoc(before: seq<Evidence>, e: Evidence, key: Key)
    ensures OfKey(before + [e], key) == if e.key == key then OfKey(before, key) + [e] else OfKey(before, key)
  {
    assert (before + [e])[..|before|] == before;
    assert OfKey(before, key) + [] == OfKey(before, key);
  }

  lemma EligibleSnoc(skip: bool, before: seq<Evidence>, e: Evidence)
    ensures Eligible(skip, before + [e]) == Eligible(skip, before) + Contribution(Discarding(skip, before), e)
    ensures Bytes(before + [e]) == Bytes(before) + e.data
  {
    assert (before + [e])[..|before|] == before;
  }

  /** All whole lines of `h + more`: those of `h`, then the new ones. */
  lemma NewLinesExtend(h: seq<Event>, more: seq<Event>)
    requires |more| <= 1
    ensures Wholes(Items(h + more, 0)) == Wholes(Items(h, 0)) + NewLines(h, more)
  {
    if more == [] {
      assert h + more == h;
      assert Wholes(Items(h, 0)) + [] == Wholes(Items(h, 0));
    } else {
      assert more == [more[0]];
      ItemsExtend(h, more[0], 0);
      WholesAppend(Items(h, 0), Items(h + more, OpenStart(Stream(h), 0)));
    }
  }

  lemma {:induction false} CompletionsOfKey(incomplete: set<Key>, evidence: seq<Evidence>, key: Key)
    ensures RawsOf(Completions(incomplete, evidence), key) ==
            Raws(Wholes(Items(Eligible(key in incomplete, OfKey(evidence, key)), 0)))
  {
    hide *;
    if evidence == [] {
      NothingCompleted(incomplete, key);
    } else {
      var before, e := evidence[..|evidence| - 1], evidence[|evidence| - 1];
      assert evidence == before + [e];
      CompletionsOfKey(incomplete, before, key);
      CompletionsSnoc(incomplete, before, e);
      OfKeySnoc(before, e, key);
      StepOfKey(incomplete, before, e, key);
    }
  }

  lemma NothingCompleted(incomplete: set<Key>, key: Key)
    ensures RawsOf(Completions(incomplete, []), key) == Raws(Wholes(Items(Eligible(key in incomplete, OfKey([], key)), 0)))
  {
  }

  lemma StepOfKey(incomplete: set<Key>, before: seq<Evidence>, e: Evidence, key: Key)
    requires RawsOf(Completions(incomplete, before), key) ==
             Raws(Wholes(Items(Eligible(key in incomplete, OfKey(before, key)), 0)))
    ensures RawsOf(Completions(incomplete, before) + CompletedBy(incomplete, before, e), key) ==
            Raws(Wholes(Items(Eligible(key in incomplete, if e.key == key then OfKey(before, key) + [e] else OfKey(before, key)), 0)))
  {
    var skip, mine := e.key in incomplete, OfKey(before, e.key);
    var h, more := Eligible(skip, mine), Contribution(Discarding(skip, mine), e);
    hide Completions, OfKey, Eligible, Items, Wholes, NewLines, RawsOf, Contribution, Discarding;
    RawsOfTagged(Completions(incomplete, before), e, NewLines(h, more), key);
    if e.key == key {
      EligibleSnoc(skip, mine, e);
      NewLinesExtend(h, more);
      assert Raws(Wholes(Items(h, 0)) + NewLines(h, more)) == Raws(Wholes(Items(h, 0))) + Raws(NewLines(h, more));
    } else {
      assert RawsOf(Completions(incomplete, before), key) + [] == RawsOf(Completions(incomplete, before), key);
    }
  }

  /** Per channel, the lines offered to the conditions are exactly the full stream's lines of at most
      65536 bytes that begin at or after the cursor. */
  lemma MatchesFromCursorOn(incomplete: set<Key>, evidence: seq<Evidence>, key: Key, pre: seq<byte>)
    requires key in incomplete <==> Rest(pre) != []
    ensures exists later ::
              && Lines(pre + Bytes(OfKey(evidence, key))) == Lines(pre) + Straddling(pre, Bytes(OfKey(evidence, key))) + later
              && RawsOf(Completions(incomplete, evidence), key) == Short(later)
  {
    var skip, mine := key in incomplete, OfKey(evidence, key);
    var h := Eligible(skip, mine);
    CursorLocal(pre, mine);
    CompletionsOfKey(incomplete, evidence, key);
    ItemsAreSplit(h, 0);
    WholesAreShort(Items(h, 0), Lines(Stream(h)));
    hide *;
    var later := Lines(Stream(h));
    assert RawsOf(Completions(incomplete, evidence), key) == Short(later);
  }

  // ----- The matcher -----

  /** Bytes of `e` that belong to the line the cursor fell into. */
  function DiscardedBytes(data: seq<byte>): nat {
    match FindNewline(data, 0) case Some(i) => i + 1 case None => |data|
  }

  /** Lines over the bound so far, finished or still open. */
  ghost function OverBound(h: seq<Event>): nat {
    |Oversizeds(Items(h, 0))| + if |Stream(h)| - OpenStart(Stream(h), 0) > MAX_UART_LINE_BYTES then 1 else 0
  }

  /** `e` shows that a line of its channel cannot be examined whole. */
  ghost predicate LimitsNow(incomplete: set<Key>, before: seq<Evidence>, e: Evidence) {
    var skip, mine := e.key in incomplete, OfKey(before, e.key);
    var h, more := Eligible(skip, mine), Contribution(Discarding(skip, mine), e);
    || (Discarding(skip, mine) && |Bytes(mine)| + DiscardedBytes(e.data) > MAX_UART_LINE_BYTES)
    || OverBound(h + more) > OverBound(h)
  }

  ghost predicate Limited(incomplete: set<Key>, evidence: seq<Evidence>) {
    evidence != [] &&
    var before := evidence[..|evidence| - 1];
    Limited(incomplete, before) || LimitsNow(incomplete, before, evidence[|evidence| - 1])
  }

  class Matcher {
    const patterns: seq<seq<byte>>
    ghost const incomplete: set<Key>
    var buffers: map<Key, UartLineBuffer>
    var discardFirstLine: set<Key>
    var discardedByteCounts: map<Key, nat>
    var lineProcessingLimited: bool

    /** All evidence taken so far, over all batches. */
    ghost var seen: seq<Evidence>

    function Count(k: Key): nat
      reads this`discardedByteCounts
    {
      if k in discardedByteCounts then discardedByteCounts[k] else 0
    }

    ghost predicate Separate()
      reads this`buffers
    {
      forall k, l :: k in buffers && l in buffers && buffers[k] == buffers[l] ==> k == l
    }

    ghost predicate Valid()
      reads this, buffers.Values
    {
      && Separate()
      && (forall k: Key :: Stands(k, k in incomplete, OfKey(seen, k)))
      && (lineProcessingLimited <==> Limited(incomplete, seen))
    }

    constructor (patterns: seq<seq<byte>>, incompleteChannels: set<Key>)
      ensures Valid() && this.patterns == patterns && incomplete == incompleteChannels && seen == [] && buffers == map[]
    {
      this.patterns, incomplete := patterns, incompleteChannels;
      buffers, discardFirstLine, discardedByteCounts := map[], incompleteChannels, map[];
      lineProcessingLimited, seen := false, [];
    }

    /** Drop what belongs to the line the cursor fell into; the rest, if any, is to be fed. */
    method Discard(e: Evidence, ghost skip: bool, ghost mine: seq<Evidence>) returns (rest: seq<Event>, limits: bool)
      requires e.key in discardFirstLine <==> Discarding(skip, mine)
      requires e.key in discardFirstLine ==> Count(e.key) == |Bytes(mine)|
      modifies this`discardFirstLine, this`discardedByteCounts
      ensures rest == Contribution(Discarding(skip, mine), e)
      ensures limits <==> Discarding(skip, mine) && |Bytes(mine)| + DiscardedBytes(e.data) > MAX_UART_LINE_BYTES
      ensures e.key in discardFirstLine <==> Discarding(skip, mine + [e])
      ensures e.key in discardFirstLine ==> Count(e.key) == |Bytes(mine + [e])|
      ensures forall k :: k != e.key ==> (k in discardFirstLine <==> k in old(discardFirstLine)) && Count(k) == old(Count(k))
    {
      DiscardingSnoc(skip, mine, e);
      FirstWithin(e.data);
      hide Bytes, FindNewline, Discarding;
      limits := false;
      if e.key !in discardFirstLine {
        rest := [Event(Some(e.sequence), Some(e.timestampUs), 0, e.data)];
        return;
      }
      var newlineOffset := FindNewline(e.data, 0);
      var discardedBytes := if newlineOffset.None? then |e.data| else newlineOffset.value + 1;
      var discardedTotal := Count(e.key) + discardedBytes;
      limits := discardedTotal > MAX_UART_LINE_BYTES;
      rest := if discardedBytes == |e.data| then []
              else [Event(Some(e.sequence), Some(e.timestampUs), discardedBytes, e.data[discardedBytes..])];
      assert rest == Contribution(true, e) && discardedBytes == DiscardedBytes(e.data);
      hide Contribution, DiscardedBytes;
      Remember(e.key, newlineOffset.Some?, discardedTotal);
    }

    method Remember(key: Key, ended: bool, discardedTotal: nat)
      modifies this`discardFirstLine, this`discardedByteCounts
      ensures discardFirstLine == if ended then old(discardFirstLine) - {key} else old(discardFirstLine)
      ensures !ended ==> Count(key) == discardedTotal
      ensures forall k :: k != key ==> Count(k) == old(Count(k))
    {
      if !ended {
        discardedByteCounts := discardedByteCounts[key := discardedTotal];
      } else {
        discardFirstLine := discardFirstLine - {key};
        discardedByteCounts := discardedByteCounts - {key};
      }
    }

    ghost function HistoryOf(k: Key): seq<Event>
      reads this`buffers, At(k)
    {
      if k in buffers then buffers[k].history else []
    }

    function At(k: Key): set<UartLineBuffer>
      reads this`buffers
    {
      if k in buffers then {buffers[k]} else {}
    }

    /** Feed the channel's buffer, created on first use. */
    method FeedChannel(key: Key, event: Event) returns (lines: seq<UartLine>, newlyOversized: nat)
      requires Separate() && (key in buffers ==> buffers[key].Valid())
      modifies this`buffers, At(key)
      ensures Separate() && key in buffers && buffers[key].Valid() && buffers[key].history == old(HistoryOf(key)) + [event]
      ensures if key in old(buffers) then buffers == old(buffers)
              else buffers == old(buffers)[key := buffers[key]] && fresh(buffers[key])
      ensures lines == NewLines(old(HistoryOf(key)), [event])
      ensures newlyOversized == OverBound(old(HistoryOf(key)) + [event]) - OverBound(old(HistoryOf(key)))
    {
      hide UartLineBuffer.Valid, OverBound, Items, OpenStart, Stream, Wholes, Oversizeds;
      if key !in buffers {
        var created := new UartLineBuffer();
        buffers := buffers[key := created];
        OverNothing();
      }
      var buffer := buffers[key];
      ghost var h := buffer.history;
      OverBoundCounts(buffer);
      var oversizedLines;
      lines, oversizedLines, newlyOversized := buffer.FeedResult(event);
      OverBoundCounts(buffer);
    }

    lemma HistoryMeans(k: Key)
      ensures HistoryOf(k) == if k in buffers then buffers[k].history else []
      ensures At(k) == if k in buffers then {buffers[k]} else {}
    {
    }

    /** Feed what is left after discarding, if anything. */
    method FeedRest(key: Key, rest: seq<Event>) returns (lines: seq<UartLine>, newlyOversized: nat)
      requires |rest| <= 1 && Separate() && (key in buffers ==> buffers[key].Valid())
      modifies this`buffers, At(key)
      ensures Separate() && (key in buffers ==> buffers[key].Valid()) && HistoryOf(key) == old(HistoryOf(key)) + rest
      ensures forall k :: k != key ==> (k in buffers <==> k in old(buffers)) && (k in buffers ==> buffers[k] == old(buffers[k]))
      ensures fresh(buffers.Values - old(buffers.Values))
      ensures lines == NewLines(old(HistoryOf(key)), rest)
      ensures newlyOversized == OverBound(old(HistoryOf(key)) + rest) - OverBound(old(HistoryOf(key)))
    {
      hide *;
      HistoryMeans(key);
      if |rest| == 0 {
        NothingFed(HistoryOf(key), rest);
        return [], 0;
      }
      assert rest == [rest[0]];
      lines, newlyOversized := FeedChannel(key, rest[0]);
      HistoryMeans(key);
    }

    /** What holds of channel `k` before the new evidence, in the fields that stand for it. */
    ghost predicate Stands(k: Key, skip: bool, mine: seq<Evidence>)
      reads this`buffers, this`discardFirstLine, this`discardedByteCounts, At(k)
    {
      && (k in discardFirstLine <==> Discarding(skip, mine))
      && (k in discardFirstLine ==> Count(k) == |Bytes(mine)|)
      && (k in buffers ==> buffers[k].Valid())
      && HistoryOf(k) == Eligible(skip, mine)
    }

    /** Every channel but `key` is as it was. */
    twostate predicate Elsewhere(key: Key)
      reads this`buffers, this`discardFirstLine, this`discardedByteCounts, buffers.Values
    {
      && (forall k :: k != key ==> (k in discardFirstLine <==> k in old(discardFirstLine)) && Count(k) == old(Count(k)))
      && (forall k :: k != key ==> (k in buffers <==> k in old(buffers)) && (k in buffers ==> buffers[k] == old(buffers[k]) && unchanged(buffers[k])))
    }

    lemma StandsMeans(k: Key, skip: bool, mine: seq<Evidence>)
      ensures Stands(k, skip, mine) <==>
                && (k in discardFirstLine <==> Discarding(skip, mine))
                && (k in discardFirstLine ==> Count(k) == |Bytes(mine)|)
                && (k in buffers ==> buffers[k].Valid())
                && HistoryOf(k) == Eligible(skip, mine)
      ensures At(k) == if k in buffers then {buffers[k]} else {}
      ensures Separate() ==> forall l :: l != k && l in buffers ==> buffers[l] !in At(k)
    {
      hide UartLineBuffer.Valid;
    }

    /** Discard, then feed what is left. */
    method TakeIn(e: Evidence, ghost skip: bool, ghost mine: seq<Evidence>) returns (lines: seq<UartLine>, limits: bool)
      requires Separate() && Stands(e.key, skip, mine)
      modifies this`discardFirstLine, this`discardedByteCounts, this`buffers, At(e.key)
      ensures Separate() && Stands(e.key, skip, mine + [e]) && fresh(buffers.Values - old(buffers.Values))
      ensures Elsewhere(e.key)
      ensures lines == NewLines(Eligible(skip, mine), Contribution(Discarding(skip, mine), e))
      ensures limits <==>
                || (Discarding(skip, mine) && |Bytes(mine)| + DiscardedBytes(e.data) > MAX_UART_LINE_BYTES)
                || OverBound(Eligible(skip, mine) + Contribution(Discarding(skip, mine), e)) > OverBound(Eligible(skip, mine))
    {
      hide *;
      EligibleSnoc(skip, mine, e);
      StandsMeans(e.key, skip, mine);
      var rest;
      rest, limits := Discard(e, skip, mine);
      var newlyOversized;
      lines, newlyOversized := FeedRest(e.key, rest);
      limits := limits || newlyOversized > 0;
      StandsMeans(e.key, skip, mine + [e]);
      IsElsewhere(e.key);
    }

    twostate lemma IsElsewhere(key: Key)
      requires forall k :: k != key ==> (k in discardFirstLine <==> k in old(discardFirstLine)) && Count(k) == old(Count(k))
      requires forall k :: k != key ==> (k in buffers <==> k in old(buffers)) && (k in buffers ==> buffers[k] == old(buffers[k]))
      requires forall k :: k != key && k in buffers ==> unchanged(buffers[k])
      ensures Elsewhere(key)
    {
    }

    lemma ValidGives(k: Key)
      requires Valid()
      ensures Separate() && Stands(k, k in incomplete, OfKey(seen, k)) && At(k) <= buffers.Values
      ensures lineProcessingLimited <==> Limited(incomplete, seen)
    {
      hide UartLineBuffer.Valid;
    }

    /** One piece of evidence. */
    method TakeEvidence(e: Evidence) returns (lines: seq<UartLine>)
      requires Valid()
      modifies this, buffers.Values
      ensures Valid() && fresh(buffers.Values - old(buffers.Values))
      ensures seen == old(seen) + [e]
      ensures Tagged(e, lines) == CompletedBy(incomplete, old(seen), e)
    {
      hide *;
      ghost var before, skip, mine := seen, e.key in incomplete, OfKey(seen, e.key);
      ValidGives(e.key);
      EvidenceSnoc(incomplete, before, e);
      var limits;
      lines, limits := TakeIn(e, skip, mine);
      StandsMeans(e.key, skip, mine + [e]);
      HistoryMeans(e.key);
      seen := seen + [e];
      lineProcessingLimited := lineProcessingLimited || limits;
      StandsMeans(e.key, skip, mine + [e]);
      HistoryMeans(e.key);
      StillValid(e);
    }

    /** The first match among the lines one piece of evidence completed. */
    method MatchLines(e: Evidence, lines: seq<UartLine>) returns (r: Option<Match>)
      ensures r == FirstMatch(patterns, Tagged(e, lines))
    {
      hide MatchLine;
      r := None;
      for k := 0 to |lines|
        invariant r.None? && FirstMatch(patterns, Tagged(e, lines)[..k]).None?
      {
        ghost var tagged := Tagged(e, lines);
        assert tagged[..k + 1][..k] == tagged[..k];
        r := MatchLine(patterns, Completed(e, lines[k]));
        if r.Some? {
          assert tagged == tagged[..k + 1] + tagged[k + 1..];
          FirstMatchAppend(patterns, tagged[..k + 1], tagged[k + 1..]);
          return;
        }
      }
      assert Tagged(e, lines)[..|lines|] == Tagged(e, lines);
    }

    /** One batch of evidence. However the evidence is batched, the result is the first match among all
        lines completed since the cursor. */
    method Process(evidence: seq<Evidence>) returns (r: Option<Match>)
      requires Valid() && FirstMatch(patterns, Completions(incomplete, seen)).None?
      modifies this, buffers.Values
      ensures Valid() && fresh(buffers.Values - old(buffers.Values))
      ensures r == FirstMatch(patterns, Completions(incomplete, old(seen) + evidence))
      ensures old(seen) <= seen <= old(seen) + evidence && (r.None? ==> seen == old(seen) + evidence)
    {
      hide *;
      r := None;
      ghost var start := seen;
      assert start + evidence[..0] == start;
      for n := 0 to |evidence|
        invariant Valid() && fresh(buffers.Values - old(buffers.Values))
        invariant r.None? && seen == start + evidence[..n] && FirstMatch(patterns, Completions(incomplete, seen)).None?
      {
        var e := evidence[n];
        ghost var before := seen;
        var lines := TakeEvidence(e);
        r := MatchLines(e, lines);
        CompletionsSnoc(incomplete, before, e);
        FirstMatchAppend(patterns, Completions(incomplete, before), CompletedBy(incomplete, before, e));
        assert start + evidence[..n + 1] == (start + evidence[..n]) + [e];
        if r.Some? {
          assert start + evidence == seen + evidence[n + 1..];
          FirstMatchStays(patterns, incomplete, seen, evidence[n + 1..]);
          return;
        }
      }
      assert evidence[..|evidence|] == evidence;
    }

    /** Untouched channels stand as they did, so all of them stand. */
    twostate lemma StillValid(e: Evidence)
      requires old(Valid()) && Separate() && seen == old(seen) + [e]
      requires Stands(e.key, e.key in incomplete, OfKey(seen, e.key))
      requires Elsewhere(e.key)
      requires lineProcessingLimited <==> Limited(incomplete, seen)
      ensures Valid()
    {
      hide UartLineBuffer.Valid, Eligible, Bytes, Discarding, OfKey;
      forall k: Key
        ensures Stands(k, k in incomplete, OfKey(seen, k))
      {
        OfKeySnoc(old(seen), e, k);
        assert old(Stands(k, k in incomplete, OfKey(seen, k)));
      }
    }
  }

  lemma NothingFed(h: seq<Event>, more: seq<Event>)
    requires |more| == 0
    ensures NewLines(h, more) == [] && h + more == h && OverBound(h + more) == OverBound(h)
  {
    assert h + more == h;
  }

  /** What the reference says of one more piece of evidence. */
  lemma EvidenceSnoc(incomplete: set<Key>, before: seq<Evidence>, e: Evidence)
    ensures var skip, mine := e.key in incomplete, OfKey(before, e.key);
            var h, more := Eligible(skip, mine), Contribution(Discarding(skip, mine), e);
            && OfKey(before + [e], e.key) == mine + [e]
            && CompletedBy(incomplete, before, e) == Tagged(e, NewLines(h, more))
            && (Limited(incomplete, before + [e]) <==>
                  || Limited(incomplete, before)
                  || (Discarding(skip, mine) && |Bytes(mine)| + DiscardedBytes(e.data) > MAX_UART_LINE_BYTES)
                  || OverBound(h + more) > OverBound(h))
  {
    OfKeySnoc(before, e, e.key);
    LimitedSnoc(incomplete, before, e);
  }

  lemma LimitedSnoc(incomplete: set<Key>, before: seq<Evidence>, e: Evidence)
    ensures Limited(incomplete, before + [e]) <==> Limited(incomplete, before) || LimitsNow(incomplete, before, e)
  {
    assert (before + [e])[..|before|] == before;
  }

  lemma DiscardingSnoc(skip: bool, before: seq<Evidence>, e: Evidence)
    ensures Discarding(skip, before + [e]) <==> Discarding(skip, before) && FindNewline(e.data, 0).None?
    ensures Bytes(before + [e]) == Bytes(before) + e.data && |Bytes(before + [e])| == |Bytes(before)| + |e.data|
  {
    EligibleSnoc(skip, before, e);
    FindAcross(Bytes(before), e.data);
  }

  lemma OverNothing()
    ensures OverBound([]) == 0
  {
  }

  lemma OverBoundCounts(buffer: UartLineBuffer)
    requires buffer.Valid()
    ensures OverBound(buffer.history) == buffer.newlyOversizedTotal
  {
  }

  /** A match found is the match for good. */
  lemma FirstMatchStays(patterns: seq<seq<byte>>, incomplete: set<Key>, a: seq<Evidence>, b: seq<Evidence>)
    requires FirstMatch(patterns, Completions(incomplete, a)).Some?
    ensures FirstMatch(patterns, Completions(incomplete, a + b)) == FirstMatch(patterns, Completions(incomplete, a))
  {
    hide *;
    CompletionsGrow(incomplete, a, b);
    var x, y := Completions(incomplete, a), Completions(incomplete, a + b);
    assert y == x + y[|x|..];
    FirstMatchAppend(patterns, x, y[|x|..]);
  }
}
