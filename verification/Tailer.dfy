// The access-log tailer (reqmetrics/tailer.go): a poller that reads from a carried
// offset and hands over complete lines. Reading the file piecemeal must agree with
// reading it whole.
module Tailer {
  newtype byte = x: int | 0 <= x < 256
  type Bytes = seq<byte>

  const NL: byte := 10

  // ---- Lines ----

  predicate IsLine(l: Bytes) {
    l != [] && l[|l| - 1] == NL && forall i :: 0 <= i < |l| - 1 ==> l[i] != NL
  }

  predicate AllLines(ls: seq<Bytes>) { forall i :: 0 <= i < |ls| ==> IsLine(ls[i]) }

  function Flatten(ls: seq<Bytes>): Bytes {
    if ls == [] then [] else ls[0] + Flatten(ls[1..])
  }

  // n is the length of the longest prefix that is empty or ends in a newline.
  predicate IsComplete(s: Bytes, n: nat) {
    n <= |s| && (n > 0 ==> s[n - 1] == NL) && forall i :: n <= i < |s| ==> s[i] != NL
  }

  function Complete(s: Bytes): (n: nat)
    ensures n <= |s|
  {
    if s == [] then 0 else if s[|s| - 1] == NL then |s| else Complete(s[..|s| - 1])
  }

  lemma {:induction false} CompleteIs(s: Bytes, n: nat)
    ensures IsComplete(s, n) <==> n == Complete(s)
  {
    if s != [] && s[|s| - 1] != NL {
      CompleteIs(s[..|s| - 1], n);
    }
  }

  // The position just after the first newline.
  function FirstLine(s: Bytes): (n: nat)
    requires NL in s
    ensures 0 < n <= |s| && IsLine(s[..n])
  {
    if s[0] == NL then 1
    else
      var n := 1 + FirstLine(s[1..]);
      assert forall i :: 1 <= i < n ==> s[..n][i] == s[1..][..n - 1][i - 1];
      n
  }

  // The complete lines of s, front to back.
  function Lines(s: Bytes): seq<Bytes>
    decreases |s|
  {
    if NL in s then [s[..FirstLine(s)]] + Lines(s[FirstLine(s)..]) else []
  }

  lemma LineEndUnique(s: Bytes, m: nat, n: nat)
    requires 0 < m <= |s| && 0 < n <= |s| && IsLine(s[..m]) && IsLine(s[..n])
    ensures m == n
  {
    assert forall k :: 0 <= k < m ==> s[..m][k] == s[k];
    assert forall k :: 0 <= k < n ==> s[..n][k] == s[k];
  }

  lemma CompleteStep(s: Bytes)
    requires NL in s
    ensures FirstLine(s) <= Complete(s) == FirstLine(s) + Complete(s[FirstLine(s)..])
  {
    var n := FirstLine(s);
    var rest := s[n..];
    CompleteIs(rest, Complete(rest));
    assert s[n - 1] == s[..n][n - 1];
    assert forall i :: n <= i < |s| ==> s[i] == rest[i - n];
    CompleteIs(s, n + Complete(rest));
  }

  // Prefixes that end on a line boundary stay so when more complete text follows.
  lemma CompleteAfter(s: Bytes, start: nat)
    requires start <= |s| && (start > 0 ==> s[start - 1] == NL)
    ensures Complete(s) == start + Complete(s[start..])
  {
    var rest := s[start..];
    CompleteIs(rest, Complete(rest));
    assert forall i :: start <= i < |s| ==> s[i] == rest[i - start];
    CompleteIs(s, start + Complete(rest));
  }

  lemma LinesCons(l: Bytes, ls: seq<Bytes>)
    ensures Flatten([l] + ls) == l + Flatten(ls)
    ensures IsLine(l) && AllLines(ls) ==> AllLines([l] + ls)
  {
    assert ([l] + ls)[1..] == ls;
  }

  lemma SliceJoin<T>(s: seq<T>, m: nat, n: nat)
    requires m + n <= |s|
    ensures s[..m] + s[m..][..n] == s[..m + n]
  {
  }

  lemma {:induction false} LinesTile(s: Bytes)
    ensures AllLines(Lines(s)) && Flatten(Lines(s)) == s[..Complete(s)]
    decreases |s|
  {
    if NL in s {
      var n := FirstLine(s);
      LinesTile(s[n..]);
      LinesCons(s[..n], Lines(s[n..]));
      CompleteStep(s);
      SliceJoin(s, n, Complete(s[n..]));
    } else {
      CompleteIs(s, 0);
    }
  }

  lemma {:induction false} FlattenAppend(a: seq<Bytes>, b: seq<Bytes>)
    ensures Flatten(a + b) == Flatten(a) + Flatten(b)
  {
    if a == [] {
      assert a + b == b;
    } else {
      FlattenAppend(a[1..], b);
      assert (a + b)[1..] == a[1..] + b;
    }
  }

  // A line ends with a line feed and holds no other.
  lemma LinesEnd(s: Bytes, i: nat, k: nat)
    requires i < |Lines(s)| && k < |Lines(s)[i]|
    ensures Lines(s)[i][k] as int == 10 <==> k == |Lines(s)[i]| - 1
  {
    LinesTile(s);
    assert IsLine(Lines(s)[i]);
  }

  // Bytes split into lines in one way only.
  lemma {:induction false} LinesUnique(a: seq<Bytes>, b: seq<Bytes>)
    requires AllLines(a) && AllLines(b) && Flatten(a) == Flatten(b)
    ensures a == b
  {
    if a != [] {
      FirstLineLength(a);
    }
    if b != [] {
      FirstLineLength(b);
    }
    if a != [] && b != [] {
      LineEndUnique(Flatten(a), |a[0]|, |b[0]|);
      ConcatRest(a);
      ConcatRest(b);
      LinesUnique(a[1..], b[1..]);
      assert a == [a[0]] + a[1..] && b == [b[0]] + b[1..];
    }
  }

  lemma ConcatRest(ls: seq<Bytes>)
    requires ls != []
    ensures |ls[0]| <= |Flatten(ls)| && Flatten(ls[1..]) == Flatten(ls)[|ls[0]|..]
  {
  }

  lemma FirstLineLength(ls: seq<Bytes>)
    requires ls != [] && AllLines(ls)
    ensures 0 < |ls[0]| <= |Flatten(ls)| && Flatten(ls)[..|ls[0]|] == ls[0]
  {
  }

  // ---- The tailer ----

  // Where a drain that sees a file of this size starts reading.
  function Start(offset: nat, size: nat): nat { if size < offset then 0 else offset }

  // What the reader delivers from a position of the bytes it can reach.
  function From(reach: Bytes, start: nat): Bytes { if start <= |reach| then reach[start..] else [] }

  // bufio.Reader.ReadBytes: up to and including the next newline, or all that is left.
  method ReadBytes(s: Bytes, pos: nat) returns (line: Bytes, eof: bool)
    requires pos <= |s|
    ensures pos + |line| <= |s| && line == s[pos..pos + |line|]
    ensures !eof ==> IsLine(line)
    ensures eof ==> pos + |line| == |s| && NL !in line
  {
    var i := pos;
    while i < |s| && s[i] != NL
      invariant pos <= i <= |s|
      invariant forall k :: pos <= k < i ==> s[k] != NL
    {
      i := i + 1;
    }
    eof := i == |s|;
    line := s[pos..if eof then i else i + 1];
  }

  // Tail's carried offset, and the lines given to the handler so far.
  class Tailer {
    var offset: nat
    var handled: seq<Bytes>

    constructor ()
      ensures offset == 0 && handled == []
    {
      offset, handled := 0, [];
    }

    // drain. `size` is what Stat reports; `reach` holds the file's bytes up to where
    // the reads end, by end of file or by an error.
    method Drain(opens: bool, stats: bool, size: nat, seeks: bool, reach: Bytes)
      modifies this
      ensures var s := State([], old(offset), old(handled));
        State([], offset, handled) == if opens && stats then Drained(s, size, reach, seeks) else s
    {
      if !opens || !stats {
        return;
      }
      if size < offset {
        offset := 0;
      }
      if size == offset || !seeks {
        return;
      }
      ReadLines(From(reach, offset));
    }

    // drain's read loop.
    method ReadLines(s: Bytes)
      modifies this
      ensures offset == old(offset) + Complete(s) && handled == old(handled) + Lines(s)
    {
      var pos, eof := 0, false;
      ghost var got: seq<Bytes> := [];
      while !eof
        invariant pos <= |s|
        invariant !eof ==> offset == old(offset) + pos && Tiles(got, s, pos)
        invariant eof ==> offset == old(offset) + Complete(s) && got == Lines(s)
        invariant handled == old(handled) + got
        decreases |s| - pos, !eof
      {
        var line;
        line, eof := ReadBytes(s, pos);
        if |line| > 0 && line[|line| - 1] == NL {
          handled := handled + [line];
          offset := offset + |line|;
          TilesMore(got, s, pos, line);
          got := got + [line];
        } else {
          TilesAll(got, s, pos, line);
        }
        pos := pos + |line|;
      }
    }
  }

  ghost predicate Tiles(got: seq<Bytes>, s: Bytes, pos: nat)
    requires pos <= |s|
  {
    AllLines(got) && Flatten(got) == s[..pos] && (pos > 0 ==> s[pos - 1] == NL)
  }

  lemma TilesMore(got: seq<Bytes>, s: Bytes, pos: nat, line: Bytes)
    requires pos + |line| <= |s| && Tiles(got, s, pos) && IsLine(line) && line == s[pos..pos + |line|]
    ensures Tiles(got + [line], s, pos + |line|)
  {
    FlattenAppend(got, [line]);
    LinesCons(line, []);
    assert [line] + [] == [line] && line + [] == line;
    assert s[..pos] + line == s[..pos + |line|];
    assert s[pos + |line| - 1] == line[|line| - 1];
  }

  lemma TilesAll(got: seq<Bytes>, s: Bytes, pos: nat, line: Bytes)
    requires pos + |line| == |s| && Tiles(got, s, pos) && line == s[pos..] && NL !in line
    ensures Complete(s) == pos && got == Lines(s)
  {
    assert forall i :: pos <= i < |s| ==> s[i] == line[i - pos];
    CompleteIs(s, pos);
    LinesTile(s);
    LinesUnique(got, Lines(s));
  }

  // ---- Histories ----

  datatype State = State(file: Bytes, offset: nat, handled: seq<Bytes>)

  // A drain may run while the writer appends `grown`; `stop` bytes of the file are
  // reached before the reads end.
  datatype Event =
    | Append(bytes: Bytes)
    | Replace(bytes: Bytes) // truncation or rotation
    | Drain(opens: bool, stats: bool, seeks: bool, grown: Bytes, stop: nat)

  function Drained(s: State, size: nat, reach: Bytes, seeks: bool): State {
    var start := Start(s.offset, size);
    if size == start || !seeks then s.(offset := start)
    else s.(offset := start + Complete(From(reach, start)), handled := s.handled + Lines(From(reach, start)))
  }

  function Reach(file: Bytes, stop: nat): Bytes { if stop <= |file| then file[..stop] else file }

  function Next(s: State, e: Event): State {
    match e
    case Append(b) => s.(file := s.file + b)
    case Replace(b) => s.(file := b)
    case Drain(opens, stats, seeks, grown, stop) =>
      var after := s.(file := s.file + grown);
      if !opens || !stats then after else Drained(after, |s.file|, Reach(after.file, stop), seeks)
  }

  function Run(events: seq<Event>): State {
    if events == [] then State([], 0, []) else Next(Run(events[..|events| - 1]), events[|events| - 1])
  }

  // The handled lines are the file up to the offset, and the offset is a line boundary.
  ghost predicate InStep(s: State) {
    && s.offset <= |s.file|
    && AllLines(s.handled) && Flatten(s.handled) == s.file[..s.offset]
    && (s.offset > 0 ==> s.file[s.offset - 1] == NL)
  }

  lemma DrainKeepsStep(s: State, size: nat, reach: Bytes, seeks: bool)
    requires InStep(s) && s.offset <= size <= |s.file| && reach <= s.file
    ensures InStep(Drained(s, size, reach, seeks))
  {
    if size != s.offset && seeks {
      var rest := From(reach, s.offset);
      assert rest <= s.file[s.offset..];
      ConsumeKeepsStep(s, rest);
    }
  }

  lemma ConsumeKeepsStep(s: State, rest: Bytes)
    requires InStep(s) && rest <= s.file[s.offset..]
    ensures InStep(s.(offset := s.offset + Complete(rest), handled := s.handled + Lines(rest)))
  {
    var n := Complete(rest);
    LinesTile(rest);
    LinesAppend(s.handled, Lines(rest));
    ConsumedPrefix(s.file, s.offset, rest);
  }

  lemma ConsumedPrefix(file: Bytes, offset: nat, rest: Bytes)
    requires offset <= |file| && rest <= file[offset..]
    ensures offset + Complete(rest) <= |file|
    ensures file[..offset] + rest[..Complete(rest)] == file[..offset + Complete(rest)]
    ensures Complete(rest) > 0 ==> file[offset + Complete(rest) - 1] == NL
  {
    var n := Complete(rest);
    CompleteIs(rest, n);
    assert rest[..n] == file[offset..][..n];
    SliceJoin(file, offset, n);
  }

  lemma LinesAppend(a: seq<Bytes>, b: seq<Bytes>)
    requires AllLines(a) && AllLines(b)
    ensures AllLines(a + b) && Flatten(a + b) == Flatten(a) + Flatten(b)
  {
    FlattenAppend(a, b);
  }

  lemma NextInStep(s: State, e: Event)
    requires InStep(s) && !e.Replace?
    ensures InStep(Next(s, e))
  {
    match e
    case Append(b) => assert (s.file + b)[..s.offset] == s.file[..s.offset];
    case Drain(opens, stats, seeks, grown, stop) =>
      var after := s.(file := s.file + grown);
      assert after.file[..s.offset] == s.file[..s.offset];
      DrainKeepsStep(after, |s.file|, Reach(after.file, stop), seeks);
  }

  ghost predicate AppendOnly(events: seq<Event>) { forall k :: 0 <= k < |events| ==> !events[k].Replace? }

  // Every line handed over exactly once, in order, whatever fails and however the
  // drains and appends interleave: the handled lines are those of reading the file
  // prefix whole.
  lemma TailIsExact(events: seq<Event>)
    requires AppendOnly(events)
    ensures var s := Run(events);
      && InStep(s)
      && s.handled == Lines(s.file[..s.offset]) && Complete(s.file[..s.offset]) == s.offset
      && s.offset <= Complete(s.file)
  {
    var s := Run(events);
    RunInStep(events);
    InStepExact(s);
    CompleteAfter(s.file, s.offset);
  }

  lemma {:induction false} RunInStep(events: seq<Event>)
    requires AppendOnly(events)
    ensures InStep(Run(events))
  {
    if events != [] {
      RunInStep(events[..|events| - 1]);
      NextInStep(Run(events[..|events| - 1]), events[|events| - 1]);
    }
  }

  lemma InStepExact(s: State)
    requires InStep(s)
    ensures s.handled == Lines(s.file[..s.offset]) && Complete(s.file[..s.offset]) == s.offset
  {
    var read := s.file[..s.offset];
    CompleteIs(read, s.offset);
    LinesTile(read);
    assert read[..s.offset] == read;
    LinesUnique(s.handled, Lines(read));
  }

  // A drain that reads to the end of file consumes the longest newline-terminated
  // prefix it saw; one that finds no new bytes has nothing to consume.
  lemma FullDrainCatchesUp(events: seq<Event>, grown: Bytes, stop: nat)
    requires AppendOnly(events) && stop >= |Run(events).file + grown|
    ensures var before, s := Run(events), Next(Run(events), Drain(true, true, true, grown, stop));
      && (|before.file| > before.offset ==> s.offset == Complete(s.file) && s.handled == Lines(s.file))
      && (|before.file| == before.offset ==> s.offset == Complete(before.file) && s.handled == Lines(before.file))
  {
    RunInStep(events);
    DrainCatchesUp(Run(events), grown, stop);
  }

  lemma DrainCatchesUp(before: State, grown: Bytes, stop: nat)
    requires InStep(before) && stop >= |before.file + grown|
    ensures var s := Next(before, Drain(true, true, true, grown, stop));
      && (|before.file| > before.offset ==> s.offset == Complete(s.file) && s.handled == Lines(s.file))
      && (|before.file| == before.offset ==> s.offset == Complete(before.file) && s.handled == Lines(before.file))
  {
    var drain := Drain(true, true, true, grown, stop);
    var s := Next(before, drain);
    NextInStep(before, drain);
    if |before.file| > before.offset {
      assert Reach(s.file, stop) == s.file;
      CompleteAfter(s.file, before.offset);
      UpToDate(s);
    } else {
      CompleteIs(before.file, before.offset);
      UpToDate(before);
    }
  }

  lemma UpToDate(s: State)
    requires InStep(s) && s.offset == Complete(s.file)
    ensures s.handled == Lines(s.file)
  {
    LinesTile(s.file);
    LinesUnique(s.handled, Lines(s.file));
  }

  // After the file is replaced, one full drain hands over exactly the new file's lines
  // if and only if the replacement is noticed (it is shorter than the offset), nothing
  // had been consumed, or there is no complete line to hand over.
  lemma ReplacementSeenIff(s: State, bytes: Bytes)
    requires bytes != []
    ensures var after := Next(Next(s, Replace(bytes)), Drain(true, true, true, [], |bytes|));
      after.handled == s.handled + Lines(bytes) <==> (|bytes| < s.offset || s.offset == 0 || Complete(bytes) == 0)
  {
    assert bytes + [] == bytes && bytes[..|bytes|] == bytes && bytes[0..] == bytes;
    var start := Start(s.offset, |bytes|);
    if start > 0 {
      var more := if |bytes| == start then [] else Lines(bytes[start..]);
      SkippingLoses(bytes, start);
      SamePrefix(s.handled, more, Lines(bytes));
      assert s.handled == s.handled + [];
    }
  }

  lemma SkippingLoses(bytes: Bytes, start: nat)
    requires 0 < start <= |bytes|
    ensures (if |bytes| == start then [] else Lines(bytes[start..])) == Lines(bytes) <==> Complete(bytes) == 0
  {
    var rest := bytes[start..];
    NoLines(rest);
    NoLines(bytes);
    FewerComplete(bytes, start);
    LinesTile(rest);
    LinesTile(bytes);
    if Complete(bytes) > 0 {
      assert |Flatten(Lines(bytes))| == Complete(bytes) && |Flatten(Lines(rest))| == Complete(rest);
    }
  }

  lemma FewerComplete(bytes: Bytes, start: nat)
    requires 0 < start <= |bytes|
    ensures Complete(bytes) > 0 ==> Complete(bytes[start..]) < Complete(bytes)
    ensures Complete(bytes) == 0 ==> Complete(bytes[start..]) == 0
  {
    var n := Complete(bytes);
    CompleteIs(bytes, n);
    if n > start {
      CompleteWithin(bytes, start, n);
    } else {
      assert forall i :: 0 <= i < |bytes| - start ==> bytes[start..][i] == bytes[start + i];
      CompleteIs(bytes[start..], 0);
    }
  }

  lemma CompleteWithin(bytes: Bytes, start: nat, n: nat)
    requires start < n && IsComplete(bytes, n)
    ensures Complete(bytes[start..]) == n - start
  {
    var rest := bytes[start..];
    assert rest[n - start - 1] == bytes[n - 1];
    assert forall i :: n - start <= i < |rest| ==> rest[i] == bytes[start + i];
    CompleteIs(rest, n - start);
  }

  lemma SamePrefix<T>(a: seq<T>, b: seq<T>, c: seq<T>)
    ensures a + b == a + c <==> b == c
  {
    assert (a + b)[|a|..] == b && (a + c)[|a|..] == c;
  }

  lemma NoLines(s: Bytes)
    ensures NL !in s <==> Complete(s) == 0
    ensures NL !in s ==> Lines(s) == []
  {
    CompleteIs(s, 0);
  }
}
