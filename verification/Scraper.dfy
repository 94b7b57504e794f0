// The exposition parser (reqmetrics/scraper.go): SumCounter over a line scanner with a
// bounded buffer. Numerals are read as exact integers.
module Scraper {
  import opened Text

  // Scanner.Buffer's limit: a line and its newline must fit.
  const MAX_TOKEN := 1_048_576

  predicate TooLong(line: string) { ByteLen(line) + 1 > MAX_TOKEN }

  // The scanner's next line, without its newline.
  function LineLength(text: string): (n: nat)
    ensures n <= |text|
    ensures n < |text| ==> text[n] == '\n'
    ensures forall i :: 0 <= i < n ==> text[i] != '\n'
  {
    if text == [] || text[0] == '\n' then 0 else 1 + LineLength(text[1..])
  }

  function After(text: string): (rest: string)
    requires text != []
    ensures |rest| < |text|
  {
    var n := LineLength(text);
    if n < |text| then text[n + 1..] else []
  }

  function DropCR(line: string): string { if line != [] && line[|line| - 1] == '\r' then line[..|line| - 1] else line }

  // ---- strings.Fields ----

  // The length of the trailing run without white space.
  function WordLength(s: string): (n: nat)
    ensures n <= |s|
    ensures s != [] && !IsSpace(s[|s| - 1]) ==> n > 0
  {
    if s == [] || IsSpace(s[|s| - 1]) then 0 else 1 + WordLength(s[..|s| - 1])
  }

  function Fields(s: string): seq<string>
    decreases |s|
  {
    if s == [] then []
    else if IsSpace(s[|s| - 1]) then Fields(s[..|s| - 1])
    else Fields(s[..|s| - WordLength(s)]) + [s[|s| - WordLength(s)..]]
  }

  predicate IsWord(s: string) { s != [] && forall i :: 0 <= i < |s| ==> !IsSpace(s[i]) }

  lemma {:induction false} WordLengthIs(head: string, word: string)
    requires forall i :: 0 <= i < |word| ==> !IsSpace(word[i])
    ensures WordLength(head + " " + word) == |word|
  {
    var s := head + " " + word;
    if word != [] {
      var n := |word| - 1;
      WordLengthIs(head, word[..n]);
      assert s[..|s| - 1] == head + " " + word[..n];
    }
  }

  lemma {:induction false} SomeField(s: string)
    requires s != [] && !IsSpace(s[0])
    ensures Fields(s) != []
    decreases |s|
  {
    if IsSpace(s[|s| - 1]) {
      SomeField(s[..|s| - 1]);
    }
  }

  lemma LastField(head: string, word: string)
    requires head != [] && !IsSpace(head[0]) && IsWord(word)
    ensures var fields := Fields(head + " " + word);
      |fields| >= 2 && fields[|fields| - 1] == word
  {
    var s := head + " " + word;
    WordLengthIs(head, word);
    assert s[|s| - |word|..] == word;
    assert s[..|s| - |word|] == head + " ";
    SomeField(head + " ");
  }

  // ---- Sums ----

  // What one line adds to the sum.
  function LineValue(text: string, metric: string): Option<int> { TrimmedValue(TrimSpace(DropCR(text)), metric) }

  function TrimmedValue(line: string, metric: string): Option<int> {
    if line == "" || HasPrefix(line, "#") || !HasPrefix(line, metric) then None
    else
      var rest := line[|metric|..];
      if rest != "" && rest[0] != ' ' && rest[0] != '{' then None
      else
        var fields := Fields(line);
        if |fields| < 2 then None else ParseInt(fields[|fields| - 1])
  }

  function ValueOf(v: Option<int>): int { if v.Some? then v.value else 0 }

  datatype Scan = Scan(total: int, tooLong: bool)

  // What a line is worth to a scrape of one metric.
  function Worth(metric: string): string -> int { line => ValueOf(LineValue(line, metric)) }

  // Line by line, until one does not fit the buffer.
  function SumText(text: string, worth: string -> int): Scan
    decreases |text|
  {
    if text == [] then Scan(0, false)
    else
      var line := text[..LineLength(text)];
      if TooLong(line) then Scan(0, true)
      else
        var rest := SumText(After(text), worth);
        Scan(worth(line) + rest.total, rest.tooLong)
  }

  // SumCounter.
  method SumCounter(text: string, metric: string) returns (total: int, tooLong: bool)
    ensures Scan(total, tooLong) == SumText(text, Worth(metric))
  {
    total, tooLong := ScanLines(text, Worth(metric));
  }

  // Its loop over the scanner's lines.
  method ScanLines(text: string, worth: string -> int) returns (total: int, tooLong: bool)
    ensures Scan(total, tooLong) == SumText(text, worth)
  {
    total := 0;
    var rest := text;
    while rest != []
      invariant SumSoFar(total, rest, text, worth)
      decreases |rest|
    {
      var line := rest[..LineLength(rest)];
      SumStep(total, rest, text, worth);
      if TooLong(line) {
        return total, true;
      }
      total := total + worth(line);
      rest := After(rest);
    }
    tooLong := false;
  }

  // The total so far and what the rest of the text adds make up the whole sum.
  ghost predicate SumSoFar(total: int, rest: string, text: string, worth: string -> int) {
    SumText(text, worth) == Scan(total + SumText(rest, worth).total, SumText(rest, worth).tooLong)
  }

  lemma SumStep(total: int, rest: string, text: string, worth: string -> int)
    requires rest != [] && SumSoFar(total, rest, text, worth)
    ensures var line := rest[..LineLength(rest)];
      if TooLong(line) then SumText(text, worth) == Scan(total, true)
      else SumSoFar(total + worth(line), After(rest), text, worth)
  {
  }

  lemma SumTextLine(line: string, rest: string, worth: string -> int)
    requires '\n' !in line
    ensures var sum := SumText(rest, worth);
      SumText(line + "\n" + rest, worth) ==
      if TooLong(line) then Scan(0, true) else Scan(worth(line) + sum.total, sum.tooLong)
  {
    var text := line + "\n" + rest;
    var n := LineLength(text);
    assert text[|line|] == '\n';
    assert forall k :: 0 <= k < |line| ==> text[k] == line[k];
    assert n == |line|;
    assert text[..n] == line && text[n + 1..] == rest;
  }

  lemma {:induction false} TrimRightKeepsFirst(s: string)
    requires s != [] && !IsSpace(s[0])
    ensures TrimRight(s) != [] && TrimRight(s)[0] == s[0]
  {
    if IsSpace(s[|s| - 1]) {
      TrimRightKeepsFirst(s[..|s| - 1]);
    }
  }

  // Comment lines add nothing.
  lemma {:induction false} CommentValue(line: string, metric: string)
    requires line != [] && line[0] == '#'
    ensures LineValue(line, metric) == None
  {
    if line != "#\r" {
      TrimRightKeepsFirst(DropCR(line));
    }
    var trimmed := TrimSpace(DropCR(line));
    assert trimmed != [] && trimmed[0] == '#';
    assert trimmed[..1] == "#";
  }

  predicate IsMetricName(s: string) {
    s != [] && s[0] != '#' && forall i :: 0 <= i < |s| ==> !IsSpace(s[i]) && s[i] != '{'
  }

  // A sample line: a metric name, then a label block or nothing, then one word.
  lemma {:induction false} SampleValue(name: string, block: string, value: string, metric: string)
    requires IsMetricName(name) && IsMetricName(metric) && (block == "" || block[0] == '{') && IsWord(value)
    ensures LineValue(name + block + " " + value, metric) == if name == metric then ParseInt(value) else None
  {
    var line := name + block + " " + value;
    SampleTrimmed(name, block, value);
    LastField(name + block, value);
    assert line[|name|] == if block == "" then ' ' else '{';
    TrimmedSample(name, line, value, metric);
  }

  lemma {:induction false} TrimmedSample(name: string, line: string, value: string, metric: string)
    requires name <= line && |name| < |line| && (line[|name|] == ' ' || line[|name|] == '{')
    requires IsMetricName(name) && IsMetricName(metric)
    requires line != "" && !HasPrefix(line, "#")
    requires |Fields(line)| >= 2 && Fields(line)[|Fields(line)| - 1] == value
    ensures TrimmedValue(line, metric) == if name == metric then ParseInt(value) else None
  {
    if name != metric {
      OtherMetric(name, line, metric);
    }
  }

  lemma SampleTrimmed(name: string, block: string, value: string)
    requires IsMetricName(name) && IsWord(value)
    ensures var line := name + block + " " + value;
      TrimSpace(DropCR(line)) == line && line != "" && !HasPrefix(line, "#") && name <= line
  {
    var line := name + block + " " + value;
    assert line[0] == name[0] && line[|line| - 1] == value[|value| - 1];
    assert !IsSpace(line[0]) && !IsSpace(line[|line| - 1]);
    TrimSpaceKeeps(line);
    assert line[..|name|] == name;
  }

  lemma OtherMetric(name: string, line: string, metric: string)
    requires name <= line && |name| < |line| && (line[|name|] == ' ' || line[|name|] == '{')
    requires IsMetricName(name) && IsMetricName(metric) && name != metric
    ensures HasPrefix(line, metric) ==> |metric| < |line| && line[|metric|] != ' ' && line[|metric|] != '{'
  {
    if HasPrefix(line, metric) {
      assert forall k :: 0 <= k < |metric| ==> metric[k] == line[k];
      assert forall k :: 0 <= k < |name| ==> name[k] == line[k];
      assert metric == line[..|metric|] && name == line[..|name|];
    }
  }

  // The same, for a scrape.
  lemma WorthIs(line: string, metric: string, v: Option<int>)
    requires LineValue(line, metric) == v
    ensures Worth(metric)(line) == ValueOf(v)
  {
  }

  lemma {:induction false} CommentWorth(line: string, metric: string)
    requires line != [] && line[0] == '#'
    ensures Worth(metric)(line) == 0
  {
    CommentValue(line, metric);
    WorthIs(line, metric, None);
  }

  function Spaced(name: string, block: string, value: string): string { name + block + " " + value }

  lemma {:induction false} OwnWorth(line: string, name: string, block: string, value: string)
    requires IsMetricName(name) && (block == "" || block[0] == '{') && IsWord(value) && line == Spaced(name, block, value)
    ensures Worth(name)(line) == ValueOf(ParseInt(value))
  {
    SampleValue(name, block, value, name);
    WorthIs(line, name, ParseInt(value));
  }

  lemma {:induction false} OtherWorth(name: string, block: string, value: string, metric: string)
    requires IsMetricName(name) && IsMetricName(metric) && (block == "" || block[0] == '{') && IsWord(value) && name != metric
    ensures Worth(metric)(Spaced(name, block, value)) == 0
  {
    SampleValue(name, block, value, metric);
    WorthIs(Spaced(name, block, value), metric, None);
  }
}
