// The exposition printer (promexport/promexport.go) and the counter parser
// (reqmetrics/scraper.go), which must agree on every snapshot and any label text.
module PromExport {
  import opened Text
  import opened Scraper

  // ---- Snapshot ----

  // strconv.FormatFloat's output, kept as text.
  predicate IsFloatText(s: string) { s != [] && forall i :: 0 <= i < |s| ==> s[i] in "0123456789+-.eInfNa" }
  type FloatText = s: string | IsFloatText(s) witness "0"

  datatype Host = Host(cpuPercent: FloatText, memUsed: nat, memTotal: nat, diskUsed: nat, diskTotal: nat, requestRate: FloatText)
  datatype AppStat = AppStat(app: string, service: string, cpuPercent: FloatText, memBytes: int)
  datatype Volume = Volume(app: string, service: string, volume: string, bytes: int)
  datatype DeployCount = DeployCount(app: string, status: string, triggeredBy: string, count: int)
  datatype DeployDuration = DeployDuration(app: string, seconds: FloatText)
  datatype RequestTotal = RequestTotal(app: string, service: string, requests: int, errors: int)
  datatype Snapshot = Snapshot(host: Host, apps: seq<AppStat>, volumes: seq<Volume>, deploys: seq<DeployCount>,
                               durations: seq<DeployDuration>, requests: seq<RequestTotal>, version: string, commit: string)

  // ---- Printing ----

  datatype Label = Label(name: string, value: string)
  datatype Sample = Sample(labels: seq<Label>, value: string)
  datatype Family = Family(metric: Metric, name: string, help: string, typ: string, samples: seq<Sample>)

  datatype Metric =
    | HostCPU | HostMemUsed | HostMemTotal | HostDiskUsed | HostDiskTotal | HostRequestRate
    | AppCPU | AppMem | AppVolume
    | Deploys | DeploySeconds | Requests | Errors | Build

  function Name(m: Metric): string {
    match m
    case HostCPU => "vac_host_cpu_percent"
    case HostMemUsed => "vac_host_mem_used_bytes"
    case HostMemTotal => "vac_host_mem_total_bytes"
    case HostDiskUsed => "vac_host_disk_used_bytes"
    case HostDiskTotal => "vac_host_disk_total_bytes"
    case HostRequestRate => "vac_host_request_rate"
    case AppCPU => "vac_app_cpu_percent"
    case AppMem => "vac_app_mem_bytes"
    case AppVolume => "vac_app_volume_bytes"
    case Deploys => "vac_deploys_total"
    case DeploySeconds => "vac_deploy_duration_seconds"
    case Requests => "vac_requests_total"
    case Errors => "vac_request_errors_total"
    case Build => "vac_build_info"
  }

  // The HELP sentences stay a parameter: nothing depends on their wording.
  type HelpTexts = Metric -> string

  predicate IsCounter(m: Metric) { m == Deploys || m == Requests || m == Errors }

  function Kind(m: Metric): string { if IsCounter(m) then "counter" else "gauge" }

  function EscapeChar(c: char, quotes: bool): (r: string)
    ensures r != [] && '\n' !in r
  {
    if c == '\\' then "\\\\" else if c == '\n' then "\\n" else if c == '"' && quotes then "\\\"" else [c]
  }

  function Escape(s: string, quotes: bool): (r: string)
    ensures '\n' !in r
  {
    if s == [] then [] else EscapeChar(s[0], quotes) + Escape(s[1..], quotes)
  }

  // escapeLabel and escapeHelp: the early return for text with nothing to escape is the
  // replacement itself.
  method EscapeText(s: string, quotes: bool) returns (r: string)
    ensures r == Escape(s, quotes)
  {
    if !('\\' in s || '\n' in s || (quotes && '"' in s)) {
      NothingToEscape(s, quotes);
      return s;
    }
    r := [];
    var i := 0;
    assert s[0..] == s;
    while i < |s|
      invariant i <= |s| && r + Escape(s[i..], quotes) == Escape(s, quotes)
    {
      assert s[i..][1..] == s[i + 1..];
      r := r + EscapeChar(s[i], quotes);
      i := i + 1;
    }
  }

  lemma {:induction false} NothingToEscape(s: string, quotes: bool)
    requires '\\' !in s && '\n' !in s && (quotes ==> '"' !in s)
    ensures Escape(s, quotes) == s
  {
    if s != [] {
      NothingToEscape(s[1..], quotes);
      assert s == [s[0]] + s[1..];
    }
  }

  function LabelText(l: Label): string { l.name + "=\"" + Escape(l.value, true) + "\"" }

  // Labels after the opening brace, separated by commas.
  function LabelsText(ls: seq<Label>): string {
    if ls == [] then "" else if |ls| == 1 then LabelText(ls[0]) else LabelText(ls[0]) + "," + LabelsText(ls[1..])
  }

  function Braced(ls: seq<Label>): string { if ls == [] then "" else "{" + LabelsText(ls) + "}" }

  function SampleLine(name: string, x: Sample): string { Spaced(name, Braced(x.labels), x.value) }

  function SampleLines(name: string, xs: seq<Sample>): seq<string> {
    if xs == [] then [] else SampleLines(name, xs[..|xs| - 1]) + [SampleLine(name, xs[|xs| - 1])]
  }

  function HelpLine(f: Family): string { "# HELP " + f.name + " " + Escape(f.help, false) }

  function TypeLine(f: Family): string { "# TYPE " + f.name + " " + f.typ }

  function FamilyLines(f: Family): seq<string> { [HelpLine(f), TypeLine(f)] + SampleLines(f.name, f.samples) }

  function AllLines(fs: seq<Family>): seq<string> {
    if fs == [] then [] else AllLines(fs[..|fs| - 1]) + FamilyLines(fs[|fs| - 1])
  }

  // Each line followed by a newline.
  function Joined(lines: seq<string>): string {
    if lines == [] then "" else Joined(lines[..|lines| - 1]) + (lines[|lines| - 1] + "\n")
  }

  lemma TextLast(lines: seq<string>, line: string)
    ensures Joined(lines + [line]) == Joined(lines) + (line + "\n")
  {
    assert (lines + [line])[..|lines|] == lines;
  }

  lemma Associate(a: string, b: string, c: string)
    ensures a + b + c == a + (b + c)
  {
  }

  lemma {:induction false} TextConcat(a: seq<string>, b: seq<string>)
    ensures Joined(a + b) == Joined(a) + Joined(b)
  {
    if b == [] {
      assert a + b == a;
    } else {
      var front, last := b[..|b| - 1], b[|b| - 1];
      TextConcat(a, front);
      assert a + b == (a + front) + [last];
      TextLast(a + front, last);
      Associate(Joined(a), Joined(front), last + "\n");
    }
  }

  // ---- What Write prints ----

  function Plain(value: string): seq<Sample> { [Sample([], value)] }

  function AppLabels(app: string, service: string): seq<Label> { [Label("app", app), Label("service", service)] }

  function CPUSamples(apps: seq<AppStat>): (r: seq<Sample>)
    ensures |r| == |apps|
  {
    seq(|apps|, i requires 0 <= i < |apps| => Sample(AppLabels(apps[i].app, apps[i].service), apps[i].cpuPercent))
  }

  function MemSamples(apps: seq<AppStat>): (r: seq<Sample>)
    ensures |r| == |apps|
  {
    seq(|apps|, i requires 0 <= i < |apps| => Sample(AppLabels(apps[i].app, apps[i].service), Itoa(apps[i].memBytes)))
  }

  function VolumeSamples(vs: seq<Volume>): (r: seq<Sample>)
    ensures |r| == |vs|
  {
    seq(|vs|, i requires 0 <= i < |vs| =>
      Sample(AppLabels(vs[i].app, vs[i].service) + [Label("volume", vs[i].volume)], Itoa(vs[i].bytes)))
  }

  function DeploySamples(ds: seq<DeployCount>): (r: seq<Sample>)
    ensures |r| == |ds|
    ensures forall i :: 0 <= i < |ds| ==> r[i].value == Itoa(ds[i].count)
  {
    seq(|ds|, i requires 0 <= i < |ds| =>
      Sample([Label("app", ds[i].app), Label("status", ds[i].status), Label("triggered_by", ds[i].triggeredBy)], Itoa(ds[i].count)))
  }

  function DurationSamples(ds: seq<DeployDuration>): (r: seq<Sample>)
    ensures |r| == |ds|
  {
    seq(|ds|, i requires 0 <= i < |ds| => Sample([Label("app", ds[i].app)], ds[i].seconds))
  }

  function RequestSamples(rs: seq<RequestTotal>): (r: seq<Sample>)
    ensures |r| == |rs|
    ensures forall i :: 0 <= i < |rs| ==> r[i].value == Itoa(rs[i].requests)
  {
    seq(|rs|, i requires 0 <= i < |rs| => Sample(AppLabels(rs[i].app, rs[i].service), Itoa(rs[i].requests)))
  }

  function ErrorSamples(rs: seq<RequestTotal>): (r: seq<Sample>)
    ensures |r| == |rs|
    ensures forall i :: 0 <= i < |rs| ==> r[i].value == Itoa(rs[i].errors)
  {
    seq(|rs|, i requires 0 <= i < |rs| => Sample(AppLabels(rs[i].app, rs[i].service), Itoa(rs[i].errors)))
  }

  function BuildSamples(s: Snapshot): seq<Sample> { [Sample([Label("version", s.version), Label("commit", s.commit)], "1")] }

  function Samples(s: Snapshot, m: Metric): seq<Sample> {
    match m
    case HostCPU => Plain(s.host.cpuPercent)
    case HostMemUsed => Plain(Itoa(s.host.memUsed))
    case HostMemTotal => Plain(Itoa(s.host.memTotal))
    case HostDiskUsed => Plain(Itoa(s.host.diskUsed))
    case HostDiskTotal => Plain(Itoa(s.host.diskTotal))
    case HostRequestRate => Plain(s.host.requestRate)
    case AppCPU => CPUSamples(s.apps)
    case AppMem => MemSamples(s.apps)
    case AppVolume => VolumeSamples(s.volumes)
    case Deploys => DeploySamples(s.deploys)
    case DeploySeconds => DurationSamples(s.durations)
    case Requests => RequestSamples(s.requests)
    case Errors => ErrorSamples(s.requests)
    case Build => BuildSamples(s)
  }

  // The families in the order Write prints them.
  const ORDER := [HostCPU, HostMemUsed, HostMemTotal, HostDiskUsed, HostDiskTotal, HostRequestRate, AppCPU, AppMem, AppVolume,
                  Deploys, DeploySeconds, Requests, Errors, Build]

  function FamilyOf(s: Snapshot, help: HelpTexts, m: Metric): (f: Family)
    ensures f.metric == m && f.samples == Samples(s, m)
  {
    Family(m, Name(m), help(m), Kind(m), Samples(s, m))
  }

  function FamiliesOf(s: Snapshot, help: HelpTexts, ms: seq<Metric>): seq<Family> {
    if ms == [] then [] else FamiliesOf(s, help, ms[..|ms| - 1]) + [FamilyOf(s, help, ms[|ms| - 1])]
  }

  function Families(s: Snapshot, help: HelpTexts): seq<Family> { FamiliesOf(s, help, ORDER) }

  function MetaText(f: Family): string { HelpLine(f) + "\n" + TypeLine(f) + "\n" }

  function SampleText(name: string, x: Sample): string { SampleLine(name, x) + "\n" }

  // meta.
  method Meta(b: string, f: Family) returns (out: string)
    ensures out == b + MetaText(f)
    ensures out == b + ("# HELP " + f.name + " " + Escape(f.help, false) + "\n" + ("# TYPE " + f.name + " " + f.typ) + "\n")
  {
    var help := EscapeText(f.help, false);
    out := b + ("# HELP " + f.name + " " + help);
    out := out + "\n";
    out := out + ("# TYPE " + f.name + " " + f.typ);
    out := out + "\n";
  }

  // sample.
  method WriteSample(b: string, name: string, x: Sample) returns (out: string)
    ensures out == b + SampleText(name, x)
  {
    var block := "";
    if |x.labels| > 0 {
      block := WriteLabels(x.labels);
    }
    out := b + (name + block + " " + x.value + "\n");
  }

  method WriteLabels(ls: seq<Label>) returns (block: string)
    requires ls != []
    ensures block == Braced(ls)
  {
    block := "{";
    var i := 0;
    assert ls[0..] == ls;
    while i < |ls|
      invariant i <= |ls| && LabelsSoFar(block, ls, i)
    {
      var l := ls[i];
      LabelStep(block, ls, i);
      if i > 0 {
        block := block + ",";
      }
      var value := EscapeText(l.value, true);
      block := block + (l.name + "=\"" + value + "\"");
      i := i + 1;
    }
    block := block + "}";
  }

  // The block printed so far, and the labels still to print.
  ghost predicate LabelsSoFar(block: string, ls: seq<Label>, i: nat)
    requires i <= |ls|
  {
    if i == |ls| then block == "{" + LabelsText(ls)
    else block + (if i > 0 then "," else "") + LabelsText(ls[i..]) == "{" + LabelsText(ls)
  }

  lemma LabelStep(block: string, ls: seq<Label>, i: nat)
    requires ls != [] && i < |ls| && LabelsSoFar(block, ls, i)
    ensures LabelsSoFar(block + (if i > 0 then "," else "") + LabelText(ls[i]), ls, i + 1)
    ensures i == 0 ==> block + "" == block
  {
    assert ls[i..][1..] == ls[i + 1..];
  }

  // Write.
  method Write(s: Snapshot, help: HelpTexts) returns (out: string)
    ensures out == Page(s, help)
  {
    out := WriteFamilies(Families(s, help));
  }

  method WriteFamilies(fs: seq<Family>) returns (out: string)
    ensures out == Joined(AllLines(fs))
  {
    out := "";
    for n := 0 to |fs|
      invariant out == Joined(AllLines(fs[..n]))
    {
      out := WriteFamily(out, fs[n]);
      AllLinesStep(fs, n);
    }
    assert fs[..|fs|] == fs;
  }

  lemma AllLinesStep(fs: seq<Family>, n: nat)
    requires n < |fs|
    ensures Joined(AllLines(fs[..n + 1])) == Joined(AllLines(fs[..n])) + Joined(FamilyLines(fs[n]))
  {
    assert fs[..n + 1][..n] == fs[..n];
    TextConcat(AllLines(fs[..n]), FamilyLines(fs[n]));
  }

  method WriteFamily(b: string, f: Family) returns (out: string)
    ensures out == b + Joined(FamilyLines(f))
  {
    out := Meta(b, f);
    ghost var head := out;
    for n := 0 to |f.samples|
      invariant out == head + Joined(SampleLines(f.name, f.samples[..n]))
    {
      out := WriteSample(out, f.name, f.samples[n]);
      SampleStep(f.name, f.samples, n);
      Associate(head, Joined(SampleLines(f.name, f.samples[..n])), SampleText(f.name, f.samples[n]));
    }
    assert f.samples[..|f.samples|] == f.samples;
    FamilyText(f);
    Associate(b, MetaText(f), Joined(SampleLines(f.name, f.samples)));
  }

  lemma SampleStep(name: string, xs: seq<Sample>, n: nat)
    requires n < |xs|
    ensures Joined(SampleLines(name, xs[..n + 1])) == Joined(SampleLines(name, xs[..n])) + SampleText(name, xs[n])
  {
    assert xs[..n + 1][..n] == xs[..n];
    TextLast(SampleLines(name, xs[..n]), SampleLine(name, xs[n]));
  }

  lemma FamilyText(f: Family)
    ensures Joined(FamilyLines(f)) == MetaText(f) + Joined(SampleLines(f.name, f.samples))
  {
    TextConcat([HelpLine(f), TypeLine(f)], SampleLines(f.name, f.samples));
    JoinedTwo(HelpLine(f), TypeLine(f));
  }

  lemma JoinedTwo(a: string, b: string)
    ensures Joined([a, b]) == a + "\n" + b + "\n"
  {
    TextLast([], a);
    TextLast([a], b);
    assert [a, b] == [a] + [b] && [a] == [] + [a];
    assert Joined([]) + a == a;
  }

  // ---- Reading the page back ----

  lemma {:induction false} JoinedFirst(lines: seq<string>)
    requires lines != []
    ensures Joined(lines) == lines[0] + "\n" + Joined(lines[1..])
  {
    TextConcat([lines[0]], lines[1..]);
    assert lines == [lines[0]] + lines[1..];
    TextLast([], lines[0]);
    assert [] + [lines[0]] == [lines[0]] && Joined([]) + lines[0] == lines[0];
  }

  // The scanner's view of printed lines: it adds up their worth until one is too long.
  function SumLines(lines: seq<string>, worth: string -> int): Scan {
    if lines == [] then Scan(0, false)
    else if TooLong(lines[0]) then Scan(0, true)
    else
      var rest := SumLines(lines[1..], worth);
      Scan(worth(lines[0]) + rest.total, rest.tooLong)
  }

  predicate OneLineEach(lines: seq<string>) { forall i :: 0 <= i < |lines| ==> '\n' !in lines[i] }

  lemma {:induction false} SumJoined(lines: seq<string>, worth: string -> int)
    requires OneLineEach(lines)
    ensures SumText(Joined(lines), worth) == SumLines(lines, worth)
  {
    if lines != [] {
      assert OneLineEach(lines[1..]) by { assert forall i :: 0 <= i < |lines[1..]| ==> lines[1..][i] == lines[i + 1]; }
      SumJoined(lines[1..], worth);
      JoinedFirst(lines);
      SumTextLine(lines[0], Joined(lines[1..]), worth);
    }
  }

  // A sum over lines, of what each is worth.
  function Sum(lines: seq<string>, worth: string -> int): int {
    if lines == [] then 0 else Sum(lines[..|lines| - 1], worth) + worth(lines[|lines| - 1])
  }

  lemma {:induction false} SumConcat(a: seq<string>, b: seq<string>, worth: string -> int)
    ensures Sum(a + b, worth) == Sum(a, worth) + Sum(b, worth)
  {
    if b == [] {
      assert a + b == a;
    } else {
      SumConcat(a, b[..|b| - 1], worth);
      assert (a + b)[..|a + b| - 1] == a + b[..|b| - 1];
    }
  }

  lemma SumLast(lines: seq<string>, line: string, worth: string -> int)
    ensures Sum(lines + [line], worth) == Sum(lines, worth) + worth(line)
  {
    assert (lines + [line])[..|lines|] == lines;
  }

  lemma SumFirst(lines: seq<string>, worth: string -> int)
    requires lines != []
    ensures Sum(lines, worth) == worth(lines[0]) + Sum(lines[1..], worth)
  {
    assert lines == [lines[0]] + lines[1..];
    SumConcat([lines[0]], lines[1..], worth);
    SumLast([], lines[0], worth);
    assert [] + [lines[0]] == [lines[0]];
  }

  predicate AllFit(lines: seq<string>) { forall i :: 0 <= i < |lines| ==> !TooLong(lines[i]) }

  lemma FitFirst(lines: seq<string>)
    requires lines != []
    ensures AllFit(lines) <==> !TooLong(lines[0]) && AllFit(lines[1..])
  {
    assert forall i :: 0 <= i < |lines| - 1 ==> lines[1..][i] == lines[i + 1];
  }

  lemma {:induction false} SumOfFitting(lines: seq<string>, worth: string -> int)
    ensures SumLines(lines, worth).tooLong <==> !AllFit(lines)
    ensures AllFit(lines) ==> SumLines(lines, worth).total == Sum(lines, worth)
  {
    if lines != [] {
      SumOfFitting(lines[1..], worth);
      FitFirst(lines);
      SumFirst(lines, worth);
    }
  }

  // ---- Families ----

  predicate GoodSample(x: Sample) {
    IsWord(x.value) && forall i :: 0 <= i < |x.labels| ==> '\n' !in x.labels[i].name
  }

  predicate GoodSamples(xs: seq<Sample>) { forall i :: 0 <= i < |xs| ==> GoodSample(xs[i]) }

  lemma {:induction false} LabelsOneLine(ls: seq<Label>)
    requires forall i :: 0 <= i < |ls| ==> '\n' !in ls[i].name
    ensures '\n' !in LabelsText(ls)
  {
    if |ls| > 1 {
      LabelsOneLine(ls[1..]);
    }
  }

  lemma SampleOneLine(name: string, x: Sample)
    requires IsMetricName(name) && GoodSample(x)
    ensures '\n' !in SampleLine(name, x)
  {
    LabelsOneLine(x.labels);
    assert forall i :: 0 <= i < |name| ==> !IsSpace(name[i]);
    assert forall i :: 0 <= i < |x.value| ==> !IsSpace(x.value[i]);
    assert '\n' !in name && '\n' !in x.value && '\n' !in Braced(x.labels);
  }

  function Total(xs: seq<Sample>): int {
    if xs == [] then 0 else Total(xs[..|xs| - 1]) + ValueOf(ParseInt(xs[|xs| - 1].value))
  }

  lemma {:induction false} SamplesOneLine(name: string, xs: seq<Sample>)
    requires IsMetricName(name) && GoodSamples(xs)
    ensures OneLineEach(SampleLines(name, xs))
  {
    if xs != [] {
      SamplesOneLine(name, xs[..|xs| - 1]);
      SampleOneLine(name, xs[|xs| - 1]);
    }
  }

  predicate GoodFamily(f: Family) { IsMetricName(f.name) && '\n' !in f.typ && GoodSamples(f.samples) }

  lemma MetaOneLine(f: Family)
    requires GoodFamily(f)
    ensures '\n' !in HelpLine(f) && '\n' !in TypeLine(f) && HelpLine(f)[0] == '#' && TypeLine(f)[0] == '#'
  {
    assert '\n' !in f.name by { assert forall i :: 0 <= i < |f.name| ==> !IsSpace(f.name[i]); }
    assert HelpLine(f) == "# HELP " + (f.name + " " + Escape(f.help, false));
    assert TypeLine(f) == "# TYPE " + (f.name + " " + f.typ);
  }

  lemma FamilyOneLine(f: Family)
    requires GoodFamily(f)
    ensures OneLineEach(FamilyLines(f))
  {
    MetaOneLine(f);
    SamplesOneLine(f.name, f.samples);
  }

  // How a scrape prices the two kinds of line: comments at nothing, a sample at its
  // value if it is of the metric.
  ghost predicate PricesLines(worth: string -> int, name: string) {
    PricesComments(worth) && PricesOwn(worth, name) && PricesOthers(worth, name)
  }

  ghost predicate PricesComments(worth: string -> int) {
    forall line: string {:trigger worth(line)} :: line != [] && line[0] == '#' ==> worth(line) == 0
  }

  ghost predicate PricesOwn(worth: string -> int, name: string) {
    forall n: string, x: Sample {:trigger worth(SampleLine(n, x))} :: n == name && IsMetricName(n) && GoodSample(x) ==>
      worth(SampleLine(n, x)) == IntOf(x)
  }

  ghost predicate PricesOthers(worth: string -> int, name: string) {
    forall n: string, x: Sample {:trigger worth(SampleLine(n, x))} :: n != name && IsMetricName(n) && GoodSample(x) ==>
      worth(SampleLine(n, x)) == 0
  }

  lemma {:induction false} WorthOfComments(name: string)
    ensures forall line: string {:trigger Worth(name)(line)} :: line != [] && line[0] == '#' ==> Worth(name)(line) == 0
  {
    forall line: string {:trigger Worth(name)(line)} | line != [] && line[0] == '#' ensures Worth(name)(line) == 0 {
      CommentWorth(line, name);
    }
  }

  function IntOf(x: Sample): int { ValueOf(ParseInt(x.value)) }

  lemma {:induction false} OwnSample(name: string, x: Sample)
    requires IsMetricName(name) && GoodSample(x)
    ensures Worth(name)(SampleLine(name, x)) == IntOf(x)
  {
    OwnWorth(SampleLine(name, x), name, Braced(x.labels), x.value);
  }

  lemma {:induction false} WorthOfOwn(name: string)
    requires IsMetricName(name)
    ensures forall n: string, x: Sample {:trigger Worth(name)(SampleLine(n, x))} :: n == name && IsMetricName(n) && GoodSample(x) ==>
      Worth(name)(SampleLine(n, x)) == IntOf(x)
  {
    forall n: string, x: Sample {:trigger Worth(name)(SampleLine(n, x))} | n == name && IsMetricName(n) && GoodSample(x)
      ensures Worth(name)(SampleLine(n, x)) == IntOf(x)
    {
      OwnSample(name, x);
    }
  }

  lemma {:induction false} WorthOfOthers(name: string)
    requires IsMetricName(name)
    ensures forall n: string, x: Sample {:trigger Worth(name)(SampleLine(n, x))} :: n != name && IsMetricName(n) && GoodSample(x) ==>
      Worth(name)(SampleLine(n, x)) == 0
  {
    forall n: string, x: Sample {:trigger Worth(name)(SampleLine(n, x))} | n != name && IsMetricName(n) && GoodSample(x)
      ensures Worth(name)(SampleLine(n, x)) == 0
    {
      OtherWorth(n, Braced(x.labels), x.value, name);
    }
  }

  lemma WorthPricesComments(name: string)
    ensures PricesComments(Worth(name))
  {
    WorthOfComments(name);
  }

  lemma WorthPricesOwn(name: string)
    requires IsMetricName(name)
    ensures PricesOwn(Worth(name), name)
  {
    WorthOfOwn(name);
  }

  lemma WorthPricesOthers(name: string)
    requires IsMetricName(name)
    ensures PricesOthers(Worth(name), name)
  {
    WorthOfOthers(name);
  }

  lemma {:induction false} SamplesPriced(name: string, xs: seq<Sample>, worth: string -> int, metric: string)
    requires IsMetricName(name) && GoodSamples(xs) && PricesLines(worth, metric)
    ensures Sum(SampleLines(name, xs), worth) == if name == metric then Total(xs) else 0
  {
    if xs != [] {
      var front, x := xs[..|xs| - 1], xs[|xs| - 1];
      SamplesPriced(name, front, worth, metric);
      SumLast(SampleLines(name, front), SampleLine(name, x), worth);
    }
  }

  lemma MetaPriced(f: Family, worth: string -> int, metric: string)
    requires GoodFamily(f) && PricesLines(worth, metric)
    ensures Sum([HelpLine(f), TypeLine(f)], worth) == 0
  {
    MetaOneLine(f);
    SumFirst([HelpLine(f), TypeLine(f)], worth);
    SumFirst([TypeLine(f)], worth);
    assert [HelpLine(f), TypeLine(f)][1..] == [TypeLine(f)];
  }

  lemma FamilyPriced(f: Family, worth: string -> int, metric: string)
    requires GoodFamily(f) && PricesLines(worth, metric)
    ensures Sum(FamilyLines(f), worth) == if f.name == metric then Total(f.samples) else 0
  {
    MetaPriced(f, worth, metric);
    SamplesPriced(f.name, f.samples, worth, metric);
    SumConcat([HelpLine(f), TypeLine(f)], SampleLines(f.name, f.samples), worth);
  }

  function FamilySum(fs: seq<Family>, metric: Metric): int {
    if fs == [] then 0
    else FamilySum(fs[..|fs| - 1], metric) + if fs[|fs| - 1].metric == metric then Total(fs[|fs| - 1].samples) else 0
  }

  // Well-formed families, of which those of one metric are told apart by its name.
  predicate GoodFamilies(fs: seq<Family>, metric: Metric, name: string) {
    forall i :: 0 <= i < |fs| ==> GoodFamily(fs[i]) && (fs[i].name == name <==> fs[i].metric == metric)
  }

  lemma {:induction false} FamiliesOneLine(fs: seq<Family>, metric: Metric, name: string)
    requires GoodFamilies(fs, metric, name)
    ensures OneLineEach(AllLines(fs))
  {
    if fs != [] {
      var n := |fs| - 1;
      FamiliesOneLine(fs[..n], metric, name);
      FamilyOneLine(fs[n]);
    }
  }

  lemma {:induction false} FamiliesPriced(fs: seq<Family>, metric: Metric, worth: string -> int, name: string)
    requires GoodFamilies(fs, metric, name) && PricesLines(worth, name)
    ensures Sum(AllLines(fs), worth) == FamilySum(fs, metric)
  {
    if fs != [] {
      var n := |fs| - 1;
      FamiliesPriced(fs[..n], metric, worth, name);
      FamilyPriced(fs[n], worth, name);
      SumConcat(AllLines(fs[..n]), FamilyLines(fs[n]), worth);
    }
  }

  // ---- Every snapshot ----

  lemma HostNameIsMetric(m: Metric)
    requires m.HostCPU? || m.HostMemUsed? || m.HostMemTotal?
    ensures IsMetricName(Name(m))
  {
    match m {
      case HostCPU =>
      case HostMemUsed =>
      case HostMemTotal =>
    }
  }

  lemma DiskNameIsMetric(m: Metric)
    requires m.HostDiskUsed? || m.HostDiskTotal? || m.HostRequestRate?
    ensures IsMetricName(Name(m))
  {
    match m {
      case HostDiskUsed =>
      case HostDiskTotal =>
      case HostRequestRate =>
    }
  }

  lemma AppNameIsMetric(m: Metric)
    requires m.AppCPU? || m.AppMem? || m.AppVolume? || m.Build?
    ensures IsMetricName(Name(m))
  {
    match m {
      case AppCPU =>
      case AppMem =>
      case AppVolume =>
      case Build =>
    }
  }

  lemma DeployNameIsMetric(m: Metric)
    requires m.Deploys? || m.DeploySeconds?
    ensures IsMetricName(Name(m))
  {
    match m {
      case Deploys =>
      case DeploySeconds =>
    }
  }

  lemma RequestNameIsMetric(m: Metric)
    requires m.Requests? || m.Errors?
    ensures IsMetricName(Name(m))
  {
    match m {
      case Requests =>
      case Errors =>
    }
  }

  lemma NameIsMetric(m: Metric)
    ensures IsMetricName(Name(m))
  {
    if m.AppCPU? || m.AppMem? || m.AppVolume? || m.Build? {
      AppNameIsMetric(m);
    } else if m.Deploys? || m.DeploySeconds? {
      DeployNameIsMetric(m);
    } else if m.Requests? || m.Errors? {
      RequestNameIsMetric(m);
    } else if m.HostCPU? || m.HostMemUsed? || m.HostMemTotal? {
      HostNameIsMetric(m);
    } else {
      DiskNameIsMetric(m);
    }
  }

  // No other family's name is a counter's.
  lemma CounterNameApart(counter: Metric, m: Metric)
    requires IsCounter(counter)
    ensures Name(counter) == Name(m) <==> counter == m
  {
  }

  lemma ItoaIsWord(n: int)
    ensures IsWord(Itoa(n))
  {
  }

  lemma FloatIsWord(x: FloatText)
    ensures IsWord(x)
  {
  }

  lemma AppSamplesGood(s: Snapshot)
    ensures GoodSamples(CPUSamples(s.apps)) && GoodSamples(MemSamples(s.apps)) && GoodSamples(VolumeSamples(s.volumes))
  {
    forall i | 0 <= i < |s.apps| ensures GoodSample(CPUSamples(s.apps)[i]) && GoodSample(MemSamples(s.apps)[i]) {
      FloatIsWord(s.apps[i].cpuPercent);
      ItoaIsWord(s.apps[i].memBytes);
    }
    forall i | 0 <= i < |s.volumes| ensures GoodSample(VolumeSamples(s.volumes)[i]) {
      ItoaIsWord(s.volumes[i].bytes);
    }
  }

  lemma CountSamplesGood(s: Snapshot)
    ensures GoodSamples(DeploySamples(s.deploys)) && GoodSamples(DurationSamples(s.durations))
    ensures GoodSamples(RequestSamples(s.requests)) && GoodSamples(ErrorSamples(s.requests))
  {
    forall i | 0 <= i < |s.deploys| ensures GoodSample(DeploySamples(s.deploys)[i]) {
      ItoaIsWord(s.deploys[i].count);
    }
    forall i | 0 <= i < |s.durations| ensures GoodSample(DurationSamples(s.durations)[i]) {
      FloatIsWord(s.durations[i].seconds);
    }
    forall i | 0 <= i < |s.requests| ensures GoodSample(RequestSamples(s.requests)[i]) && GoodSample(ErrorSamples(s.requests)[i]) {
      ItoaIsWord(s.requests[i].requests);
      ItoaIsWord(s.requests[i].errors);
    }
  }

  lemma HostSamplesGood(s: Snapshot, m: Metric)
    requires m.HostCPU? || m.HostMemUsed? || m.HostMemTotal? || m.HostDiskUsed? || m.HostDiskTotal? || m.HostRequestRate?
    ensures GoodSamples(Samples(s, m))
  {
    var x := Samples(s, m)[0].value;
    if m.HostCPU? || m.HostRequestRate? {
      FloatIsWord(x);
    } else {
      ItoaIsWord(if m.HostMemUsed? then s.host.memUsed else if m.HostMemTotal? then s.host.memTotal
                 else if m.HostDiskUsed? then s.host.diskUsed else s.host.diskTotal);
    }
  }

  lemma SamplesGood(s: Snapshot, m: Metric)
    ensures GoodSamples(Samples(s, m))
  {
    if m.AppCPU? || m.AppMem? || m.AppVolume? {
      AppSamplesGood(s);
    } else if IsCounter(m) || m.DeploySeconds? {
      CountSamplesGood(s);
    } else if m.Build? {
      assert IsWord("1");
    } else {
      HostSamplesGood(s, m);
    }
  }

  lemma FamilyGood(s: Snapshot, help: HelpTexts, m: Metric)
    ensures GoodFamily(FamilyOf(s, help, m))
  {
    NameIsMetric(m);
    SamplesGood(s, m);
  }

  lemma {:induction false} FamiliesGood(s: Snapshot, help: HelpTexts, ms: seq<Metric>, counter: Metric)
    requires IsCounter(counter)
    ensures GoodFamilies(FamiliesOf(s, help, ms), counter, Name(counter))
  {
    if ms != [] {
      var m := ms[|ms| - 1];
      FamiliesGood(s, help, ms[..|ms| - 1], counter);
      FamilyGood(s, help, m);
      CounterNameApart(counter, m);
    }
  }

  // A metric listed once is summed once.
  lemma {:induction false} ListedSum(s: Snapshot, help: HelpTexts, ms: seq<Metric>, m: Metric)
    requires forall i, j :: 0 <= i < j < |ms| ==> ms[i] != ms[j]
    ensures FamilySum(FamiliesOf(s, help, ms), m) == if m in ms then Total(Samples(s, m)) else 0
  {
    if ms != [] {
      var front, last := ms[..|ms| - 1], ms[|ms| - 1];
      ListedSum(s, help, front, m);
      FamilySumLast(FamiliesOf(s, help, front), FamilyOf(s, help, last), m);
      ListedLast(ms, m);
    }
  }

  lemma ListedLast(ms: seq<Metric>, m: Metric)
    requires ms != [] && forall i, j :: 0 <= i < j < |ms| ==> ms[i] != ms[j]
    ensures m in ms <==> m in ms[..|ms| - 1] || m == ms[|ms| - 1]
    ensures ms[|ms| - 1] !in ms[..|ms| - 1]
  {
  }

  lemma FamilySumLast(fs: seq<Family>, f: Family, m: Metric)
    ensures FamilySum(fs + [f], m) == FamilySum(fs, m) + if f.metric == m then Total(f.samples) else 0
  {
    assert (fs + [f])[..|fs|] == fs;
  }

  // ---- Agreement ----

  function DeployTotal(ds: seq<DeployCount>): int {
    if ds == [] then 0 else DeployTotal(ds[..|ds| - 1]) + ds[|ds| - 1].count
  }

  function RequestsTotal(rs: seq<RequestTotal>): int {
    if rs == [] then 0 else RequestsTotal(rs[..|rs| - 1]) + rs[|rs| - 1].requests
  }

  function ErrorsTotal(rs: seq<RequestTotal>): int {
    if rs == [] then 0 else ErrorsTotal(rs[..|rs| - 1]) + rs[|rs| - 1].errors
  }

  lemma {:induction false} DeploysAdd(ds: seq<DeployCount>)
    ensures Total(DeploySamples(ds)) == DeployTotal(ds)
  {
    if ds != [] {
      var n := |ds| - 1;
      DeploysAdd(ds[..n]);
      assert DeploySamples(ds)[..n] == DeploySamples(ds[..n]);
      ParseItoa(ds[n].count);
    }
  }

  lemma {:induction false} RequestsAdd(rs: seq<RequestTotal>)
    ensures Total(RequestSamples(rs)) == RequestsTotal(rs)
  {
    if rs != [] {
      var n := |rs| - 1;
      RequestsAdd(rs[..n]);
      assert RequestSamples(rs)[..n] == RequestSamples(rs[..n]);
      ParseItoa(rs[n].requests);
    }
  }

  lemma {:induction false} ErrorsAdd(rs: seq<RequestTotal>)
    ensures Total(ErrorSamples(rs)) == ErrorsTotal(rs)
  {
    if rs != [] {
      var n := |rs| - 1;
      ErrorsAdd(rs[..n]);
      assert ErrorSamples(rs)[..n] == ErrorSamples(rs[..n]);
      ParseItoa(rs[n].errors);
    }
  }

  // The page Write prints for a snapshot.
  function Page(s: Snapshot, help: HelpTexts): string { Joined(AllLines(Families(s, help))) }

  lemma ReadsBack(s: Snapshot, help: HelpTexts, metric: Metric, worth: string -> int)
    requires IsCounter(metric) && PricesLines(worth, Name(metric))
    ensures Scrapes(s, help, worth, Total(Samples(s, metric)))
  {
    FamiliesGood(s, help, ORDER, metric);
    LinesReadBack(Families(s, help), metric, worth, Name(metric));
    InOrder(metric);
    ListedSum(s, help, ORDER, metric);
  }

  lemma InOrder(metric: Metric)
    ensures metric in ORDER && forall i, j :: 0 <= i < j < |ORDER| ==> ORDER[i] != ORDER[j]
  {
  }

  lemma LinesReadBack(fs: seq<Family>, metric: Metric, worth: string -> int, name: string)
    requires GoodFamilies(fs, metric, name) && PricesLines(worth, name)
    ensures var scan := SumText(Joined(AllLines(fs)), worth);
      if AllFit(AllLines(fs)) then scan == Scan(FamilySum(fs, metric), false) else scan.tooLong
  {
    FamiliesOneLine(fs, metric, name);
    FamiliesPriced(fs, metric, worth, name);
    SumJoined(AllLines(fs), worth);
    SumOfFitting(AllLines(fs), worth);
  }

  // A scrape of the page sums to `total`, unless the scanner refuses the page.
  predicate Scrapes(s: Snapshot, help: HelpTexts, worth: string -> int, total: int) {
    var scan := SumText(Page(s, help), worth);
    if AllFit(AllLines(Families(s, help))) then scan == Scan(total, false) else scan.tooLong
  }

  // Printer and parser agree: on every snapshot, with any label text, the scraped sum
  // of each counter is the exact sum of its samples, and the scanner refuses exactly the
  // pages with a line that does not fit its buffer.
  lemma PrinterAndParserAgree(s: Snapshot, help: HelpTexts, metric: Metric)
    requires IsCounter(metric)
    ensures Scrapes(s, help, Worth(Name(metric)), CounterTotal(s, metric))
  {
    NameIsMetric(metric);
    WorthPricesComments(Name(metric));
    WorthPricesOwn(Name(metric));
    WorthPricesOthers(Name(metric));
    ReadsBack(s, help, metric, Worth(Name(metric)));
    SamplesAdd(s, metric);
  }

  function CounterTotal(s: Snapshot, metric: Metric): int
    requires IsCounter(metric)
  {
    match metric
    case Deploys => DeployTotal(s.deploys)
    case Requests => RequestsTotal(s.requests)
    case Errors => ErrorsTotal(s.requests)
  }

  lemma SamplesAdd(s: Snapshot, metric: Metric)
    requires IsCounter(metric)
    ensures Total(Samples(s, metric)) == CounterTotal(s, metric)
  {
    match metric {
      case Deploys =>
        assert Samples(s, Deploys) == DeploySamples(s.deploys);
        DeploysAdd(s.deploys);
      case Requests =>
        assert Samples(s, Requests) == RequestSamples(s.requests);
        RequestsAdd(s.requests);
      case Errors =>
        assert Samples(s, Errors) == ErrorSamples(s.requests);
        ErrorsAdd(s.requests);
    }
  }

  // ---- Labels ----

  // Reads an escaped value up to its closing quote; None if there is none or an escape
  // is unknown.
  function ReadQuoted(s: string): Option<(string, string)> {
    if s == [] then None
    else if s[0] == '"' then Some(([], s[1..]))
    else if s[0] == '\\' then
      if |s| < 2 || s[1] !in "\\\"n" then None
      else
        var rest := ReadQuoted(s[2..]);
        if rest.None? then None else Some(([if s[1] == 'n' then '\n' else s[1]] + rest.value.0, rest.value.1))
    else
      var rest := ReadQuoted(s[1..]);
      if rest.None? then None else Some(([s[0]] + rest.value.0, rest.value.1))
  }

  // Escaping is undone by unescaping, and the closing quote is found where it was put,
  // whatever the value holds and whatever follows it.
  lemma {:induction false} EscapeReadsBack(value: string, rest: string)
    ensures ReadQuoted(Escape(value, true) + "\"" + rest) == Some((value, rest))
  {
    if value == [] {
      assert Escape(value, true) + "\"" + rest == "\"" + rest;
    } else {
      var tail := Escape(value[1..], true) + "\"" + rest;
      EscapeReadsBack(value[1..], rest);
      EscapedCharReadsBack(value[0], tail, value[1..], rest);
      assert Escape(value, true) + "\"" + rest == EscapeChar(value[0], true) + tail;
      assert value == [value[0]] + value[1..];
    }
  }

  lemma EscapedCharReadsBack(c: char, tail: string, value: string, rest: string)
    requires ReadQuoted(tail) == Some((value, rest))
    ensures ReadQuoted(EscapeChar(c, true) + tail) == Some(([c] + value, rest))
  {
    var e := EscapeChar(c, true);
    assert (e + tail)[|e|..] == tail;
  }

  // Reads a label block after its opening brace.
  function ReadLabels(s: string): Option<(seq<Label>, string)>
    decreases |s|
  {
    var n := UpTo(s, '=');
    if n + 1 >= |s| || s[n + 1] != '"' then None
    else
      var value := ReadQuoted(s[n + 2..]);
      if value.None? || value.value.1 == [] then None
      else
        var first, rest := Label(s[..n], value.value.0), value.value.1;
        ReadQuotedShrinks(s[n + 2..]);
        if rest[0] == '}' then Some(([first], rest[1..]))
        else if rest[0] != ',' then None
        else
          var more := ReadLabels(rest[1..]);
          if more.None? then None else Some(([first] + more.value.0, more.value.1))
  }

  function UpTo(s: string, c: char): (n: nat)
    ensures n <= |s| && c !in s[..n]
    ensures n < |s| ==> s[n] == c
  {
    if s == [] || s[0] == c then 0 else 1 + UpTo(s[1..], c)
  }

  lemma {:induction false} ReadQuotedShrinks(s: string)
    ensures ReadQuoted(s).Some? ==> |ReadQuoted(s).value.1| < |s|
  {
    if s != [] && s[0] != '"' {
      if s[0] == '\\' {
        if |s| >= 2 {
          ReadQuotedShrinks(s[2..]);
        }
      } else {
        ReadQuotedShrinks(s[1..]);
      }
    }
  }

  lemma {:induction false} UpToIs(name: string, c: char, rest: string)
    requires c !in name
    ensures UpTo(name + [c] + rest, c) == |name|
  {
    if name != [] {
      UpToIs(name[1..], c, rest);
      assert (name + [c] + rest)[1..] == name[1..] + [c] + rest;
    }
  }

  lemma LabelReadsBack(l: Label, rest: string)
    requires '=' !in l.name
    ensures var s := LabelText(l) + rest;
      var n := UpTo(s, '=');
      n + 1 < |s| && s[n + 1] == '"' && s[..n] == l.name && ReadQuoted(s[n + 2..]) == Some((l.value, rest))
  {
    var s := LabelText(l) + rest;
    var tail := "\"" + (Escape(l.value, true) + "\"" + rest);
    assert s == l.name + ['='] + tail;
    UpToIs(l.name, '=', tail);
    assert s[|l.name| + 1] == tail[0];
    assert s[|l.name| + 2..] == Escape(l.value, true) + "\"" + rest;
    EscapeReadsBack(l.value, rest);
  }

  // A printed label block reads back to the labels it was printed from.
  lemma {:induction false} LabelsReadBack(ls: seq<Label>, rest: string)
    requires ls != [] && forall i :: 0 <= i < |ls| ==> '=' !in ls[i].name
    ensures ReadLabels(LabelsText(ls) + "}" + rest) == Some((ls, rest))
  {
    if |ls| == 1 {
      OneLabel(ls[0], rest);
      OneLabelText(ls, rest);
    } else {
      LabelsReadBack(ls[1..], rest);
      MoreLabels(ls[0], LabelsText(ls[1..]) + "}" + rest);
      MoreLabelsText(ls, rest);
    }
  }

  lemma OneLabelText(ls: seq<Label>, rest: string)
    requires |ls| == 1
    ensures LabelsText(ls) + "}" + rest == LabelText(ls[0]) + ("}" + rest) && ls == [ls[0]]
  {
  }

  lemma MoreLabelsText(ls: seq<Label>, rest: string)
    requires |ls| > 1
    ensures LabelsText(ls) + "}" + rest == LabelText(ls[0]) + ("," + (LabelsText(ls[1..]) + "}" + rest)) && ls == [ls[0]] + ls[1..]
  {
    CommaAssociates(LabelText(ls[0]), LabelsText(ls[1..]), rest);
  }

  lemma CommaAssociates(a: string, b: string, rest: string)
    ensures a + "," + b + "}" + rest == a + ("," + (b + "}" + rest))
  {
  }

  lemma OneLabel(l: Label, rest: string)
    requires '=' !in l.name
    ensures ReadLabels(LabelText(l) + ("}" + rest)) == Some(([l], rest))
  {
    LabelReadsBack(l, "}" + rest);
  }

  lemma MoreLabels(l: Label, after: string)
    requires '=' !in l.name
    ensures var more := ReadLabels(after);
      ReadLabels(LabelText(l) + ("," + after)) == if more.None? then None else Some(([l] + more.value.0, more.value.1))
  {
    LabelReadsBack(l, "," + after);
    CommaReadsOn(LabelText(l) + ("," + after), l, after);
  }

  lemma CommaReadsOn(s: string, l: Label, after: string)
    requires var n := UpTo(s, '=');
      n + 1 < |s| && s[n + 1] == '"' && s[..n] == l.name && ReadQuoted(s[n + 2..]) == Some((l.value, "," + after))
    ensures var more := ReadLabels(after);
      ReadLabels(s) == if more.None? then None else Some(([l] + more.value.0, more.value.1))
  {
    assert ("," + after)[1..] == after;
  }

  // ---- The page, family by family ----

  lemma {:induction false} FamilyAt(s: Snapshot, help: HelpTexts, ms: seq<Metric>, i: nat)
    requires i < |ms|
    ensures |FamiliesOf(s, help, ms)| == |ms| && FamiliesOf(s, help, ms)[i] == FamilyOf(s, help, ms[i])
  {
    if i < |ms| - 1 {
      FamilyAt(s, help, ms[..|ms| - 1], i);
    } else if i > 0 {
      FamilyAt(s, help, ms[..|ms| - 1], i - 1);
    }
  }

  // The families stand in this order.
  lemma PageOrder(s: Snapshot, help: HelpTexts, i: nat)
    requires i < 14
    ensures |Families(s, help)| == 14
    ensures Families(s, help)[i] == FamilyOf(s, help, [HostCPU, HostMemUsed, HostMemTotal, HostDiskUsed, HostDiskTotal, HostRequestRate,
                                                       AppCPU, AppMem, AppVolume, Deploys, DeploySeconds, Requests, Errors, Build][i])
  {
    FamilyAt(s, help, ORDER, i);
  }

  // A family's name and type, and the samples under it.
  predicate Titled(f: Family, name: string, typ: string) { f.name == name && f.typ == typ }

  predicate Plainly(xs: seq<Sample>, value: string) { xs == [Sample([], value)] }

  // The host's gauges have one plain sample each.
  lemma HostGauges(s: Snapshot, help: HelpTexts)
    ensures Titled(FamilyOf(s, help, HostCPU), "vac_host_cpu_percent", "gauge") && Plainly(Samples(s, HostCPU), s.host.cpuPercent)
    ensures Titled(FamilyOf(s, help, HostMemUsed), "vac_host_mem_used_bytes", "gauge") && Plainly(Samples(s, HostMemUsed), Itoa(s.host.memUsed))
    ensures Titled(FamilyOf(s, help, HostMemTotal), "vac_host_mem_total_bytes", "gauge") && Plainly(Samples(s, HostMemTotal), Itoa(s.host.memTotal))
  {
  }

  lemma HostDiskGauges(s: Snapshot, help: HelpTexts)
    ensures Titled(FamilyOf(s, help, HostDiskUsed), "vac_host_disk_used_bytes", "gauge") && Plainly(Samples(s, HostDiskUsed), Itoa(s.host.diskUsed))
    ensures Titled(FamilyOf(s, help, HostDiskTotal), "vac_host_disk_total_bytes", "gauge") && Plainly(Samples(s, HostDiskTotal), Itoa(s.host.diskTotal))
    ensures Titled(FamilyOf(s, help, HostRequestRate), "vac_host_request_rate", "gauge") && Plainly(Samples(s, HostRequestRate), s.host.requestRate)
  {
  }

  predicate OfService(x: Sample, app: string, service: string, value: string) {
    x == Sample([Label("app", app), Label("service", service)], value)
  }

  predicate OfVolume(x: Sample, v: Volume) {
    x == Sample([Label("app", v.app), Label("service", v.service), Label("volume", v.volume)], Itoa(v.bytes))
  }

  predicate OfDeploys(x: Sample, d: DeployCount) {
    x == Sample([Label("app", d.app), Label("status", d.status), Label("triggered_by", d.triggeredBy)], Itoa(d.count))
  }

  // The others have one sample per row, in the rows' order.
  lemma CPUFamily(s: Snapshot, help: HelpTexts)
    ensures Titled(FamilyOf(s, help, AppCPU), "vac_app_cpu_percent", "gauge")
    ensures |Samples(s, AppCPU)| == |s.apps|
    ensures forall i {:trigger Samples(s, AppCPU)[i]} :: 0 <= i < |s.apps| ==> OfService(Samples(s, AppCPU)[i], s.apps[i].app, s.apps[i].service, s.apps[i].cpuPercent)
  {
  }

  lemma MemFamily(s: Snapshot, help: HelpTexts)
    ensures Titled(FamilyOf(s, help, AppMem), "vac_app_mem_bytes", "gauge")
    ensures |Samples(s, AppMem)| == |s.apps|
    ensures forall i {:trigger Samples(s, AppMem)[i]} :: 0 <= i < |s.apps| ==> OfService(Samples(s, AppMem)[i], s.apps[i].app, s.apps[i].service, Itoa(s.apps[i].memBytes))
  {
  }

  lemma VolumeFamily(s: Snapshot, help: HelpTexts)
    ensures Titled(FamilyOf(s, help, AppVolume), "vac_app_volume_bytes", "gauge")
    ensures |Samples(s, AppVolume)| == |s.volumes|
    ensures forall i {:trigger Samples(s, AppVolume)[i]} :: 0 <= i < |s.volumes| ==> OfVolume(Samples(s, AppVolume)[i], s.volumes[i])
  {
  }

  lemma DeployFamily(s: Snapshot, help: HelpTexts)
    ensures Titled(FamilyOf(s, help, Deploys), "vac_deploys_total", "counter")
    ensures |Samples(s, Deploys)| == |s.deploys|
    ensures forall i {:trigger Samples(s, Deploys)[i]} :: 0 <= i < |s.deploys| ==> OfDeploys(Samples(s, Deploys)[i], s.deploys[i])
  {
  }

  lemma DurationFamily(s: Snapshot, help: HelpTexts)
    ensures Titled(FamilyOf(s, help, DeploySeconds), "vac_deploy_duration_seconds", "gauge")
    ensures |Samples(s, DeploySeconds)| == |s.durations|
    ensures forall i {:trigger Samples(s, DeploySeconds)[i]} :: 0 <= i < |s.durations| ==> Samples(s, DeploySeconds)[i] == Sample([Label("app", s.durations[i].app)], s.durations[i].seconds)
  {
  }

  lemma RequestFamily(s: Snapshot, help: HelpTexts)
    ensures Titled(FamilyOf(s, help, Requests), "vac_requests_total", "counter")
    ensures |Samples(s, Requests)| == |s.requests|
    ensures forall i {:trigger Samples(s, Requests)[i]} :: 0 <= i < |s.requests| ==> OfService(Samples(s, Requests)[i], s.requests[i].app, s.requests[i].service, Itoa(s.requests[i].requests))
  {
  }

  lemma ErrorFamily(s: Snapshot, help: HelpTexts)
    ensures Titled(FamilyOf(s, help, Errors), "vac_request_errors_total", "counter")
    ensures |Samples(s, Errors)| == |s.requests|
    ensures forall i {:trigger Samples(s, Errors)[i]} :: 0 <= i < |s.requests| ==> OfService(Samples(s, Errors)[i], s.requests[i].app, s.requests[i].service, Itoa(s.requests[i].errors))
  {
  }

  lemma BuildFamily(s: Snapshot, help: HelpTexts)
    ensures Titled(FamilyOf(s, help, Build), "vac_build_info", "gauge")
    ensures Samples(s, Build) == [Sample([Label("version", s.version), Label("commit", s.commit)], "1")]
  {
  }

  lemma CounterScraped(s: Snapshot, help: HelpTexts, metric: Metric, name: string, total: int)
    requires IsCounter(metric) && Name(metric) == name && CounterTotal(s, metric) == total
    ensures Scrapes(s, help, Worth(name), total)
  {
    PrinterAndParserAgree(s, help, metric);
  }

  // A scrape of each counter by its name adds up the rows' own numbers.
  lemma DeploysScraped(s: Snapshot, help: HelpTexts)
    ensures Scrapes(s, help, Worth("vac_deploys_total"), DeployTotal(s.deploys))
  {
    CounterScraped(s, help, Deploys, "vac_deploys_total", DeployTotal(s.deploys));
  }

  lemma RequestsScraped(s: Snapshot, help: HelpTexts)
    ensures Scrapes(s, help, Worth("vac_requests_total"), RequestsTotal(s.requests))
  {
    CounterScraped(s, help, Requests, "vac_requests_total", RequestsTotal(s.requests));
  }

  lemma ErrorsScraped(s: Snapshot, help: HelpTexts)
    ensures Scrapes(s, help, Worth("vac_request_errors_total"), ErrorsTotal(s.requests))
  {
    CounterScraped(s, help, Errors, "vac_request_errors_total", ErrorsTotal(s.requests));
  }

  // The longest line a scrape takes has one byte less than a mebibyte.
  lemma LineLimit(line: string)
    ensures TooLong(line) <==> ByteLen(line) >= 1024 * 1024
  {
  }
}
