// The regular expressions the API validates names and addresses with, as values with a
// meaning of their own, and the checks of the other modules held against them
// (appspec/appspec.go, dbprovision/provisioner.go).
module Patterns {
  import opened Text
  import Names
  import BindingName
  import A = AppSpec
  import O = Ordering

  datatype Re =
    | Lit(text: string)
    | Class(ranges: seq<(char, char)>) // one character from one of the ranges
    | NoneOf(chars: string)            // one character that is none of these
    | Then(first: Re, second: Re)
    | Either(left: Re, right: Re)
    | Star(body: Re)

  predicate InRanges(c: char, ranges: seq<(char, char)>) { exists i :: 0 <= i < |ranges| && ranges[i].0 <= c <= ranges[i].1 }

  ghost predicate Matches(r: Re, s: string)
    decreases |s|, r
  {
    match r
    case Lit(text) => s == text
    case Class(ranges) => |s| == 1 && InRanges(s[0], ranges)
    case NoneOf(chars) => |s| == 1 && s[0] !in chars
    case Then(first, second) => exists n :: 0 <= n <= |s| && Matches(first, s[..n]) && Matches(second, s[n..])
    case Either(left, right) => Matches(left, s) || Matches(right, s)
    case Star(body) => s == "" || exists n :: 0 < n <= |s| && Matches(body, s[..n]) && Matches(r, s[n..])
  }

  function Plus(r: Re): Re { Then(r, Star(r)) }

  // One character is enough to decide.
  predicate Single(r: Re) { r.Class? || r.NoneOf? }

  predicate Takes(r: Re, c: char)
    requires Single(r)
  {
    if r.Class? then InRanges(c, r.ranges) else c !in r.chars
  }

  predicate TakesAll(r: Re, s: string)
    requires Single(r)
  {
    forall i :: 0 <= i < |s| ==> Takes(r, s[i])
  }

  lemma {:induction false} StarTakes(r: Re, s: string)
    requires Single(r)
    ensures Matches(Star(r), s) <==> TakesAll(r, s)
    decreases |s|
  {
    if s != "" {
      StarTakes(r, s[1..]);
      if TakesAll(r, s) {
        assert Matches(r, s[..1]) && Matches(Star(r), s[1..]);
      }
      if Matches(Star(r), s) {
        var n :| 0 < n <= |s| && Matches(r, s[..n]) && Matches(Star(r), s[n..]);
        assert n == 1 && s[..1][0] == s[0];
        assert forall i :: 1 <= i < |s| ==> s[i] == s[1..][i - 1];
      }
    }
  }

  lemma PlusTakes(r: Re, s: string)
    requires Single(r)
    ensures Matches(Plus(r), s) <==> s != "" && TakesAll(r, s)
  {
    if s != "" && TakesAll(r, s) {
      StarTakes(r, s[1..]);
      assert Matches(r, s[..1]) && Matches(Star(r), s[1..]);
    }
    if Matches(Plus(r), s) {
      var n :| 0 <= n <= |s| && Matches(r, s[..n]) && Matches(Star(r), s[n..]);
      StarTakes(r, s[n..]);
      assert n == 1 && s[..1][0] == s[0];
      assert forall i :: 1 <= i < |s| ==> s[i] == s[1..][i - 1];
    }
  }

  // A first character and any more of another kind.
  lemma HeadTakes(head: Re, tail: Re, s: string)
    requires Single(head) && Single(tail)
    ensures Matches(Then(head, Star(tail)), s) <==> s != "" && Takes(head, s[0]) && TakesAll(tail, s[1..])
  {
    if s != "" && Takes(head, s[0]) && TakesAll(tail, s[1..]) {
      StarTakes(tail, s[1..]);
      assert Matches(head, s[..1]) && Matches(Star(tail), s[1..]);
    }
    if Matches(Then(head, Star(tail)), s) {
      var n :| 0 <= n <= |s| && Matches(head, s[..n]) && Matches(Star(tail), s[n..]);
      StarTakes(tail, s[n..]);
      assert n == 1 && s[..1][0] == s[0];
    }
  }

  // ---- Environment keys, git refs, binding names ----

  // ^[A-Za-z_][A-Za-z0-9_]*$, as validEnvKey spells it out
  function EnvKeyRe(): Re {
    Then(Class([('A', 'Z'), ('a', 'z'), ('_', '_')]), Star(Class([('A', 'Z'), ('a', 'z'), ('0', '9'), ('_', '_')])))
  }

  // ^[A-Za-z0-9._/][A-Za-z0-9._/-]*$
  function GitRefRe(): Re {
    Then(Class([('A', 'Z'), ('a', 'z'), ('0', '9'), ('.', '.'), ('_', '_'), ('/', '/')]),
         Star(Class([('A', 'Z'), ('a', 'z'), ('0', '9'), ('.', '.'), ('_', '_'), ('/', '/'), ('-', '-')])))
  }

  // ^[A-Z_][A-Z0-9_]*$
  function BindingRe(): Re {
    Then(Class([('A', 'Z'), ('_', '_')]), Star(Class([('A', 'Z'), ('0', '9'), ('_', '_')])))
  }

  lemma ThreeRanges(c: char, a: (char, char), b: (char, char), d: (char, char))
    ensures InRanges(c, [a, b, d]) <==> a.0 <= c <= a.1 || b.0 <= c <= b.1 || d.0 <= c <= d.1
  {
    var rs := [a, b, d];
    assert rs[0] == a && rs[1] == b && rs[2] == d;
  }

  lemma TwoRanges(c: char, a: (char, char), b: (char, char))
    ensures InRanges(c, [a, b]) <==> a.0 <= c <= a.1 || b.0 <= c <= b.1
  {
    var rs := [a, b];
    assert rs[0] == a && rs[1] == b;
  }

  lemma MoreRanges(c: char, rs: seq<(char, char)>, a: (char, char))
    ensures InRanges(c, rs + [a]) <==> InRanges(c, rs) || a.0 <= c <= a.1
  {
    var all := rs + [a];
    assert all[|rs|] == a;
    assert forall i :: 0 <= i < |rs| ==> all[i] == rs[i];
  }

  lemma EnvKeyIff(s: string)
    ensures A.EnvKey(s) <==> Matches(EnvKeyRe(), s)
  {
    var head, tail := EnvKeyRe().first, EnvKeyRe().second.body;
    HeadTakes(head, tail, s);
    forall c: char
      ensures InRanges(c, head.ranges) <==> A.EnvChar(c)
      ensures InRanges(c, tail.ranges) <==> A.EnvChar(c) || IsDigit(c)
    {
      ThreeRanges(c, ('A', 'Z'), ('a', 'z'), ('_', '_'));
      ThreeRanges(c, ('A', 'Z'), ('a', 'z'), ('0', '9'));
      MoreRanges(c, [('A', 'Z'), ('a', 'z'), ('0', '9')], ('_', '_'));
      assert tail.ranges == [('A', 'Z'), ('a', 'z'), ('0', '9')] + [('_', '_')];
    }
    if s != "" {
      assert forall i :: 1 <= i < |s| ==> s[i] == s[1..][i - 1];
    }
  }

  lemma GitRefIff(s: string)
    ensures A.GitRef(s) <==> Matches(GitRefRe(), s)
  {
    var head, tail := GitRefRe().first, GitRefRe().second.body;
    HeadTakes(head, tail, s);
    forall c: char
      ensures InRanges(c, head.ranges) <==> A.RefChar(c)
      ensures InRanges(c, tail.ranges) <==> A.RefChar(c) || c == '-'
    {
      ThreeRanges(c, ('A', 'Z'), ('a', 'z'), ('0', '9'));
      MoreRanges(c, [('A', 'Z'), ('a', 'z'), ('0', '9')], ('.', '.'));
      MoreRanges(c, [('A', 'Z'), ('a', 'z'), ('0', '9')] + [('.', '.')], ('_', '_'));
      MoreRanges(c, [('A', 'Z'), ('a', 'z'), ('0', '9')] + [('.', '.')] + [('_', '_')], ('/', '/'));
      assert head.ranges == [('A', 'Z'), ('a', 'z'), ('0', '9')] + [('.', '.')] + [('_', '_')] + [('/', '/')];
      MoreRanges(c, head.ranges, ('-', '-'));
      assert tail.ranges == head.ranges + [('-', '-')];
    }
    if s != "" {
      assert forall i :: 1 <= i < |s| ==> s[i] == s[1..][i - 1];
    }
  }

  lemma BindingIff(s: string)
    ensures BindingName.BindingNameRe(s) <==> Matches(BindingRe(), s)
  {
    var head, tail := BindingRe().first, BindingRe().second.body;
    HeadTakes(head, tail, s);
    forall c: char
      ensures InRanges(c, head.ranges) <==> 'A' <= c <= 'Z' || c == '_'
      ensures InRanges(c, tail.ranges) <==> 'A' <= c <= 'Z' || IsDigit(c) || c == '_'
    {
      TwoRanges(c, ('A', 'Z'), ('_', '_'));
      ThreeRanges(c, ('A', 'Z'), ('0', '9'), ('_', '_'));
    }
    if s != "" {
      assert forall i :: 1 <= i < |s| ==> s[i] == s[1..][i - 1];
    }
  }

  // ---- Slugs ----

  function AlnumRe(): Re { Class([('a', 'z'), ('0', '9')]) }

  function PartRe(): Re { Then(Lit("-"), Plus(AlnumRe())) }

  // ^[a-z0-9]+(-[a-z0-9]+)*$
  function SlugRe(): Re { Then(Plus(AlnumRe()), Star(PartRe())) }

  lemma AlnumTakes(s: string)
    ensures TakesAll(AlnumRe(), s) <==> forall i :: 0 <= i < |s| ==> Names.IsAlnum(s[i])
  {
    forall i | 0 <= i < |s| ensures Takes(AlnumRe(), s[i]) <==> Names.IsAlnum(s[i]) {
      TwoRanges(s[i], ('a', 'z'), ('0', '9'));
    }
  }

  lemma PartMatches(s: string)
    ensures Matches(PartRe(), s) <==> |s| > 1 && s[0] == '-' && TakesAll(AlnumRe(), s[1..])
  {
    if |s| > 1 && s[0] == '-' && TakesAll(AlnumRe(), s[1..]) {
      PlusTakes(AlnumRe(), s[1..]);
      assert s[..1] == "-";
      assert Matches(Lit("-"), s[..1]) && Matches(Plus(AlnumRe()), s[1..]);
    }
    if Matches(PartRe(), s) {
      var n :| 0 <= n <= |s| && Matches(Lit("-"), s[..n]) && Matches(Plus(AlnumRe()), s[n..]);
      PlusTakes(AlnumRe(), s[n..]);
      assert n == |s[..n]| == 1 && s[0] == s[..1][0];
    }
  }

  // The end of the run of slug characters that starts at i.
  function RunEnd(s: string, i: nat): (n: nat)
    requires i <= |s|
    ensures i <= n <= |s| && (n < |s| ==> !Names.IsAlnum(s[n])) && forall k :: i <= k < n ==> Names.IsAlnum(s[k])
    decreases |s| - i
  {
    if i < |s| && Names.IsAlnum(s[i]) then RunEnd(s, i + 1) else i
  }

  lemma {:induction false} FromRun(s: string, i: nat, open: bool)
    requires i <= |s|
    ensures var n := RunEnd(s, i);
      Names.SlugFrom(s, i, open) <==> Names.SlugFrom(s, n, open || n > i)
    decreases |s| - i
  {
    if i < |s| && Names.IsAlnum(s[i]) {
      FromRun(s, i + 1, true);
    }
  }

  // Past a run, the rest of a slug is empty or a hyphen with more.
  predicate Rest(s: string, i: nat)
    requires i <= |s|
  {
    i == |s| || (s[i] == '-' && Names.SlugFrom(s, i + 1, false))
  }

  lemma {:induction false} RestMatches(s: string, i: nat)
    requires i <= |s|
    ensures Matches(Star(PartRe()), s[i..]) <==> Rest(s, i)
    decreases |s| - i
  {
    if i < |s| {
      var n := RunEnd(s, i + 1);
      RestMatches(s, n);
      FromRun(s, i + 1, false);
      RestThere(s, i, n);
      RestOnly(s, i, n);
    }
  }

  lemma RestThere(s: string, i: nat, n: nat)
    requires i < |s| && n == RunEnd(s, i + 1) && (Matches(Star(PartRe()), s[n..]) <==> Rest(s, n))
    requires Names.SlugFrom(s, i + 1, false) <==> Names.SlugFrom(s, n, n > i + 1)
    ensures Rest(s, i) ==> Matches(Star(PartRe()), s[i..])
  {
    if Rest(s, i) {
      PartThere(s, i, n);
      assert s[i..][n - i..] == s[n..];
      assert Matches(PartRe(), s[i..][..n - i]);
    }
  }

  lemma RestOnly(s: string, i: nat, n: nat)
    requires i < |s| && n == RunEnd(s, i + 1) && (Matches(Star(PartRe()), s[n..]) <==> Rest(s, n))
    requires Names.SlugFrom(s, i + 1, false) <==> Names.SlugFrom(s, n, n > i + 1)
    ensures Matches(Star(PartRe()), s[i..]) ==> Rest(s, i)
  {
    if Matches(Star(PartRe()), s[i..]) {
      var m :| 0 < m <= |s| - i && Matches(PartRe(), s[i..][..m]) && Matches(Star(PartRe()), s[i..][m..]);
      assert s[i..][m..] == s[i + m..];
      PartMatches(s[i..][..m]);
      AlnumTakes(s[i..][..m][1..]);
      assert forall k :: i + 1 <= k < i + m ==> s[k] == s[i..][..m][1..][k - i - 1];
      NextIsMark(s[i + m..]);
      assert n == i + m;
    }
  }

  // What goes on after a part starts with a hyphen.
  lemma NextIsMark(s: string)
    ensures Matches(Star(PartRe()), s) && s != "" ==> s[0] == '-'
  {
    if Matches(Star(PartRe()), s) && s != "" {
      var m :| 0 < m <= |s| && Matches(PartRe(), s[..m]) && Matches(Star(PartRe()), s[m..]);
      PartMatches(s[..m]);
    }
  }

  lemma PartThere(s: string, i: nat, n: nat)
    requires i + 1 < n <= |s| && s[i] == '-' && forall k :: i + 1 <= k < n ==> Names.IsAlnum(s[k])
    ensures Matches(PartRe(), s[i..][..n - i])
  {
    var part := s[i..][..n - i];
    PartMatches(part);
    AlnumTakes(part[1..]);
    assert forall k :: 0 <= k < |part| - 1 ==> part[1..][k] == s[i + 1 + k];
    assert part[0] == s[i];
  }

  lemma SlugIff(s: string)
    ensures Names.IsSlug(s) <==> Matches(SlugRe(), s)
  {
    var n := RunEnd(s, 0);
    FromRun(s, 0, false);
    RestMatches(s, n);
    assert s[0..] == s;
    if Names.IsSlug(s) {
      PlusTakes(AlnumRe(), s[..n]);
      AlnumTakes(s[..n]);
      assert Matches(Plus(AlnumRe()), s[..n]) && Matches(Star(PartRe()), s[n..]);
    }
    if Matches(SlugRe(), s) {
      var m :| 0 <= m <= |s| && Matches(Plus(AlnumRe()), s[..m]) && Matches(Star(PartRe()), s[m..]);
      PlusTakes(AlnumRe(), s[..m]);
      AlnumTakes(s[..m]);
      RestMatches(s, m);
      assert forall k :: 0 <= k < m ==> s[k] == s[..m][k];
      assert n == m;
    }
  }

  // ---- Git URLs ----

  const BLANKS := "\t\n\U{0C}\r "

  function SolidRe(): Re { NoneOf(BLANKS) }

  // https?://\S+
  function HTTPRe(): Re { Either(Then(Lit("http://"), Plus(SolidRe())), Then(Lit("https://"), Plus(SolidRe()))) }

  // git@[^\s:]+:\S+
  function ScpRe(): Re { Then(Lit("git@"), Then(Plus(NoneOf(BLANKS + ":")), Then(Lit(":"), Plus(SolidRe())))) }

  // ssh://git@\S+/\S+
  function SSHRe(): Re { Then(Lit("ssh://git@"), Then(Plus(SolidRe()), Then(Lit("/"), Plus(SolidRe())))) }

  function GitURLRe(): Re { Either(HTTPRe(), Either(ScpRe(), SSHRe())) }

  lemma BlankIs(c: char)
    ensures c in BLANKS <==> A.Blank(c)
    ensures c in BLANKS + ":" <==> A.Blank(c) || c == ':'
  {
    assert BLANKS[0] == '\t' && BLANKS[1] == '\n' && BLANKS[2] == 12 as char && BLANKS[3] == '\r' && BLANKS[4] == ' ';
  }

  lemma SolidTakes(s: string)
    ensures TakesAll(SolidRe(), s) <==> A.NoBlank(s)
    ensures TakesAll(NoneOf(BLANKS + ":"), s) <==> A.NoBlank(s) && ':' !in s
  {
    forall i | 0 <= i < |s|
      ensures Takes(SolidRe(), s[i]) <==> !A.Blank(s[i])
      ensures Takes(NoneOf(BLANKS + ":"), s[i]) <==> !A.Blank(s[i]) && s[i] != ':'
    {
      BlankIs(s[i]);
    }
  }

  lemma SolidWhole(prefix: string, s: string)
    requires prefix <= s && A.NoBlank(prefix)
    ensures A.NoBlank(s) <==> A.NoBlank(s[|prefix|..])
  {
    assert forall i :: 0 <= i < |prefix| ==> s[i] == prefix[i];
    assert forall i :: |prefix| <= i < |s| ==> s[i] == s[|prefix|..][i - |prefix|];
  }

  lemma AfterMatches(prefix: string, rest: Re, s: string)
    ensures Matches(Then(Lit(prefix), rest), s) <==> prefix <= s && Matches(rest, s[|prefix|..])
  {
    if prefix <= s && Matches(rest, s[|prefix|..]) {
      assert s[..|prefix|] == prefix;
      assert Matches(Lit(prefix), s[..|prefix|]);
    }
    if Matches(Then(Lit(prefix), rest), s) {
      var n :| 0 <= n <= |s| && Matches(Lit(prefix), s[..n]) && Matches(rest, s[n..]);
      assert n == |prefix|;
    }
  }

  lemma SolidAfter(prefix: string, s: string)
    requires A.NoBlank(prefix)
    ensures Matches(Then(Lit(prefix), Plus(SolidRe())), s) <==> prefix <= s && |s| > |prefix| && A.NoBlank(s)
  {
    AfterMatches(prefix, Plus(SolidRe()), s);
    if prefix <= s {
      PlusTakes(SolidRe(), s[|prefix|..]);
      SolidTakes(s[|prefix|..]);
      SolidWhole(prefix, s);
    }
  }

  lemma HTTPIff(s: string)
    ensures Matches(HTTPRe(), s) <==>
      A.NoBlank(s) && (("http://" <= s && |s| > 7) || ("https://" <= s && |s| > 8))
  {
    SolidAfter("http://", s);
    SolidAfter("https://", s);
  }

  lemma MarkMatches(mark: string, s: string)
    requires |mark| == 1
    ensures Matches(Then(Lit(mark), Plus(SolidRe())), s) <==> |s| > 1 && s[0] == mark[0] && A.NoBlank(s[1..])
  {
    AfterMatches(mark, Plus(SolidRe()), s);
    if mark <= s {
      PlusTakes(SolidRe(), s[1..]);
      SolidTakes(s[1..]);
    }
  }

  lemma PartedMatches(first: Re, mark: string, s: string)
    requires Single(first) && |mark| == 1
    ensures Matches(Then(Plus(first), Then(Lit(mark), Plus(SolidRe()))), s) <==>
      exists n :: 0 < n < |s| - 1 && s[n] == mark[0] && TakesAll(first, s[..n]) && A.NoBlank(s[n + 1..])
  {
    if n :| 0 < n < |s| - 1 && s[n] == mark[0] && TakesAll(first, s[..n]) && A.NoBlank(s[n + 1..]) {
      PlusTakes(first, s[..n]);
      MarkMatches(mark, s[n..]);
      assert s[n..][1..] == s[n + 1..];
      assert Matches(Plus(first), s[..n]) && Matches(Then(Lit(mark), Plus(SolidRe())), s[n..]);
    }
    if Matches(Then(Plus(first), Then(Lit(mark), Plus(SolidRe()))), s) {
      var n :| 0 <= n <= |s| && Matches(Plus(first), s[..n]) && Matches(Then(Lit(mark), Plus(SolidRe())), s[n..]);
      PlusTakes(first, s[..n]);
      MarkMatches(mark, s[n..]);
      assert s[n..][1..] == s[n + 1..];
    }
  }

  predicate ScpTail(s: string) { A.NoBlank(s) && exists n :: 0 < n < |s| - 1 && s[n] == ':' && ':' !in s[..n] }

  predicate SSHTail(s: string) { A.NoBlank(s) && exists n :: 0 < n < |s| - 1 && s[n] == '/' }

  lemma ScpTailIff(s: string)
    ensures Matches(ScpRe().second, s) <==> ScpTail(s)
  {
    PartedMatches(NoneOf(BLANKS + ":"), ":", s);
    forall n | 0 < n < |s| - 1 && s[n] == ':'
      ensures TakesAll(NoneOf(BLANKS + ":"), s[..n]) && A.NoBlank(s[n + 1..]) <==> A.NoBlank(s) && ':' !in s[..n]
    {
      SolidTakes(s[..n]);
      SolidParts(s, n);
    }
  }

  lemma SSHTailIff(s: string)
    ensures Matches(SSHRe().second, s) <==> SSHTail(s)
  {
    PartedMatches(SolidRe(), "/", s);
    forall n | 0 < n < |s| - 1 && s[n] == '/'
      ensures TakesAll(SolidRe(), s[..n]) && A.NoBlank(s[n + 1..]) <==> A.NoBlank(s)
    {
      SolidTakes(s[..n]);
      SolidParts(s, n);
    }
  }

  lemma ScpShift(s: string, rest: string)
    requires |s| >= 4 && rest == s[4..]
    ensures (exists n :: 0 < n < |rest| - 1 && rest[n] == ':' && ':' !in rest[..n]) <==>
      exists i :: 4 < i < |s| - 1 && s[i] == ':' && ':' !in s[4..i]
  {
    if n :| 0 < n < |rest| - 1 && rest[n] == ':' && ':' !in rest[..n] {
      assert s[4 + n] == ':' && s[4..4 + n] == rest[..n];
    }
    if i :| 4 < i < |s| - 1 && s[i] == ':' && ':' !in s[4..i] {
      assert rest[i - 4] == ':' && rest[..i - 4] == s[4..i];
    }
  }

  lemma SSHShift(s: string, rest: string)
    requires |s| >= 10 && rest == s[10..]
    ensures (exists n :: 0 < n < |rest| - 1 && rest[n] == '/') <==> exists i :: 10 < i < |s| - 1 && s[i] == '/'
  {
    if n :| 0 < n < |rest| - 1 && rest[n] == '/' {
      assert s[10 + n] == '/';
    }
    if i :| 10 < i < |s| - 1 && s[i] == '/' {
      assert rest[i - 10] == '/';
    }
  }

  lemma ScpIff(s: string)
    ensures Matches(ScpRe(), s) <==>
      A.NoBlank(s) && "git@" <= s && exists i :: 4 < i < |s| - 1 && s[i] == ':' && ':' !in s[4..i]
  {
    AfterMatches("git@", ScpRe().second, s);
    if "git@" <= s {
      ScpTailIff(s[4..]);
      ScpShift(s, s[4..]);
      SolidWhole("git@", s);
    }
  }

  lemma SSHIff(s: string)
    ensures Matches(SSHRe(), s) <==>
      A.NoBlank(s) && "ssh://git@" <= s && exists i :: 10 < i < |s| - 1 && s[i] == '/'
  {
    AfterMatches("ssh://git@", SSHRe().second, s);
    if "ssh://git@" <= s {
      SSHTailIff(s[10..]);
      SSHShift(s, s[10..]);
      SolidWhole("ssh://git@", s);
    }
  }

  lemma SolidParts(s: string, n: nat)
    requires n < |s| && !A.Blank(s[n])
    ensures A.NoBlank(s) <==> A.NoBlank(s[..n]) && A.NoBlank(s[n + 1..])
  {
    assert forall i :: 0 <= i < n ==> s[i] == s[..n][i];
    assert forall i :: n < i < |s| ==> s[i] == s[n + 1..][i - n - 1];
  }

  // The check accepts exactly what the expression does.
  lemma GitURLIff(s: string)
    ensures A.GitURL(s) <==> Matches(GitURLRe(), s)
  {
    HTTPIff(s);
    ScpIff(s);
    SSHIff(s);
  }

  // ---- What a spec must be ----

  // The head of an importable spec, in plain terms.
  lemma HeadAccepted(s: A.Spec)
    ensures A.ValidHead(s) <==>
      && s.apiVersion == "vac/v1" && s.kind == "App" && TrimSpace(s.name) != ""
      && (TrimSpace(s.slug) != "" ==> |TrimSpace(s.slug)| <= 63 && Matches(SlugRe(), TrimSpace(s.slug)))
      && (if s.source.typ == "git" then
            Matches(GitURLRe(), TrimSpace(s.source.url))
            && (TrimSpace(s.source.branch) != "" ==> Matches(GitRefRe(), TrimSpace(s.source.branch)))
          else s.source.typ == "template" && TrimSpace(s.source.templateID) != "")
      && s.build.kind in {"auto", "compose", "dockerfile", "framework", "static"}
      && (s.build.kind == "framework" ==>
            s.build.framework.Some? && TrimSpace(s.build.framework.value.framework) != "" && 0 <= s.build.framework.value.port <= 65535)
  {
    SlugIff(TrimSpace(s.slug));
    GitURLIff(TrimSpace(s.source.url));
    GitRefIff(TrimSpace(s.source.branch));
    NothingTrimmed();
  }

  lemma NothingTrimmed()
    ensures TrimSpace("") == ""
  {
  }

  // Host names: a dot, at most 253 bytes, and none of these characters.
  lemma HostAccepted(raw: string)
    ensures var h := A.Folded(raw);
      A.NormalizeHostname(raw) == if '.' in h && ByteLen(h) <= 253 && NoneOfThese(h) then Some(h) else None
  {
    var h := A.Folded(raw);
    forall c: char ensures A.Forbidden(c) <==> c in " \t\n\r*/:?#@" {
      ForbiddenAre(c);
    }
  }

  predicate NoneOfThese(h: string) { forall c :: c in h ==> c !in " \t\n\r*/:?#@" }

  lemma ForbiddenAre(c: char)
    ensures A.Forbidden(c) <==> c in " \t\n\r*/:?#@"
  {
    var cs := " \t\n\r*/:?#@";
    assert cs[0] == ' ' && cs[1] == '\t' && cs[2] == '\n' && cs[3] == '\r' && cs[4] == '*';
    assert cs[5] == '/' && cs[6] == ':' && cs[7] == '?' && cs[8] == '#' && cs[9] == '@';
  }

  // A trigger is a push, a tag or a manual one; an environment value has no line break
  // and no NUL.
  lemma SmallThingsAccepted(t: A.Trigger, e: A.EnvVar)
    ensures A.ValidTrigger(t) <==> t.event in {"push", "tag", "manual"}
    ensures A.ValidEnv(e) <==> Matches(EnvKeyRe(), e.key) && forall i :: 0 <= i < |e.value| ==> e.value[i] as int !in {0, 10, 13}
  {
    EnvKeyIff(e.key);
  }

  // ---- What an import stores ----

  lemma ColumnsImported(s: A.Spec)
    ensures var row := A.ImportApp(s);
      && row.name == s.name && row.source == s.source.typ && row.buildKind == s.build.kind && row.memLimit == s.memLimit
      && row.slug == (if TrimSpace(s.slug) != "" then TrimSpace(s.slug) else Names.SlugOf(s.name))
      && row.composeFile == (if TrimSpace(s.build.composePath) != "" then TrimSpace(s.build.composePath) else "compose.yaml")
      && (if s.source.typ == "template" then row.gitURL == "" && row.gitBranch == "" && row.templateID == Some(s.source.templateID)
          else
            && row.gitURL == s.source.url && row.templateID == None
            && row.gitBranch == (if TrimSpace(s.source.branch) != "" then TrimSpace(s.source.branch) else "main"))
  {
  }

  lemma BuildImported(s: A.Spec)
    ensures A.ImportApp(s).buildConfig.Some?
    ensures var c, b := A.ImportApp(s).buildConfig.value, s.build;
      && c.composePath == "" && c.image == "" && c.allowUnsafe == b.allowUnsafe
      && c.dockerfilePath == (if b.dockerfile.Some? then b.dockerfile.value else "")
      && (b.framework.Some? ==>
            && c.framework == b.framework.value.framework && c.buildCommand == b.framework.value.buildCommand
            && c.startCommand == b.framework.value.startCommand && c.port == b.framework.value.port)
      && (b.framework.None? ==> c.framework == "" && c.buildCommand == "" && c.startCommand == "" && c.port == 0)
      && (b.static_.Some? ==> c.staticDir == b.static_.value.dir && c.spaFallback == b.static_.value.spaFallback)
      && (b.static_.None? ==> c.staticDir == "" && !c.spaFallback)
  {
  }

  lemma RowsImported(s: A.Spec, i: nat)
    ensures var rows := A.Import(s);
      && |rows.services| == |s.services| && |rows.domains| == |s.domains| && rows.triggers == s.triggers && rows.env == s.env
      && (i < |s.services| ==>
            rows.services[i] == A.ServiceRow(s.services[i].name, s.services[i].port,
                                             if s.services[i].healthPath == "" then None else Some(s.services[i].healthPath),
                                             s.services[i].isPrivate, s.services[i].requiresAuth))
      && (i < |s.domains| && A.ValidDomain(s.services, s.domains[i]) ==>
            && Some(rows.domains[i].hostname) == A.NormalizeHostname(s.domains[i].hostname)
            && rows.domains[i].service == s.domains[i].service
            && rows.domains[i].typ == (if s.domains[i].typ == "" then "custom" else s.domains[i].typ)
            && (if s.domains[i].redirectTo == "" then rows.domains[i].redirectTo == ""
                else Some(rows.domains[i].redirectTo) == A.NormalizeHostname(s.domains[i].redirectTo)))
  {
  }

  // ---- What an export lists, and in which order ----

  lemma ServicesExported(rows: A.Rows, i: nat, j: nat)
    requires A.UniqueKeys(rows) && i < j < |A.Export(rows).services|
    ensures O.Ascend(A.Export(rows).services[i].name, A.Export(rows).services[j].name)
  {
    var exported := A.ExportServices(rows.services);
    var sorted := O.Sort(exported, A.ServiceLe);
    A.ServiceLeOrders();
    O.SortSorted(exported, A.ServiceLe);
    O.SortMultiset(exported, A.ServiceLe);
    assert O.DistinctBy(exported, A.ServiceName) by {
      assert forall k :: 0 <= k < |rows.services| ==> A.ServiceName(exported[k]) == A.RowName(rows.services[k]);
    }
    O.PermutedDistinct(exported, sorted, A.ServiceName);
    assert A.ServiceLe(sorted[i], sorted[j]) && A.ServiceName(sorted[i]) != A.ServiceName(sorted[j]);
    O.LeAscends(sorted[i].name, sorted[j].name);
  }

  lemma DomainsExported(rows: A.Rows, i: nat, j: nat)
    requires A.UniqueKeys(rows) && i < j < |A.Export(rows).domains|
    ensures O.Ascend(A.Export(rows).domains[i].hostname, A.Export(rows).domains[j].hostname)
  {
    var exported := A.ExportDomains(rows.domains);
    var sorted := O.Sort(exported, A.DomainLe);
    A.DomainLeOrders();
    O.SortSorted(exported, A.DomainLe);
    O.SortMultiset(exported, A.DomainLe);
    assert O.DistinctBy(exported, A.Hostname) by {
      assert forall k :: 0 <= k < |rows.domains| ==> A.Hostname(exported[k]) == A.RowHost(rows.domains[k]);
    }
    O.PermutedDistinct(exported, sorted, A.Hostname);
    assert A.DomainLe(sorted[i], sorted[j]) && A.Hostname(sorted[i]) != A.Hostname(sorted[j]);
    O.LeAscends(sorted[i].hostname, sorted[j].hostname);
  }

  lemma EnvExported(rows: A.Rows, i: nat, j: nat)
    requires A.UniqueKeys(rows) && i < j < |A.Export(rows).env|
    ensures O.Ascend(A.Export(rows).env[i].key, A.Export(rows).env[j].key)
  {
    var sorted := O.Sort(rows.env, A.EnvLe);
    A.EnvLeOrders();
    O.SortSorted(rows.env, A.EnvLe);
    O.SortMultiset(rows.env, A.EnvLe);
    O.PermutedDistinct(rows.env, sorted, A.EnvName);
    assert A.EnvLe(sorted[i], sorted[j]) && A.EnvName(sorted[i]) != A.EnvName(sorted[j]);
    O.LeAscends(sorted[i].key, sorted[j].key);
  }
}
