// Name derivation: vac-edge aliases, Caddy route ids, automatic subdomains and
// preview slugs (proxy/network.go, proxy/hostname.go, preview/preview.go).
module Names {
  import opened Text

  const MAX_SLUG_LEN := 63
  const ROUTE_ID_PREFIX := "vac-route-"
  const AUTO_ROUTE_ID_PREFIX := "vac-auto-"
  const CONTROL_ROUTE_ID := "vac-control-route"

  // ---- The slug grammar ----

  predicate IsAlnum(c: char) { 'a' <= c <= 'z' || '0' <= c <= '9' }

  // The automaton of ^[a-z0-9]+(-[a-z0-9]+)*$ from position i; `open` says that the
  // previous character was alphanumeric, so a hyphen or the end may follow.
  predicate SlugFrom(s: string, i: nat, open: bool)
    requires i <= |s|
    decreases |s| - i
  {
    if i == |s| then open
    else if IsAlnum(s[i]) then SlugFrom(s, i + 1, true)
    else s[i] == '-' && open && SlugFrom(s, i + 1, false)
  }

  predicate IsSlug(s: string) { SlugFrom(s, 0, false) }

  // The same language described position by position: slug characters only, no
  // hyphen at either end, no two hyphens in a row.
  predicate SlugShape(s: string) {
    && s != []
    && (forall k :: 0 <= k < |s| ==> IsAlnum(s[k]) || s[k] == '-')
    && s[0] != '-' && s[|s| - 1] != '-'
    && (forall k :: 0 <= k < |s| - 1 ==> s[k] != '-' || s[k + 1] != '-')
  }

  predicate SlugShapeFrom(s: string, i: nat, open: bool)
    requires i <= |s|
  {
    && (forall k :: i <= k < |s| ==> IsAlnum(s[k]) || s[k] == '-')
    && (i == |s| ==> open)
    && (i < |s| && s[i] == '-' ==> open)
    && (i < |s| ==> s[|s| - 1] != '-')
    && (forall k :: i <= k < |s| - 1 ==> s[k] != '-' || s[k + 1] != '-')
  }

  lemma {:induction false} SlugFromShape(s: string, i: nat, open: bool)
    requires i <= |s|
    ensures SlugFrom(s, i, open) <==> SlugShapeFrom(s, i, open)
    decreases |s| - i
  {
    if i < |s| {
      SlugFromShape(s, i + 1, true);
      SlugFromShape(s, i + 1, false);
      assert SlugShapeFrom(s, i, open) ==> SlugShapeFrom(s, i + 1, IsAlnum(s[i]));
      assert SlugShapeFrom(s, i + 1, IsAlnum(s[i])) && (s[i] == '-' ==> open) && (IsAlnum(s[i]) || s[i] == '-')
        ==> SlugShapeFrom(s, i, open);
    }
  }

  lemma SlugIffShape(s: string)
    ensures IsSlug(s) <==> SlugShape(s)
  {
    SlugFromShape(s, 0, false);
  }

  // ---- vac-edge aliases ----

  function Alias(slug: string, service: string): string { slug + "--" + service }

  // A slug never holds "--", so the first double hyphen of an alias ends the slug,
  // whatever the service is called.
  lemma AliasInjective(slug1: string, service1: string, slug2: string, service2: string)
    requires IsSlug(slug1) && IsSlug(slug2)
    requires Alias(slug1, service1) == Alias(slug2, service2)
    ensures slug1 == slug2 && service1 == service2
  {
    SlugIffShape(slug1);
    SlugIffShape(slug2);
    if |slug1| < |slug2| {
      AliasLongerImpossible(slug1, service1, slug2, service2);
    } else if |slug2| < |slug1| {
      AliasLongerImpossible(slug2, service2, slug1, service1);
    } else {
      ConcatInjective(slug1 + "--", service1, slug2 + "--", service2);
      ConcatInjective(slug1, "--", slug2, "--");
    }
  }

  lemma AliasLongerImpossible(shorter: string, service1: string, longer: string, service2: string)
    requires SlugShape(longer) && |shorter| < |longer|
    ensures Alias(shorter, service1) != Alias(longer, service2)
  {
    var a, b := Alias(shorter, service1), Alias(longer, service2);
    var n := |shorter|;
    assert a[n] == '-' && a[n + 1] == '-';
    assert b[n] == longer[n];
    if n + 1 < |longer| {
      assert b[n + 1] == longer[n + 1];
    }
  }

  // The address Caddy dials for a service.
  function Dial(slug: string, service: string, port: int): string {
    Alias(slug, service) + ":" + Itoa(port)
  }

  // A dial address names exactly one app, service and port.
  lemma DialInjective(slug1: string, service1: string, port1: int, slug2: string, service2: string, port2: int)
    requires IsSlug(slug1) && IsSlug(slug2)
    requires Dial(slug1, service1, port1) == Dial(slug2, service2, port2)
    ensures slug1 == slug2 && service1 == service2 && port1 == port2
  {
    LastSeparator(Alias(slug1, service1), Itoa(port1), Alias(slug2, service2), Itoa(port2), ':');
    ItoaInjective(port1, port2);
    AliasInjective(slug1, service1, slug2, service2);
  }

  // ---- Caddy route ids ----

  function RouteID(domainID: string): string { ROUTE_ID_PREFIX + domainID }

  function AutoRouteID(appID: string, service: string): string { AUTO_ROUTE_ID_PREFIX + appID + "-" + service }

  predicate IsManagedRouteID(id: string) {
    HasPrefix(id, ROUTE_ID_PREFIX) || HasPrefix(id, AUTO_ROUTE_ID_PREFIX)
  }

  lemma RouteIDInjective(d1: string, d2: string)
    requires RouteID(d1) == RouteID(d2)
    ensures d1 == d2
  {
    ConcatInjective(ROUTE_ID_PREFIX, d1, ROUTE_ID_PREFIX, d2);
  }

  // Custom-domain ids, auto-host ids and the control id never meet, and the managed
  // test covers exactly the first two kinds.
  lemma RouteIDKindsDisjoint(d: string, appID: string, service: string)
    ensures RouteID(d) != AutoRouteID(appID, service)
    ensures RouteID(d) != CONTROL_ROUTE_ID && AutoRouteID(appID, service) != CONTROL_ROUTE_ID
    ensures IsManagedRouteID(RouteID(d)) && IsManagedRouteID(AutoRouteID(appID, service))
    ensures !IsManagedRouteID(CONTROL_ROUTE_ID)
  {
    assert RouteID(d)[4] == 'r';
    assert AutoRouteID(appID, service)[4] == 'a';
    assert CONTROL_ROUTE_ID[4] == 'c';
    assert ROUTE_ID_PREFIX[4] == 'r' && AUTO_ROUTE_ID_PREFIX[4] == 'a';
    assert AutoRouteID(appID, service) == AUTO_ROUTE_ID_PREFIX + (appID + "-" + service);
  }

  // App ids are UUIDs, all of one length; that is what keeps two auto ids apart.
  lemma AutoRouteIDInjective(app1: string, s1: string, app2: string, s2: string)
    requires |app1| == |app2|
    requires AutoRouteID(app1, s1) == AutoRouteID(app2, s2)
    ensures app1 == app2 && s1 == s2
  {
    ConcatInjective(AUTO_ROUTE_ID_PREFIX + app1 + "-", s1, AUTO_ROUTE_ID_PREFIX + app2 + "-", s2);
    ConcatInjective(AUTO_ROUTE_ID_PREFIX + app1, "-", AUTO_ROUTE_ID_PREFIX + app2, "-");
    ConcatInjective(AUTO_ROUTE_ID_PREFIX, app1, AUTO_ROUTE_ID_PREFIX, app2);
  }

  // Without the fixed length the ids can collide.
  lemma AutoRouteIDNeedsEqualLengths()
    ensures AutoRouteID("a", "b-c") == AutoRouteID("a-b", "c")
  {
  }

  // ---- Automatic subdomains ----

  function AutoSubdomain(slug: string, service: string, base: string, multi: bool): string {
    if base == "" then ""
    else if multi then service + "." + slug + "." + base
    else slug + "." + base
  }

  lemma SubdomainSplit(slug: string, service: string, base: string, multi: bool)
    requires base != ""
    ensures AutoSubdomain(slug, service, base, multi) == (if multi then service + "." + slug else slug) + ("." + base)
  {
    assert service + "." + slug + "." + base == (service + "." + slug) + ("." + base);
  }

  lemma DottedIsNoSlug(service: string, slug: string, other: string)
    requires IsSlug(other)
    ensures service + "." + slug != other
  {
    SlugIffShape(other);
    assert (service + "." + slug)[|service|] == '.';
  }

  // Under one base domain a derived host determines its app, and within a
  // multi-service app its service, even when the two host shapes are mixed.
  lemma AutoSubdomainInjective(slug1: string, s1: string, multi1: bool, slug2: string, s2: string, multi2: bool, base: string)
    requires base != "" && IsSlug(slug1) && IsSlug(slug2)
    requires AutoSubdomain(slug1, s1, base, multi1) == AutoSubdomain(slug2, s2, base, multi2)
    ensures slug1 == slug2 && multi1 == multi2 && (multi1 ==> s1 == s2)
  {
    SlugIffShape(slug1);
    SlugIffShape(slug2);
    var a := if multi1 then s1 + "." + slug1 else slug1;
    var b := if multi2 then s2 + "." + slug2 else slug2;
    SubdomainSplit(slug1, s1, base, multi1);
    SubdomainSplit(slug2, s2, base, multi2);
    ConcatInjective(a, "." + base, b, "." + base);
    if multi1 && multi2 {
      LastSeparator(s1, slug1, s2, slug2, '.');
    } else if multi1 {
      DottedIsNoSlug(s1, slug1, slug2);
    } else if multi2 {
      DottedIsNoSlug(s2, slug2, slug1);
    }
  }

  lemma SlugFolds(slug: string)
    requires IsSlug(slug)
    ensures Fold(slug) == slug
  {
    SlugIffShape(slug);
    assert forall i :: 0 <= i < |slug| ==> Fold(slug)[i] == slug[i];
  }

  lemma FoldSubdomain(slug: string, service: string, base: string, multi: bool)
    requires IsSlug(slug) && base != ""
    ensures Fold(AutoSubdomain(slug, service, base, multi)) == AutoSubdomain(slug, Fold(service), Fold(base), multi)
  {
    SlugFolds(slug);
    assert Fold(".") == ".";
    FoldConcat(service, ".");
    FoldConcat(service + ".", slug);
    FoldConcat(service + "." + slug, ".");
    FoldConcat(service + "." + slug + ".", base);
    FoldConcat(slug, ".");
    FoldConcat(slug + ".", base);
  }

  // Not even up to case can two apps share a derived host.
  lemma FoldedSubdomainInjective(slug1: string, s1: string, multi1: bool, slug2: string, s2: string, multi2: bool, base: string)
    requires base != "" && IsSlug(slug1) && IsSlug(slug2)
    requires EqualFold(AutoSubdomain(slug1, s1, base, multi1), AutoSubdomain(slug2, s2, base, multi2))
    ensures slug1 == slug2
  {
    FoldSubdomain(slug1, s1, base, multi1);
    FoldSubdomain(slug2, s2, base, multi2);
    AutoSubdomainInjective(slug1, Fold(s1), multi1, slug2, Fold(s2), multi2, Fold(base));
  }

  // ---- Preview slugs ----

  // The state after reading a prefix of the branch name: what was written and
  // whether the last thing written was a hyphen (initially true, so that no leading
  // hyphen is written).
  function SlugifyStep(out: string, lastHyphen: bool, c: char): (string, bool) {
    if IsAlnum(c) then (out + [c], false)
    else if !lastHyphen then (out + "-", true)
    else (out, lastHyphen)
  }

  // What the loop's buffer always looks like: slug characters, no leading or doubled
  // hyphen, and the flag telling the truth about the last character.
  predicate Written(out: string, lastHyphen: bool) {
    && (forall k :: 0 <= k < |out| ==> IsAlnum(out[k]) || out[k] == '-')
    && (forall k :: 0 <= k < |out| - 1 ==> out[k] != '-' || out[k + 1] != '-')
    && (out != [] ==> out[0] != '-')
    && (lastHyphen <==> out == [] || out[|out| - 1] == '-')
  }

  lemma StepWritten(out: string, lastHyphen: bool, c: char)
    requires Written(out, lastHyphen)
    ensures Written(SlugifyStep(out, lastHyphen, c).0, SlugifyStep(out, lastHyphen, c).1)
  {
  }

  lemma StepKeeps(out: string, lastHyphen: bool, c: char)
    ensures Kept(SlugifyStep(out, lastHyphen, c).0) == Kept(out + [c])
  {
    KeptSnoc(out, c);
    KeptSnoc(out, '-');
  }

  function TrimRightHyphens(s: string): (r: string)
    ensures r <= s
    ensures r == [] || r[|r| - 1] != '-'
    ensures forall k :: |r| <= k < |s| ==> s[k] == '-'
  {
    if s != [] && s[|s| - 1] == '-' then TrimRightHyphens(s[..|s| - 1]) else s
  }

  // The alphanumeric characters of a name, in order: what a slug keeps of it.
  function Kept(s: string): string {
    if s == [] then []
    else Kept(s[..|s| - 1]) + (if IsAlnum(s[|s| - 1]) then [s[|s| - 1]] else [])
  }

  lemma KeptSnoc(s: string, c: char)
    ensures Kept(s + [c]) == Kept(s) + (if IsAlnum(c) then [c] else [])
  {
    assert (s + [c])[..|s + [c]| - 1] == s;
  }

  lemma {:induction false} KeptTrim(s: string)
    ensures Kept(TrimRightHyphens(s)) == Kept(s)
  {
    if s != [] && s[|s| - 1] == '-' {
      KeptTrim(s[..|s| - 1]);
    }
  }

  lemma WrittenTrimmed(out: string, lastHyphen: bool)
    requires Written(out, lastHyphen)
    ensures TrimRightHyphens(out) == [] || IsSlug(TrimRightHyphens(out))
  {
    var r := TrimRightHyphens(out);
    if r != [] {
      assert r[0] == out[0];
      SlugIffShape(r);
    }
  }

  // The buffer and flag after the whole of a text.
  function Slugged(s: string): (string, bool) {
    if s == [] then ("", true)
    else
      var before := Slugged(s[..|s| - 1]);
      SlugifyStep(before.0, before.1, s[|s| - 1])
  }

  lemma {:induction false} SluggedWritten(s: string)
    ensures Written(Slugged(s).0, Slugged(s).1) && Kept(Slugged(s).0) == Kept(s)
  {
    if s != [] {
      var before := Slugged(s[..|s| - 1]);
      SluggedWritten(s[..|s| - 1]);
      StepWritten(before.0, before.1, s[|s| - 1]);
      StepKeeps(before.0, before.1, s[|s| - 1]);
      KeptSnoc(before.0, s[|s| - 1]);
    }
  }

  function SlugOf(name: string): string { TrimRightHyphens(Slugged(ToLower(name)).0) }

  // The result is empty or a valid slug, and it keeps exactly the alphanumeric
  // characters of the lower-cased name.
  lemma SlugOfIsSlug(name: string)
    ensures SlugOf(name) == [] || IsSlug(SlugOf(name))
    ensures Kept(SlugOf(name)) == Kept(ToLower(name))
  {
    var lower := ToLower(name);
    SluggedWritten(lower);
    KeptTrim(Slugged(lower).0);
    WrittenTrimmed(Slugged(lower).0, Slugged(lower).1);
  }

  // ---- What a slug is made of ----

  predicate SlugChars(s: string) { forall k :: 0 <= k < |s| ==> 'a' <= s[k] <= 'z' || '0' <= s[k] <= '9' }

  predicate NoSlugChars(s: string) { forall k :: 0 <= k < |s| ==> !('a' <= s[k] <= 'z' || '0' <= s[k] <= '9') }

  // A text cut into words of slug characters and the gaps around them: gaps[i] stands
  // before words[i], the last gap after all of them, and only the outer gaps may be empty.
  predicate Cut(s: string, words: seq<string>, gaps: seq<string>) {
    && |gaps| == |words| + 1 && Laid(words, gaps) == s
    && (forall i :: 0 <= i < |words| ==> words[i] != "" && SlugChars(words[i]))
    && (forall i :: 0 <= i < |gaps| ==> NoSlugChars(gaps[i]))
    && (forall i :: 0 < i < |words| ==> gaps[i] != "")
  }

  function Laid(words: seq<string>, gaps: seq<string>): string
    requires |gaps| == |words| + 1
  {
    if words == [] then gaps[0]
    else Laid(words[..|words| - 1], gaps[..|words|]) + words[|words| - 1] + gaps[|words|]
  }

  function Hyphenated(words: seq<string>): string {
    if words == [] then ""
    else if |words| == 1 then words[0]
    else Hyphenated(words[..|words| - 1]) + "-" + words[|words| - 1]
  }

  // The buffer after a text that is cut so.
  predicate Buffered(buffer: (string, bool), words: seq<string>, gaps: seq<string>)
    requires |gaps| == |words| + 1
  {
    if words == [] then buffer == ("", true)
    else if gaps[|words|] == "" then buffer == (Hyphenated(words), false)
    else buffer == (Hyphenated(words) + "-", true)
  }

  lemma LaidLast(words: seq<string>, gaps: seq<string>, gap: string)
    requires |gaps| == |words| + 1
    ensures Laid(words, gaps[|words| := gaps[|words|] + gap]) == Laid(words, gaps) + gap
  {
    var more := gaps[|words| := gaps[|words|] + gap];
    assert words != [] ==> more[..|words|] == gaps[..|words|];
  }

  lemma CutGap(s: string, c: char, words: seq<string>, gaps: seq<string>) returns (after: seq<string>)
    requires Cut(s, words, gaps) && NoSlugChars([c]) && Buffered(Slugged(s), words, gaps)
    ensures Cut(s + [c], words, after) && Buffered(Slugged(s + [c]), words, after)
  {
    var n := |words|;
    assert !IsAlnum([c][0]);
    after := gaps[n := gaps[n] + [c]];
    LaidLast(words, gaps, [c]);
    assert (s + [c])[..|s|] == s;
  }

  lemma CutNewWord(s: string, c: char, words: seq<string>, gaps: seq<string>) returns (ws: seq<string>, gs: seq<string>)
    requires Cut(s, words, gaps) && SlugChars([c]) && Buffered(Slugged(s), words, gaps)
    requires words == [] || gaps[|words|] != ""
    ensures Cut(s + [c], ws, gs) && Buffered(Slugged(s + [c]), ws, gs)
  {
    ws, gs := words + [[c]], gaps + [""];
    assert IsAlnum([c][0]);
    assert ws[..|words|] == words && gs[..|words| + 1] == gaps;
    assert Laid(ws, gs) == s + [c] + "";
    assert gs[|ws|] == "";
    assert Hyphenated(ws) == if words == [] then [c] else Hyphenated(words) + "-" + [c];
    assert (s + [c])[..|s|] == s;
    assert Slugged(s + [c]) == (Slugged(s).0 + [c], false);
    assert words == [] ==> Slugged(s).0 + [c] == [c];
  }

  lemma CutSameWord(s: string, c: char, words: seq<string>, gaps: seq<string>) returns (ws: seq<string>)
    requires Cut(s, words, gaps) && SlugChars([c]) && Buffered(Slugged(s), words, gaps)
    requires words != [] && gaps[|words|] == ""
    ensures Cut(s + [c], ws, gaps) && Buffered(Slugged(s + [c]), ws, gaps)
  {
    var n := |words| - 1;
    ws := words[n := words[n] + [c]];
    assert IsAlnum([c][0]);
    assert ws[..n] == words[..n];
    assert Laid(ws, gaps) == Laid(words[..n], gaps[..|words|]) + (words[n] + [c]) + "";
    assert Laid(words, gaps) == Laid(words[..n], gaps[..|words|]) + words[n] + "";
    assert Hyphenated(ws) == Hyphenated(words) + [c];
    assert (s + [c])[..|s|] == s;
  }

  lemma {:induction false} CutOf(s: string) returns (words: seq<string>, gaps: seq<string>)
    ensures Cut(s, words, gaps) && Buffered(Slugged(s), words, gaps)
  {
    if s == "" {
      words, gaps := [], [""];
    } else {
      var front, c := s[..|s| - 1], s[|s| - 1];
      assert front + [c] == s;
      words, gaps := CutOf(front);
      if IsAlnum(c) {
        if words == [] || gaps[|words|] != "" {
          words, gaps := CutNewWord(front, c, words, gaps);
        } else {
          words := CutSameWord(front, c, words, gaps);
        }
      } else {
        gaps := CutGap(front, c, words, gaps);
      }
    }
  }

  lemma HyphenatedEnd(words: seq<string>)
    requires words != [] && forall i :: 0 <= i < |words| ==> words[i] != "" && SlugChars(words[i])
    ensures Hyphenated(words) != "" && Hyphenated(words)[|Hyphenated(words)| - 1] != '-'
  {
    var last := words[|words| - 1];
    assert last[|last| - 1] != '-';
  }

  // The slug of a name: the runs of letters and digits of its lower-case form, in order
  // and whole, with one hyphen wherever something was dropped between two of them.
  lemma SlugIsWords(name: string) returns (words: seq<string>, gaps: seq<string>)
    ensures Cut(ToLower(name), words, gaps) && SlugOf(name) == Hyphenated(words)
  {
    words, gaps := CutOf(ToLower(name));
    var out := Slugged(ToLower(name)).0;
    if words != [] {
      HyphenatedEnd(words);
      if gaps[|words|] != "" {
        assert out[..|out| - 1] == Hyphenated(words);
      }
    }
  }

  // slugify, and appspec's DeriveSlug, which repeats it.
  method Slugify(name: string) returns (slug: string)
    ensures slug == SlugOf(name)
    ensures slug == [] || IsSlug(slug)
    ensures Kept(slug) == Kept(ToLower(name))
  {
    var lower := ToLower(name);
    var out, lastHyphen := "", true;
    for i := 0 to |lower|
      invariant (out, lastHyphen) == Slugged(lower[..i])
    {
      assert lower[..i + 1][..i] == lower[..i];
      var next := SlugifyStep(out, lastHyphen, lower[i]);
      out, lastHyphen := next.0, next.1;
    }
    assert lower[..|lower|] == lower;
    slug := TrimRightHyphens(out);
    SlugOfIsSlug(name);
  }

  // A hyphen joins two slugs into a slug.
  lemma JoinSlugs(a: string, b: string)
    requires IsSlug(a) && IsSlug(b)
    ensures IsSlug(a + "-" + b)
  {
    SlugIffShape(a);
    SlugIffShape(b);
    var s := a + "-" + b;
    assert s[|a|] == '-';
    assert forall k :: 0 <= k < |a| ==> s[k] == a[k];
    assert forall k :: |a| < k < |s| ==> s[k] == b[k - |a| - 1];
    SlugIffShape(s);
  }

  lemma TrimmedPrefixIsSlug(b: string, n: nat)
    requires IsSlug(b) && n <= |b|
    ensures TrimRightHyphens(b[..n]) == [] || IsSlug(TrimRightHyphens(b[..n]))
  {
    SlugIffShape(b);
    SlugIffShape(TrimRightHyphens(b[..n]));
  }

  lemma {:induction false} PlainBytes(s: string)
    requires forall k :: 0 <= k < |s| ==> IsAlnum(s[k]) || s[k] == '-'
    ensures ByteLen(s) == |s|
  {
    if s != [] {
      PlainBytes(s[..|s| - 1]);
    }
  }

  // A slug has as many bytes as characters.
  lemma SlugBytes(s: string)
    requires IsSlug(s)
    ensures ByteLen(s) == |s|
  {
    SlugIffShape(s);
    PlainBytes(s);
  }

  // The slug is the parent, a hyphen and the front of the branch's slug: all of it when 63
  // bytes hold that, and else what they hold less a hyphen at the end.
  predicate Budgeted(parent: string, branchSlug: string, slug: string) {
    var room := 63 - ByteLen(parent) - 1;
    exists n :: 0 < n <= |branchSlug| && slug == parent + "-" + branchSlug[..n]
      && (if |branchSlug| <= room then n == |branchSlug|
          else n <= room && branchSlug[n - 1] != '-' && forall k :: n <= k < room ==> branchSlug[k] == '-')
  }

  // DeriveSlug: every nonempty preview slug of a valid parent is itself a valid slug
  // of at most 63 characters under the parent's name, and the empty answer comes
  // exactly when the branch has nothing to keep or the parent leaves no room.
  method DeriveSlug(parentSlug: string, branch: string) returns (slug: string)
    ensures IsSlug(parentSlug) && slug != "" ==> IsSlug(slug) && ByteLen(slug) <= MAX_SLUG_LEN && HasPrefix(slug, parentSlug + "-")
    ensures slug == "" <==> Kept(ToLower(branch)) == [] || ByteLen(parentSlug) >= MAX_SLUG_LEN - 1
    ensures slug != "" ==> Budgeted(parentSlug, SlugOf(branch), slug)
  {
    var bs := Slugify(branch);
    if bs == "" {
      return "";
    }
    SlugIffShape(bs);
    KeptNonempty(bs);
    var budget := MAX_SLUG_LEN - ByteLen(parentSlug) - 1;
    if budget <= 0 {
      return "";
    }
    if |bs| > budget {
      TrimmedPrefixIsSlug(bs, budget);
      assert bs[..budget][0] == bs[0];
      bs := TrimRightHyphens(bs[..budget]);
    }
    if bs == "" {
      return "";
    }
    slug := parentSlug + "-" + bs;
    assert SlugOf(branch)[..|bs|] == bs;
    if IsSlug(parentSlug) {
      SlugBytes(parentSlug);
      JoinSlugs(parentSlug, bs);
      SlugBytes(slug);
    }
  }

  lemma {:induction false} KeptNonempty(s: string)
    requires s != [] && IsAlnum(s[0])
    ensures Kept(s) != []
  {
    if |s| > 1 {
      KeptNonempty(s[..|s| - 1]);
    }
  }
}
