// Binding names of managed databases (dbprovision/provisioner.go): which env var a
// database's connection string is injected as, and why the suffix search ends.
module BindingName {
  import opened Text

  datatype Resolution = Name(name: string) | Conflict | Invalid

  // ^[A-Z_][A-Z0-9_]*$
  predicate BindingNameRe(s: string) {
    && s != []
    && ('A' <= s[0] <= 'Z' || s[0] == '_')
    && forall i :: 1 <= i < |s| ==> 'A' <= s[i] <= 'Z' || IsDigit(s[i]) || s[i] == '_'
  }

  // The names tried in turn when none is requested: DATABASE_URL, then
  // DATABASE_URL_<ENGINE>, then DATABASE_URL_2, DATABASE_URL_3, ...
  function Candidate(base: string, engine: string, k: nat): string {
    if k == 0 then base
    else if k == 1 then base + "_" + engine
    else base + "_" + Itoa(k)
  }

  // base and its numbered variants up to i, exclusive.
  function Numbered(base: string, i: nat): set<string>
    requires i >= 2
  {
    if i == 2 then {base} else Numbered(base, i - 1) + {base + "_" + Itoa(i - 1)}
  }

  lemma {:induction false} NumberedFresh(base: string, i: nat, k: nat)
    requires 2 <= i <= k
    ensures base + "_" + Itoa(k) !in Numbered(base, i)
  {
    if i > 2 {
      NumberedFresh(base, i - 1, k);
      if base + "_" + Itoa(k) == base + "_" + Itoa(i - 1) {
        ConcatInjective(base + "_", Itoa(k), base + "_", Itoa(i - 1));
        ItoaInjective(k, i - 1);
        assert false;
      }
    }
  }

  // The numbered variants are pairwise different, so there are as many as it looks.
  lemma {:induction false} NumberedCount(base: string, i: nat)
    requires i >= 2
    ensures |Numbered(base, i)| == i - 1
  {
    if i > 2 {
      NumberedCount(base, i - 1);
      NumberedFresh(base, i - 1, i - 1);
    }
  }

  lemma {:induction false} SubsetCount<T>(a: set<T>, b: set<T>)
    requires a <= b
    ensures |a| <= |b|
  {
    if a != {} {
      var x :| x in a;
      SubsetCount(a - {x}, b - {x});
    }
  }

  lemma {:induction false} ElementCount<T>(s: seq<T>, elems: set<T>)
    requires forall x :: x in elems ==> x in s
    ensures |elems| <= |s|
  {
    if s == [] {
      assert elems == {};
    } else {
      var rest := elems - {s[0]};
      forall x | x in rest
        ensures x in s[1..]
      {
      }
      ElementCount(s[1..], rest);
      SubsetCount(elems, rest + {s[0]});
    }
  }

  // A suffix search that has found every earlier candidate taken cannot have run past
  // one more than the number of databases.
  lemma SearchBound(existing: seq<string>, base: string, i: nat)
    requires i >= 2
    requires forall x :: x in Numbered(base, i) ==> x in existing
    ensures i <= |existing| + 1
  {
    NumberedCount(base, i);
    ElementCount(existing, Numbered(base, i));
  }

  // The loop that collects the names of the app's other databases.
  method NamesUsed(existing: seq<string>) returns (used: set<string>)
    ensures forall x :: x in used <==> x in existing
  {
    used := {};
    for n := 0 to |existing|
      invariant forall x :: x in used <==> x in existing[..n]
    {
      used := used + {existing[n]};
    }
    assert existing[..|existing|] == existing;
  }

  // resolveBindingName: an explicit name is validated and refused when taken; with no
  // name the first unused candidate is returned, found within |existing| + 2 tries.
  method ResolveBindingName(existing: seq<string>, base: string, engine: string, requested: string)
    returns (r: Resolution, ghost tried: nat)
    ensures requested != "" ==>
      r == (if !BindingNameRe(requested) then Invalid else if requested in existing then Conflict else Name(requested))
    ensures requested == "" ==>
      && r == Name(Candidate(base, engine, tried)) && r.name !in existing
      && tried <= |existing| + 1
      && forall k :: 0 <= k < tried ==> Candidate(base, engine, k) in existing
    ensures requested == "" ==>
      if base !in existing then r == Name(base)
      else if base + "_" + engine !in existing then r == Name(base + "_" + engine)
      else exists k :: k >= 2 && r == Name(base + "_" + Itoa(k)) && base + "_" + Itoa(k) !in existing
             && forall j :: 2 <= j < k ==> base + "_" + Itoa(j) in existing
  {
    tried := 0;
    var used := NamesUsed(existing);
    if requested != "" {
      if !BindingNameRe(requested) {
        return Invalid, 0;
      }
      if requested in used {
        return Conflict, 0;
      }
      return Name(requested), 0;
    }
    if base !in used {
      return Name(base), 0;
    }
    var suffixed := base + "_" + engine;
    if suffixed !in used {
      return Name(suffixed), 1;
    }
    var i := 2;
    SearchBound(existing, base, i);
    while true
      invariant 2 <= i <= |existing| + 1
      invariant forall x :: x in Numbered(base, i) ==> x in existing
      invariant forall k :: 0 <= k < i ==> Candidate(base, engine, k) in existing
      invariant forall j :: 2 <= j < i ==> base + "_" + Itoa(j) in existing
      decreases |existing| + 1 - i
    {
      var cand := base + "_" + Itoa(i);
      if cand !in used {
        return Name(cand), i;
      }
      i := i + 1;
      SearchBound(existing, base, i);
    }
  }
}
