// Caddy's route table as the admin API shows it: an ordered list of routes that are
// addressed by @id (caddy/client.go).
module RouteTable {
  import opened Text
  import opened ProxyModel

  type Table = seq<Route>

  predicate DistinctIDs(t: Table) { forall i, j :: 0 <= i < j < |t| ==> t[i].id != t[j].id }

  predicate HasID(t: Table, id: string) { exists i :: 0 <= i < |t| && t[i].id == id }

  function Lookup(t: Table, id: string): (r: Option<Route>)
    ensures r.Some? ==> r.value in t && r.value.id == id
    ensures r.Some? <==> HasID(t, id)
  {
    if t == [] then None else if t[0].id == id then Some(t[0]) else Lookup(t[1..], id)
  }

  // DELETE /id/{id}: removes the one route the id addresses; a missing id changes
  // nothing.
  function Delete(t: Table, id: string): (r: Table)
    ensures forall x :: x in r ==> x in t
  {
    if t == [] then [] else if t[0].id == id then t[1..] else [t[0]] + Delete(t[1..], id)
  }

  // PutRoute: delete the id, then append the route.
  function Put(t: Table, r: Route): Table { Delete(t, r.id) + [r] }

  lemma {:induction false} DeleteLookup(t: Table, id: string, k: string)
    requires DistinctIDs(t)
    ensures DistinctIDs(Delete(t, id))
    ensures Lookup(Delete(t, id), k) == if k == id then None else Lookup(t, k)
  {
    if t != [] {
      DeleteLookup(t[1..], id, k);
      if t[0].id == id {
        assert !HasID(t[1..], id);
      } else {
        var rest := Delete(t[1..], id);
        assert Delete(t, id) == [t[0]] + rest;
        forall j | 0 <= j < |rest|
          ensures rest[j].id != t[0].id
        {
          assert rest[j] in t[1..];
        }
        assert Delete(t, id)[1..] == rest;
      }
    }
  }

  lemma {:induction false} AppendLookup(t: Table, r: Route, k: string)
    ensures Lookup(t + [r], k) == if HasID(t, k) then Lookup(t, k) else if r.id == k then Some(r) else None
  {
    if t != [] {
      AppendLookup(t[1..], r, k);
      assert (t + [r])[1..] == t[1..] + [r];
      assert HasID(t, k) <==> t[0].id == k || HasID(t[1..], k);
    }
  }

  lemma PutLookup(t: Table, r: Route, k: string)
    requires DistinctIDs(t)
    ensures DistinctIDs(Put(t, r))
    ensures Lookup(Put(t, r), k) == if k == r.id then Some(r) else Lookup(t, k)
  {
    DeleteLookup(t, r.id, k);
    DeleteLookup(t, r.id, r.id);
    AppendLookup(Delete(t, r.id), r, k);
  }

  // A lost delete followed by an append that goes through leaves ids distinct exactly
  // when the id was not there to delete.
  lemma AppendDistinct(t: Table, r: Route)
    requires DistinctIDs(t)
    ensures DistinctIDs(t + [r]) <==> !HasID(t, r.id)
  {
    if HasID(t, r.id) {
      var i :| 0 <= i < |t| && t[i].id == r.id;
      assert (t + [r])[i].id == (t + [r])[|t|].id;
    }
  }

  // The sub-table outside a set of ids, in table order.
  function Without(t: Table, ids: set<string>): Table {
    if t == [] then []
    else if t[0].id in ids then Without(t[1..], ids)
    else [t[0]] + Without(t[1..], ids)
  }

  lemma {:induction false} DeleteWithout(t: Table, id: string, ids: set<string>)
    requires id in ids
    ensures Without(Delete(t, id), ids) == Without(t, ids)
  {
    if t != [] && t[0].id != id {
      DeleteWithout(t[1..], id, ids);
      assert Delete(t, id)[1..] == Delete(t[1..], id);
    }
  }

  lemma {:induction false} AppendWithout(t: Table, r: Route, ids: set<string>)
    requires r.id in ids
    ensures Without(t + [r], ids) == Without(t, ids)
  {
    if t == [] {
      assert t + [r] == [r];
    } else {
      AppendWithout(t[1..], r, ids);
      assert (t + [r])[1..] == t[1..] + [r];
    }
  }

  lemma {:induction false} WithoutMore(t: Table, u: Table, small: set<string>, large: set<string>)
    requires small <= large && Without(t, small) == Without(u, small)
    ensures Without(t, large) == Without(u, large)
  {
    WithoutTwice(t, small, large);
    WithoutTwice(u, small, large);
  }

  lemma {:induction false} WithoutTwice(t: Table, small: set<string>, large: set<string>)
    requires small <= large
    ensures Without(Without(t, small), large) == Without(t, large)
  {
    if t != [] {
      WithoutTwice(t[1..], small, large);
      if t[0].id !in small {
        assert Without(t, small)[1..] == Without(t[1..], small);
      }
    }
  }

  lemma {:induction false} LookupWithout(t: Table, ids: set<string>, k: string)
    requires k !in ids
    ensures Lookup(Without(t, ids), k) == Lookup(t, k)
  {
    if t != [] {
      LookupWithout(t[1..], ids, k);
      if t[0].id !in ids {
        assert Without(t, ids)[1..] == Without(t[1..], ids);
      }
    }
  }

  lemma {:induction false} MemberLookup(t: Table, r: Route)
    requires DistinctIDs(t) && r in t
    ensures Lookup(t, r.id) == Some(r)
  {
    if t[0] != r {
      assert r in t[1..];
      MemberLookup(t[1..], r);
    }
  }

  // Tables that agree on every id and have distinct ids hold the same routes.
  lemma SameLookupsSameRoutes(t: Table, u: Table)
    requires DistinctIDs(t) && DistinctIDs(u)
    requires forall k :: Lookup(t, k) == Lookup(u, k)
    ensures forall r :: r in t <==> r in u
  {
    forall r
      ensures r in t <==> r in u
    {
      if r in t {
        MemberLookup(t, r);
      }
      if r in u {
        MemberLookup(u, r);
      }
    }
  }
}
