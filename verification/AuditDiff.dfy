// The environment diff of an audit entry (auditdiff/auditdiff.go): one row per key,
// plaintext only for keys that are not secret, everything else masked.
module AuditDiff {
  import opened Text
  import opened Ordering

  type Sealed = string

  datatype Side = Side(sealed: Sealed, sensitive: bool, writeOnly: bool)
  {
    predicate Secret() { sensitive || writeOnly }
  }

  type Sides = map<string, Side>

  // value is None when the snapshot's base64 does not decode.
  datatype SnapshotEntry = SnapshotEntry(key: string, value: Option<Sealed>, sensitive: bool, writeOnly: bool)
  datatype EnvVar = EnvVar(key: string, value: Sealed, sensitive: bool, writeOnly: bool)

  datatype Status = Added | Removed | Changed | Unchanged
  datatype Row = Row(name: string, status: Status, before: Option<string>, after: Option<string>, masked: bool)

  datatype Result<T> = Ok(value: T) | NotDiffable | StoreError

  // The master key's box: what Open makes of a sealed value; None when there is no box.
  type Opener = Sealed -> Option<string>
  datatype Box = NoBox | Box(open: Opener)
  {
    function Reveal(sealed: Sealed): Option<string> { if NoBox? then None else open(sealed) }
  }

  // ---- One key ----

  function Find(sides: Sides, key: string): Option<Side> { if key in sides then Some(sides[key]) else None }

  predicate SecretSide(side: Option<Side>) { side.Some? && side.value.Secret() }

  // The key is secret on some side it appears on.
  predicate Hidden(bef: Option<Side>, cur: Option<Side>) { SecretSide(bef) || SecretSide(cur) }

  function SealedStatus(a: Sealed, b: Sealed): Status { if a == b then Unchanged else Changed }

  function RowFor(box: Box, key: string, bef: Option<Side>, cur: Option<Side>): Row
    requires bef.Some? || cur.Some?
  {
    var revealable := box.Box? && !Hidden(bef, cur);
    if cur.None? then
      var p := if revealable then box.Reveal(bef.value.sealed) else None;
      Row(key, Removed, p, None, p.None?)
    else if bef.None? then
      var p := if revealable then box.Reveal(cur.value.sealed) else None;
      Row(key, Added, None, p, p.None?)
    else
      var flipped := bef.value.sensitive != cur.value.sensitive || bef.value.writeOnly != cur.value.writeOnly;
      if revealable && !flipped then
        var bp, cp := box.Reveal(bef.value.sealed), box.Reveal(cur.value.sealed);
        if bp.Some? && cp.Some? then Row(key, if bp == cp then Unchanged else Changed, bp, cp, false)
        else Row(key, SealedStatus(bef.value.sealed, cur.value.sealed), None, None, true)
      else
        Row(key, if flipped then Changed else SealedStatus(bef.value.sealed, cur.value.sealed), None, None, true)
  }

  // ---- The rows ----

  function Rank(s: Status): int { if s == Unchanged then 1 else 0 }

  predicate RowLe(a: Row, b: Row) {
    if Rank(a.status) != Rank(b.status) then Rank(a.status) < Rank(b.status) else Le(a.name, b.name)
  }

  function NameOf(row: Row): string { row.name }

  predicate DistinctNames(rows: seq<Row>) { DistinctBy(rows, NameOf) }

  predicate Named(rows: seq<Row>, key: string) { exists i :: 0 <= i < |rows| && rows[i].name == key }

  // Every key of either side has exactly one row, each row is its key's, and they are
  // in display order.
  ghost predicate IsDiff(box: Box, bef: Sides, cur: Sides, rows: seq<Row>) {
    && Sorted(rows, RowLe) && DistinctNames(rows)
    && (forall k: string :: Named(rows, k) <==> k in bef || k in cur)
    && RowsMatch(box, bef, cur, rows)
  }

  ghost predicate RowsMatch(box: Box, bef: Sides, cur: Sides, rows: seq<Row>) {
    forall i :: 0 <= i < |rows| ==> RowMatches(box, bef, cur, rows[i])
  }

  ghost predicate RowMatches(box: Box, bef: Sides, cur: Sides, row: Row) {
    (row.name in bef || row.name in cur) && row == RowFor(box, row.name, Find(bef, row.name), Find(cur, row.name))
  }

  lemma RowLeOrders()
    ensures Total(RowLe) && Transitive(RowLe)
  {
    forall x: Row, y: Row ensures RowLe(x, y) || RowLe(y, x) {
      LeTotal(x.name, y.name);
    }
    forall x: Row, y: Row, z: Row | RowLe(x, y) && RowLe(y, z) ensures RowLe(x, z) {
      if Rank(x.status) == Rank(y.status) == Rank(z.status) {
        LeTransitive(x.name, y.name, z.name);
      }
    }
  }

  // ---- Building it ----

  // The last entry for a key wins.
  function SnapshotSides(entries: seq<SnapshotEntry>): Option<Sides> {
    if entries == [] then Some(map[])
    else
      var e, before := entries[|entries| - 1], SnapshotSides(entries[..|entries| - 1]);
      if before.None? || e.value.None? then None else Some(before.value[e.key := Side(e.value.value, e.sensitive, e.writeOnly)])
  }

  function CurrentSides(vars: seq<EnvVar>): Sides {
    if vars == [] then map[]
    else
      var v := vars[|vars| - 1];
      CurrentSides(vars[..|vars| - 1])[v.key := Side(v.value, v.sensitive, v.writeOnly)]
  }

  lemma {:induction false} BadPrefix(entries: seq<SnapshotEntry>, n: nat)
    requires n <= |entries| && SnapshotSides(entries[..n]).None?
    ensures SnapshotSides(entries).None?
  {
    if n < |entries| {
      assert entries[..|entries| - 1][..n] == entries[..n];
      BadPrefix(entries[..|entries| - 1], n);
    } else {
      assert entries[..n] == entries;
    }
  }

  // diffEnv. snapshot is None when its JSON does not parse, current when the store fails.
  method DiffEnv(box: Box, appID: string, snapshot: Option<seq<SnapshotEntry>>, current: Option<seq<EnvVar>>)
      returns (r: Result<seq<Row>>)
    ensures appID == "" || snapshot.None? || SnapshotSides(snapshot.value).None? ==> r == NotDiffable
    ensures appID != "" && snapshot.Some? && SnapshotSides(snapshot.value).Some? && current.None? ==> r == StoreError
    ensures appID != "" && snapshot.Some? && SnapshotSides(snapshot.value).Some? && current.Some? ==>
      r.Ok? && IsDiff(box, SnapshotSides(snapshot.value).value, CurrentSides(current.value), r.value)
  {
    if appID == "" || snapshot.None? {
      return NotDiffable;
    }
    var bef: Sides := map[];
    for n := 0 to |snapshot.value|
      invariant SnapshotSides(snapshot.value[..n]) == Some(bef)
    {
      var e := snapshot.value[n];
      assert snapshot.value[..n + 1][..n] == snapshot.value[..n];
      if e.value.None? {
        BadPrefix(snapshot.value, n + 1);
        return NotDiffable;
      }
      bef := bef[e.key := Side(e.value.value, e.sensitive, e.writeOnly)];
    }
    assert snapshot.value[..|snapshot.value|] == snapshot.value;
    if current.None? {
      return StoreError;
    }
    var cur := ReadCurrent(current.value);
    var rows := BuildRows(box, bef, cur);
    r := Ok(rows);
  }

  method ReadCurrent(vars: seq<EnvVar>) returns (cur: Sides)
    ensures cur == CurrentSides(vars)
  {
    cur := map[];
    for n := 0 to |vars|
      invariant cur == CurrentSides(vars[..n])
    {
      assert vars[..n + 1][..n] == vars[..n];
      cur := cur[vars[n].key := Side(vars[n].value, vars[n].sensitive, vars[n].writeOnly)];
    }
    assert vars[..|vars|] == vars;
  }

  // unionKeys: map iteration, in any order.
  method UnionKeys(bef: Sides, cur: Sides) returns (keys: seq<string>)
    ensures forall i, j :: 0 <= i < j < |keys| ==> keys[i] != keys[j]
    ensures forall k: string :: k in keys <==> k in bef || k in cur
  {
    keys := [];
    var left := bef.Keys + cur.Keys;
    while left != {}
      invariant left <= bef.Keys + cur.Keys
      invariant forall i, j :: 0 <= i < j < |keys| ==> keys[i] != keys[j]
      invariant forall k: string :: k in keys <==> k in bef.Keys + cur.Keys && k !in left
    {
      var k :| k in left;
      keys := keys + [k];
      left := left - {k};
    }
  }

  method BuildRows(box: Box, bef: Sides, cur: Sides) returns (rows: seq<Row>)
    ensures IsDiff(box, bef, cur, rows)
  {
    var keys := UnionKeys(bef, cur);
    var listed: seq<Row> := [];
    for n := 0 to |keys|
      invariant |listed| == n && RowsMatch(box, bef, cur, listed)
      invariant forall i :: 0 <= i < n ==> listed[i].name == keys[i]
    {
      var row := BuildRow(box, keys[n], Find(bef, keys[n]), Find(cur, keys[n]));
      listed := listed + [row];
    }
    rows := Sort(listed, RowLe);
    SortedIsDiff(box, bef, cur, keys, listed);
  }

  lemma SortedIsDiff(box: Box, bef: Sides, cur: Sides, keys: seq<string>, listed: seq<Row>)
    requires |listed| == |keys| && RowsMatch(box, bef, cur, listed)
    requires forall i :: 0 <= i < |keys| ==> listed[i].name == keys[i]
    requires forall i, j :: 0 <= i < j < |keys| ==> keys[i] != keys[j]
    requires forall k: string :: k in keys <==> k in bef || k in cur
    ensures IsDiff(box, bef, cur, Sort(listed, RowLe))
  {
    var rows := Sort(listed, RowLe);
    RowLeOrders();
    SortSorted(listed, RowLe);
    SortMultiset(listed, RowLe);
    assert DistinctNames(listed);
    PermutedDistinct(listed, rows, NameOf);
    SameMembers(listed, rows);
    RowsMatchAlike(box, bef, cur, listed, rows);
    forall k: string ensures Named(rows, k) <==> k in bef || k in cur {
      NamedListed(listed, keys, k);
      NamedAlike(listed, rows, k);
    }
  }

  lemma RowsMatchAlike(box: Box, bef: Sides, cur: Sides, a: seq<Row>, b: seq<Row>)
    requires RowsMatch(box, bef, cur, a) && forall r: Row :: r in a <==> r in b
    ensures RowsMatch(box, bef, cur, b)
  {
    forall i | 0 <= i < |b| ensures RowMatches(box, bef, cur, b[i]) {
      assert b[i] in a;
    }
  }

  lemma NamedListed(listed: seq<Row>, keys: seq<string>, k: string)
    requires |listed| == |keys| && forall i :: 0 <= i < |keys| ==> listed[i].name == keys[i]
    ensures Named(listed, k) <==> k in keys
  {
  }

  lemma NamedAlike(a: seq<Row>, b: seq<Row>, k: string)
    requires forall r: Row :: r in a <==> r in b
    ensures Named(a, k) <==> Named(b, k)
  {
    if Named(a, k) {
      var i :| 0 <= i < |a| && a[i].name == k;
      assert a[i] in b;
    }
    if Named(b, k) {
      var i :| 0 <= i < |b| && b[i].name == k;
      assert b[i] in a;
    }
  }

  // The loop body of diffEnv.
  method BuildRow(box: Box, k: string, bef: Option<Side>, cur: Option<Side>) returns (row: Row)
    requires bef.Some? || cur.Some?
    ensures row == RowFor(box, k, bef, cur)
  {
    var revealable := box.Box?;
    if bef.Some? && (bef.value.sensitive || bef.value.writeOnly) {
      revealable := false;
    }
    if cur.Some? && (cur.value.sensitive || cur.value.writeOnly) {
      revealable := false;
    }
    row := Row(k, Unchanged, None, None, !revealable);
    if cur.None? {
      row := row.(status := Removed);
      if revealable {
        var p := box.Reveal(bef.value.sealed);
        row := if p.Some? then row.(before := p) else row.(masked := true);
      }
    } else if bef.None? {
      row := row.(status := Added);
      if revealable {
        var p := box.Reveal(cur.value.sealed);
        row := if p.Some? then row.(after := p) else row.(masked := true);
      }
    } else {
      var flipped := bef.value.sensitive != cur.value.sensitive || bef.value.writeOnly != cur.value.writeOnly;
      if revealable && !flipped {
        var bp, cp := box.Reveal(bef.value.sealed), box.Reveal(cur.value.sealed);
        if bp.Some? && cp.Some? {
          row := row.(before := bp, after := cp, status := if bp == cp then Unchanged else Changed);
        } else {
          row := row.(masked := true, status := SealedStatus(bef.value.sealed, cur.value.sealed));
        }
      } else {
        row := row.(masked := true, status := if flipped then Changed else SealedStatus(bef.value.sealed, cur.value.sealed));
      }
    }
  }

  // ---- Order ----

  // The rows and their order are determined by the two sides: nothing of the maps'
  // iteration order shows.
  lemma DiffUnique(box: Box, bef: Sides, cur: Sides, a: seq<Row>, b: seq<Row>)
    requires IsDiff(box, bef, cur, a) && IsDiff(box, bef, cur, b)
    ensures a == b
  {
    forall r: Row ensures multiset(a)[r] == multiset(b)[r] {
      CountOnce(a, NameOf, r);
      CountOnce(b, NameOf, r);
      RowOfDiff(box, bef, cur, a, r);
      RowOfDiff(box, bef, cur, b, r);
    }
    assert multiset(a) == multiset(b);
    forall i, j | 0 <= i < |a| && 0 <= j < |a| && RowLe(a[i], a[j]) && RowLe(a[j], a[i]) ensures a[i] == a[j] {
      LeAntisymmetric(a[i].name, a[j].name);
    }
    SortedUnique(a, b, RowLe);
  }

  lemma RowOfDiff(box: Box, bef: Sides, cur: Sides, rows: seq<Row>, r: Row)
    requires IsDiff(box, bef, cur, rows)
    ensures r in rows <==> RowMatches(box, bef, cur, r)
  {
    if RowMatches(box, bef, cur, r) {
      assert Named(rows, r.name);
      var i :| 0 <= i < |rows| && rows[i].name == r.name;
      assert RowMatches(box, bef, cur, rows[i]);
    }
  }

  // ---- What the rows tell ----

  // A side's plaintexts, as far as the box opens them.
  function Plain(box: Box, sides: Sides): map<string, string> {
    map k | k in sides && box.Reveal(sides[k].sealed).Some? :: box.Reveal(sides[k].sealed).value
  }

  // Replays the unmasked rows on a set of plaintexts.
  function Apply(rows: seq<Row>, env: map<string, string>): map<string, string> {
    if rows == [] then env
    else
      var row, before := rows[|rows| - 1], Apply(rows[..|rows| - 1], env);
      if row.masked then before
      else if row.after.Some? then before[row.name := row.after.value]
      else before - {row.name}
  }

  lemma {:induction false} ApplySkips(rows: seq<Row>, env: map<string, string>, k: string)
    requires forall i :: 0 <= i < |rows| && rows[i].name == k ==> rows[i].masked
    ensures (k in Apply(rows, env) <==> k in env) && (k in env ==> Apply(rows, env)[k] == env[k])
  {
    if rows != [] {
      ApplySkips(rows[..|rows| - 1], env, k);
    }
  }

  lemma {:induction false} ApplyHits(rows: seq<Row>, env: map<string, string>, i: nat)
    requires DistinctNames(rows) && i < |rows| && !rows[i].masked
    ensures var k, after := rows[i].name, Apply(rows, env);
      (k in after <==> rows[i].after.Some?) && (k in after ==> after[k] == rows[i].after.value)
  {
    if i < |rows| - 1 {
      ApplyHits(rows[..|rows| - 1], env, i);
    }
  }

  predicate SameAt(a: map<string, string>, b: map<string, string>, k: string) {
    (k in a <==> k in b) && (k in a ==> a[k] == b[k])
  }

  predicate Unmasked(rows: seq<Row>, k: string) { exists i :: 0 <= i < |rows| && rows[i].name == k && !rows[i].masked }

  // Replaying the unmasked rows on the decrypted before-set gives the decrypted current
  // set on those keys, and leaves every other key alone.
  lemma UnmaskedRowsReplay(box: Box, bef: Sides, cur: Sides, rows: seq<Row>, k: string)
    requires IsDiff(box, bef, cur, rows)
    ensures var after := Apply(rows, Plain(box, bef));
      if Unmasked(rows, k) then SameAt(after, Plain(box, cur), k) else SameAt(after, Plain(box, bef), k)
  {
    if Unmasked(rows, k) {
      var i :| 0 <= i < |rows| && rows[i].name == k && !rows[i].masked;
      ApplyHits(rows, Plain(box, bef), i);
      UnmaskedRow(box, bef, cur, rows[i]);
    } else {
      ApplySkips(rows, Plain(box, bef), k);
    }
  }

  // An unmasked row shows both plaintexts, and says unchanged exactly when they are equal.
  lemma UnmaskedRow(box: Box, bef: Sides, cur: Sides, row: Row)
    requires RowMatches(box, bef, cur, row) && !row.masked
    ensures row.before.Some? <==> row.name in Plain(box, bef)
    ensures row.before.Some? ==> Plain(box, bef)[row.name] == row.before.value
    ensures row.after.Some? <==> row.name in Plain(box, cur)
    ensures row.after.Some? ==> Plain(box, cur)[row.name] == row.after.value
    ensures row.status == Unchanged <==> row.before.Some? && row.before == row.after
    ensures (row.status == Added <==> row.name !in bef) && (row.status == Removed <==> row.name !in cur)
  {
  }

  // A value that is there and can be shown.
  predicate Shown(box: Box, side: Side) {
    box.Box? && !side.sensitive && !side.writeOnly && box.open(side.sealed).Some?
  }

  // What every row of a diff says, in terms of the two sides: which side the key is
  // missing from; when it is masked; and for a key on both sides, masked or not, whether
  // it changed.
  lemma RowTells(box: Box, bef: Sides, cur: Sides, rows: seq<Row>, i: nat)
    requires IsDiff(box, bef, cur, rows) && i < |rows|
    ensures var k, row := rows[i].name, rows[i];
      && (k in bef || k in cur)
      && (row.status == Added <==> k !in bef) && (row.status == Removed <==> k !in cur)
      && (!row.masked <==> (k in bef ==> Shown(box, bef[k])) && (k in cur ==> Shown(box, cur[k])))
      && row.before == (if k in bef && !row.masked then box.open(bef[k].sealed) else None)
      && row.after == (if k in cur && !row.masked then box.open(cur[k].sealed) else None)
      && (k in bef && k in cur && row.masked ==>
            (row.status == Unchanged <==>
               bef[k].sensitive == cur[k].sensitive && bef[k].writeOnly == cur[k].writeOnly && bef[k].sealed == cur[k].sealed))
      && (k in bef && k in cur && !row.masked ==>
            (row.status == Unchanged <==> box.open(bef[k].sealed) == box.open(cur[k].sealed)))
  {
    assert RowMatches(box, bef, cur, rows[i]);
  }

  // Display order: what changed, was added or removed comes before what did not change,
  // and within each group names ascend.
  lemma RowsInOrder(box: Box, bef: Sides, cur: Sides, rows: seq<Row>, i: nat, j: nat)
    requires IsDiff(box, bef, cur, rows) && i < j < |rows|
    ensures rows[i].status == Unchanged ==> rows[j].status == Unchanged
    ensures (rows[i].status == Unchanged <==> rows[j].status == Unchanged) ==> Ascend(rows[i].name, rows[j].name)
  {
    assert RowLe(rows[i], rows[j]);
    if (rows[i].status == Unchanged) == (rows[j].status == Unchanged) {
      assert NameOf(rows[i]) != NameOf(rows[j]);
      LeAscends(rows[i].name, rows[j].name);
    }
  }

  // Each side holds, for every key, the last entry that names it.
  lemma {:induction false} SnapshotLast(entries: seq<SnapshotEntry>, k: string)
    ensures SnapshotSides(entries).None? <==> exists i :: 0 <= i < |entries| && entries[i].value.None?
    ensures SnapshotSides(entries).Some? ==>
      var sides := SnapshotSides(entries).value;
      if k in sides then
        exists i :: 0 <= i < |entries| && entries[i].key == k && entries[i].value == Some(sides[k].sealed)
          && entries[i].sensitive == sides[k].sensitive && entries[i].writeOnly == sides[k].writeOnly
          && forall j :: i < j < |entries| ==> entries[j].key != k
      else forall i :: 0 <= i < |entries| ==> entries[i].key != k
  {
    if entries != [] {
      var front, n := entries[..|entries| - 1], |entries| - 1;
      SnapshotLast(front, k);
      assert forall i :: 0 <= i < n ==> front[i] == entries[i];
      if SnapshotSides(entries).Some? && entries[n].key != k && k in SnapshotSides(entries).value {
        var sides := SnapshotSides(front).value;
        var i :| 0 <= i < n && front[i].key == k && front[i].value == Some(sides[k].sealed)
          && front[i].sensitive == sides[k].sensitive && front[i].writeOnly == sides[k].writeOnly
          && forall j :: i < j < n ==> front[j].key != k;
        assert entries[i].key == k;
      }
    }
  }

  // Entry i is the last for its key.
  predicate LastFor(vars: seq<EnvVar>, i: nat, k: string) {
    i < |vars| && vars[i].key == k && forall j :: i < j < |vars| ==> vars[j].key != k
  }

  lemma {:induction false} CurrentLast(vars: seq<EnvVar>, k: string) returns (i: nat)
    ensures var sides := CurrentSides(vars);
      if k in sides then
        LastFor(vars, i, k) && vars[i] == EnvVar(k, sides[k].sealed, sides[k].sensitive, sides[k].writeOnly)
      else forall j :: 0 <= j < |vars| ==> vars[j].key != k
  {
    i := 0;
    if vars != [] {
      var n := |vars| - 1;
      i := CurrentLast(vars[..n], k);
      assert forall j :: 0 <= j < n ==> vars[..n][j] == vars[j];
      if vars[n].key == k {
        i := n;
      }
    }
  }

  // ---- Secrets ----

  predicate SameFlags(a: Option<Side>, b: Option<Side>) {
    (a.None? <==> b.None?) && (a.Some? ==> a.value.sensitive == b.value.sensitive && a.value.writeOnly == b.value.writeOnly)
  }

  // Two runs with the same keys and flags whose sealed bytes may differ at secret keys
  // only, with the same pattern of equality between the sides there.
  predicate AlikeAt(b1: Sides, c1: Sides, b2: Sides, c2: Sides, k: string) {
    && SameFlags(Find(b1, k), Find(b2, k)) && SameFlags(Find(c1, k), Find(c2, k))
    && (!Hidden(Find(b1, k), Find(c1, k)) ==> Find(b1, k) == Find(b2, k) && Find(c1, k) == Find(c2, k))
    && (k in b1 && k in c1 ==> (b1[k].sealed == c1[k].sealed <==> b2[k].sealed == c2[k].sealed))
  }

  // The boxes agree on what is not secret; on secrets they may do anything.
  predicate BoxesAgreeAt(box1: Box, box2: Box, bef: Sides, cur: Sides, k: string) {
    && (box1.NoBox? <==> box2.NoBox?)
    && (!Hidden(Find(bef, k), Find(cur, k)) ==>
          && (k in bef ==> box1.Reveal(bef[k].sealed) == box2.Reveal(bef[k].sealed))
          && (k in cur ==> box1.Reveal(cur[k].sealed) == box2.Reveal(cur[k].sealed)))
  }

  lemma AlikeRow(box1: Box, box2: Box, b1: Sides, c1: Sides, b2: Sides, c2: Sides, k: string)
    requires AlikeAt(b1, c1, b2, c2, k) && BoxesAgreeAt(box1, box2, b1, c1, k)
    requires k in b1 || k in c1
    ensures RowFor(box1, k, Find(b1, k), Find(c1, k)) == RowFor(box2, k, Find(b2, k), Find(c2, k))
  {
  }

  // The rows reveal nothing of a secret key beyond its flags, and whether its sealed
  // bytes are equal on both sides: not even through what decrypting it would give.
  lemma SecretsDoNotShow(box1: Box, box2: Box, b1: Sides, c1: Sides, b2: Sides, c2: Sides, rows1: seq<Row>, rows2: seq<Row>)
    requires forall k: string :: AlikeAt(b1, c1, b2, c2, k) && BoxesAgreeAt(box1, box2, b1, c1, k)
    requires IsDiff(box1, b1, c1, rows1) && IsDiff(box2, b2, c2, rows2)
    ensures rows1 == rows2
  {
    forall i | 0 <= i < |rows1| ensures RowMatches(box2, b2, c2, rows1[i]) {
      var k := rows1[i].name;
      assert RowMatches(box1, b1, c1, rows1[i]);
      AlikeKeys(b1, c1, b2, c2, k);
      AlikeRow(box1, box2, b1, c1, b2, c2, k);
    }
    forall k: string ensures Named(rows1, k) <==> k in b2 || k in c2 {
      AlikeKeys(b1, c1, b2, c2, k);
      assert Named(rows1, k) <==> k in b1 || k in c1;
    }
    DiffUnique(box2, b2, c2, rows1, rows2);
  }

  lemma AlikeKeys(b1: Sides, c1: Sides, b2: Sides, c2: Sides, k: string)
    requires forall k: string :: AlikeAt(b1, c1, b2, c2, k)
    ensures (k in b1 <==> k in b2) && (k in c1 <==> k in c2)
  {
    assert AlikeAt(b1, c1, b2, c2, k);
  }

  // Every secret key is masked: its row carries no value.
  lemma SecretsMasked(box: Box, bef: Sides, cur: Sides, rows: seq<Row>, i: nat)
    requires IsDiff(box, bef, cur, rows) && i < |rows|
    requires Hidden(Find(bef, rows[i].name), Find(cur, rows[i].name))
    ensures rows[i].masked && rows[i].before == None && rows[i].after == None
  {
    assert RowMatches(box, bef, cur, rows[i]);
  }
}
