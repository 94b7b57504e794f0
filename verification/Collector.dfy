// The request collector (reqmetrics/collector.go): access-log lines become per-service
// 10-second buckets, flushed to the store by an additive upsert.
module Collector {
  import opened Text
  import opened ProxyModel
  import Tailer

  const SECOND := 1_000_000_000
  const BUCKET_WIDTH := 10 * SECOND

  datatype Access = Access(host: string, status: int, size: int)
  datatype AutoHost = AutoHost(hostname: string, appID: string, serviceName: string)
  datatype SvcRef = SvcRef(appID: string, service: string)
  datatype Key = Key(ref: SvcRef, ts: int)
  datatype Totals = Totals(requests: int, errors: int, bytes: int)
  datatype Row = Row(key: Key, totals: Totals)

  const ZERO := Totals(0, 0, 0)

  function Plus(a: Totals, b: Totals): Totals {
    Totals(a.requests + b.requests, a.errors + b.errors, a.bytes + b.bytes)
  }

  function Get(m: map<Key, Totals>, k: Key): Totals { if k in m then m[k] else ZERO }

  function Bump(m: map<Key, Totals>, k: Key, t: Totals): map<Key, Totals> { m[k := Plus(Get(m, k), t)] }

  // What a batch of rows says about one key.
  function SumFor(rows: seq<Row>, k: Key): Totals {
    if rows == [] then ZERO
    else
      var last := rows[|rows| - 1];
      var before := SumFor(rows[..|rows| - 1], k);
      if last.key == k then Plus(before, last.totals) else before
  }

  lemma SumForLast(rows: seq<Row>, last: Row, k: Key)
    ensures SumFor(rows + [last], k) == if last.key == k then Plus(SumFor(rows, k), last.totals) else SumFor(rows, k)
  {
    assert (rows + [last])[..|rows|] == rows;
  }

  // ---- Hosts ----

  // The text before the first colon.
  function BeforeColon(s: string): (r: string)
    ensures r <= s && ':' !in r
    ensures r != s ==> s[|r|] == ':'
  {
    if s == [] || s[0] == ':' then [] else [s[0]] + BeforeColon(s[1..])
  }

  // A log line's host, folded and without its port.
  function HostKey(host: string): string { BeforeColon(ToLower(host)) }

  predicate Usable(a: AutoHost) { a.hostname != "" && a.appID != "" && a.serviceName != "" }

  // The last entry for a host wins.
  function LastAuto(autos: seq<AutoHost>, host: string): Option<SvcRef> {
    if autos == [] then None
    else
      var a := autos[|autos| - 1];
      if Usable(a) && ToLower(a.hostname) == host then Some(SvcRef(a.appID, a.serviceName))
      else LastAuto(autos[..|autos| - 1], host)
  }

  function LastDomain(domains: seq<Domain>, host: string): Option<SvcRef> {
    if domains == [] then None
    else
      var d := domains[|domains| - 1];
      if d.Assigned() && ToLower(d.hostname) == host then Some(SvcRef(d.appID, d.serviceName))
      else LastDomain(domains[..|domains| - 1], host)
  }

  // An assigned domain overrides an automatic subdomain of the same name.
  function Resolved(autos: seq<AutoHost>, domains: seq<Domain>, host: string): Option<SvcRef> {
    if LastDomain(domains, host).Some? then LastDomain(domains, host) else LastAuto(autos, host)
  }

  function Find(hosts: map<string, SvcRef>, host: string): Option<SvcRef> {
    if host in hosts then Some(hosts[host]) else None
  }

  ghost predicate HostsAre(hosts: map<string, SvcRef>, autos: seq<AutoHost>, domains: seq<Domain>) {
    forall host :: Find(hosts, host) == Resolved(autos, domains, host)
  }

  lemma AutoAdded(hosts: map<string, SvcRef>, autos: seq<AutoHost>, a: AutoHost)
    requires HostsAre(hosts, autos, [])
    ensures HostsAre(if Usable(a) then hosts[ToLower(a.hostname) := SvcRef(a.appID, a.serviceName)] else hosts, autos + [a], [])
  {
    assert (autos + [a])[..|autos|] == autos;
    var after := if Usable(a) then hosts[ToLower(a.hostname) := SvcRef(a.appID, a.serviceName)] else hosts;
    forall host ensures Find(after, host) == Resolved(autos + [a], [], host) {
      assert Find(hosts, host) == Resolved(autos, [], host) == LastAuto(autos, host);
      assert LastAuto(autos + [a], host) == Find(after, host);
    }
  }

  lemma DomainAdded(hosts: map<string, SvcRef>, autos: seq<AutoHost>, domains: seq<Domain>, d: Domain)
    requires HostsAre(hosts, autos, domains)
    ensures HostsAre(if d.Assigned() then hosts[ToLower(d.hostname) := SvcRef(d.appID, d.serviceName)] else hosts, autos, domains + [d])
  {
    assert (domains + [d])[..|domains|] == domains;
    var after := if d.Assigned() then hosts[ToLower(d.hostname) := SvcRef(d.appID, d.serviceName)] else hosts;
    forall host ensures Find(after, host) == Resolved(autos, domains + [d], host) {
      assert Find(hosts, host) == Resolved(autos, domains, host);
    }
  }

  // ---- One line ----

  // The ten seconds that hold the time.
  function BucketTime(now: int): (ts: int)
    ensures ts <= now < ts + 10_000_000_000 && ts % 10_000_000_000 == 0
  {
    now - now % BUCKET_WIDTH
  }

  // Where an access counts and what it adds; None when its host maps to no service.
  function Hit(hosts: map<string, SvcRef>, a: Access, now: int): Option<Row> {
    if HostKey(a.host) !in hosts then None
    else Some(Row(Key(hosts[HostKey(a.host)], BucketTime(now)), Totals(1, if a.status >= 500 then 1 else 0, a.size)))
  }

  function HitOfLine(hosts: map<string, SvcRef>, parsed: Option<Access>, now: int): Option<Row> {
    if parsed.None? || parsed.value.host == "" then None else Hit(hosts, parsed.value, now)
  }

  function WithHit(buckets: map<Key, Totals>, hit: Option<Row>): map<Key, Totals> {
    if hit.None? then buckets else Bump(buckets, hit.value.key, hit.value.totals)
  }

  // The host of a log line names a key: they agree up to case, the port set aside.
  predicate NamesKey(host: string, key: string) {
    var low := ToLower(host);
    ':' !in key && key <= low && (key == low || low[|key|] == ':')
  }

  ghost predicate ResolvesTo(hosts: map<string, SvcRef>, host: string, ref: SvcRef) {
    exists key :: key in hosts && hosts[key] == ref && NamesKey(host, key)
  }

  lemma NamesOneKey(host: string, key: string)
    ensures NamesKey(host, key) <==> key == HostKey(host)
  {
    var low := ToLower(host);
    var found := HostKey(host);
    assert forall i :: 0 <= i < |found| ==> found[i] == low[i] && found[i] != ':';
    if NamesKey(host, key) {
      assert forall i :: 0 <= i < |key| ==> key[i] == low[i] && key[i] != ':';
      assert |key| == |found|;
      assert key == low[..|key|] && found == low[..|found|];
    }
  }

  lemma HitResolves(hosts: map<string, SvcRef>, a: Access, now: int, ref: SvcRef)
    ensures ResolvesTo(hosts, a.host, ref) <==> HostKey(a.host) in hosts && hosts[HostKey(a.host)] == ref
    ensures ResolvesTo(hosts, a.host, ref) ==>
      Hit(hosts, a, now) == Some(Row(Key(ref, BucketTime(now)), Totals(1, if a.status >= 500 then 1 else 0, a.size)))
  {
    NamesOneKey(a.host, HostKey(a.host));
    if ResolvesTo(hosts, a.host, ref) {
      var key :| key in hosts && hosts[key] == ref && NamesKey(a.host, key);
      NamesOneKey(a.host, key);
    }
  }

  // One bucket has one access more, and no other bucket changed.
  ghost predicate OneMore(before: map<Key, Totals>, after: map<Key, Totals>, k: Key, status: int, size: int) {
    && k in after
    && after[k].requests == (if k in before then before[k].requests else 0) + 1
    && after[k].errors == (if k in before then before[k].errors else 0) + (if status >= 500 then 1 else 0)
    && after[k].bytes == (if k in before then before[k].bytes else 0) + size
    && forall j :: j != k ==> (j in after <==> j in before) && (j in after ==> after[j] == before[j])
  }

  // What record does with an access.
  ghost predicate Recorded(hosts: map<string, SvcRef>, before: map<Key, Totals>, after: map<Key, Totals>, a: Access, now: int) {
    && (forall ref :: ResolvesTo(hosts, a.host, ref) ==> OneMore(before, after, Key(ref, BucketTime(now)), a.status, a.size))
    && ((forall ref :: !ResolvesTo(hosts, a.host, ref)) ==> after == before)
  }

  lemma HitRecorded(hosts: map<string, SvcRef>, before: map<Key, Totals>, a: Access, now: int)
    ensures Recorded(hosts, before, WithHit(before, Hit(hosts, a, now)), a, now)
  {
    forall ref | ResolvesTo(hosts, a.host, ref)
      ensures OneMore(before, WithHit(before, Hit(hosts, a, now)), Key(ref, BucketTime(now)), a.status, a.size)
    {
      HitResolves(hosts, a, now, ref);
    }
    if HostKey(a.host) in hosts {
      HitResolves(hosts, a, now, hosts[HostKey(a.host)]);
      assert ResolvesTo(hosts, a.host, hosts[HostKey(a.host)]);
    }
  }

  class Collector {
    var hosts: map<string, SvcRef>
    var buckets: map<Key, Totals>

    constructor ()
      ensures hosts == map[] && buckets == map[]
    {
      hosts, buckets := map[], map[];
    }

    // record.
    method Record(host: string, status: int, size: int, now: int)
      modifies this`buckets
      ensures buckets == WithHit(old(buckets), Hit(hosts, Access(host, status, size), now))
      ensures Recorded(hosts, old(buckets), buckets, Access(host, status, size), now)
    {
      HitRecorded(hosts, buckets, Access(host, status, size), now);
      var h := HostKey(host);
      if h !in hosts {
        return;
      }
      var key := Key(hosts[h], BucketTime(now));
      if key !in buckets {
        buckets := buckets[key := ZERO];
      }
      var b := buckets[key];
      b := b.(requests := b.requests + 1);
      if status >= 500 {
        b := b.(errors := b.errors + 1);
      }
      b := b.(bytes := b.bytes + size);
      buckets := buckets[key := b];
    }

    // handleLine, given what the JSON decoder made of the line.
    method HandleLine(parsed: Option<Access>, now: int)
      modifies this`buckets
      ensures buckets == WithHit(old(buckets), HitOfLine(hosts, parsed, now))
      ensures if parsed.Some? && parsed.value.host != "" then Recorded(hosts, old(buckets), buckets, parsed.value, now)
              else buckets == old(buckets)
    {
      if parsed.None? || parsed.value.host == "" {
        return;
      }
      Record(parsed.value.host, parsed.value.status, parsed.value.size, now);
    }

    // refreshHosts: a failed domain read keeps the old map; a failed or absent source
    // of automatic hosts contributes what it returned.
    method RefreshHosts(domains: Option<seq<Domain>>, autos: seq<AutoHost>)
      modifies this`hosts
      ensures domains.None? ==> hosts == old(hosts)
      ensures domains.Some? ==> HostsAre(hosts, autos, domains.value)
    {
      if domains.None? {
        return;
      }
      var next: map<string, SvcRef> := map[];
      for i := 0 to |autos|
        invariant HostsAre(next, autos[..i], [])
      {
        var a := autos[i];
        AutoAdded(next, autos[..i], a);
        assert autos[..i + 1] == autos[..i] + [a];
        if Usable(a) {
          next := next[ToLower(a.hostname) := SvcRef(a.appID, a.serviceName)];
        }
      }
      assert autos[..|autos|] == autos;
      for i := 0 to |domains.value|
        invariant HostsAre(next, autos, domains.value[..i])
      {
        var d := domains.value[i];
        DomainAdded(next, autos, domains.value[..i], d);
        assert domains.value[..i + 1] == domains.value[..i] + [d];
        if d.Assigned() {
          next := next[ToLower(d.hostname) := SvcRef(d.appID, d.serviceName)];
        }
      }
      assert domains.value[..|domains.value|] == domains.value;
      hosts := next;
    }

    // flush, under the lock: every bucket leaves in exactly one row, in map order.
    method Take() returns (batch: seq<Row>)
      modifies this`buckets
      ensures buckets == map[]
      ensures forall k :: SumFor(batch, k) == Get(old(buckets), k)
      ensures forall i, j :: 0 <= i < j < |batch| ==> batch[i].key != batch[j].key
    {
      batch := [];
      var left := buckets.Keys;
      while left != {}
        invariant left <= buckets.Keys && buckets == old(buckets)
        invariant forall k :: SumFor(batch, k) == if k in left then ZERO else Get(buckets, k)
        invariant forall i, j :: 0 <= i < j < |batch| ==> batch[i].key != batch[j].key
        invariant forall i :: 0 <= i < |batch| ==> batch[i].key !in left
      {
        var k :| k in left;
        forall k' ensures SumFor(batch + [Row(k, buckets[k])], k') == if k' in left - {k} then ZERO else Get(buckets, k') {
          SumForLast(batch, Row(k, buckets[k]), k');
        }
        batch := batch + [Row(k, buckets[k])];
        left := left - {k};
      }
      buckets := map[];
    }
  }

  // The table after a batch: every key has grown by what the batch says about it.
  ghost predicate Added(before: map<Key, Totals>, after: map<Key, Totals>, batch: seq<Row>) {
    forall k :: Get(after, k) == Plus(Get(before, k), SumFor(batch, k))
  }

  lemma PlusAssociates(a: Totals, b: Totals, c: Totals)
    ensures Plus(Plus(a, b), c) == Plus(a, Plus(b, c))
  {
  }

  lemma BumpGet(m: map<Key, Totals>, at: Key, t: Totals, k: Key)
    ensures Get(Bump(m, at, t), k) == if k == at then Plus(Get(m, k), t) else Get(m, k)
  {
  }

  lemma AddedOne(before: map<Key, Totals>, after: map<Key, Totals>, batch: seq<Row>, row: Row)
    requires Added(before, after, batch)
    ensures Added(before, Bump(after, row.key, row.totals), batch + [row])
  {
    forall k ensures Get(Bump(after, row.key, row.totals), k) == Plus(Get(before, k), SumFor(batch + [row], k)) {
      BumpGet(after, row.key, row.totals, k);
      SumForLast(batch, row, k);
      PlusAssociates(Get(before, k), SumFor(batch, k), row.totals);
    }
  }

  // The request_metrics table.
  class RequestStore {
    var rows: map<Key, Totals>

    constructor ()
      ensures rows == map[]
    {
      rows := map[];
    }

    // UpsertRequestBuckets: one batch, all of it or none of it; the reply to a commit can
    // be lost, so an error does not say which.
    method Upsert(batch: seq<Row>, commits: bool, replies: bool) returns (ok: bool)
      modifies this
      ensures ok <==> commits && replies
      ensures commits ==> Added(old(rows), rows, batch)
      ensures !commits ==> rows == old(rows)
    {
      if !commits {
        return false;
      }
      for i := 0 to |batch|
        invariant Added(old(rows), rows, batch[..i])
      {
        AddedOne(old(rows), rows, batch[..i], batch[i]);
        assert batch[..i + 1] == batch[..i] + [batch[i]];
        rows := Bump(rows, batch[i].key, batch[i].totals);
      }
      assert batch[..|batch|] == batch;
      return replies;
    }
  }

  // ---- Histories ----

  // batch is taken but not yet written; lost is what writes that did not commit dropped.
  // The collector lets go of a batch on any error, so a lost reply to a commit is no case
  // of its own. lines and hits record every line handled and every line that counted.
  datatype State = State(
    hosts: map<string, SvcRef>,
    buckets: map<Key, Totals>,
    batch: map<Key, Totals>,
    rows: map<Key, Totals>,
    lost: map<Key, Totals>,
    lines: seq<Tailer.Bytes>,
    hits: seq<Row>,
    skipped: nat)

  datatype Op =
    | Line(bytes: Tailer.Bytes, parsed: Option<Access>, now: int)
    | Refresh(domains: Option<seq<Domain>>, autos: seq<AutoHost>, hosts: map<string, SvcRef>)
    | Take
    | Write(fails: bool, ledger: map<Key, Totals>)

  // Ledger `after` is `before` with every key of `batch` added in.
  ghost predicate Grown(before: map<Key, Totals>, after: map<Key, Totals>, batch: map<Key, Totals>) {
    forall k :: Get(after, k) == Plus(Get(before, k), Get(batch, k))
  }

  ghost predicate Enabled(s: State, op: Op) {
    match op
    case Refresh(domains, autos, hosts) => if domains.Some? then HostsAre(hosts, autos, domains.value) else hosts == s.hosts
    case Take => s.batch == map[] // one goroutine flushes
    case Write(fails, ledger) => Grown(if fails then s.lost else s.rows, ledger, s.batch)
    case _ => true
  }

  function Next(s: State, op: Op): State {
    match op
    case Line(bytes, parsed, now) =>
      var hit := HitOfLine(s.hosts, parsed, now);
      s.(buckets := WithHit(s.buckets, hit), lines := s.lines + [bytes],
         hits := if hit.Some? then s.hits + [hit.value] else s.hits,
         skipped := if hit.Some? then s.skipped else s.skipped + 1)
    case Refresh(_, _, hosts) => s.(hosts := hosts)
    case Take => s.(batch := s.buckets, buckets := map[])
    case Write(fails, ledger) => if fails then s.(lost := ledger, batch := map[]) else s.(rows := ledger, batch := map[])
  }

  const START := State(map[], map[], map[], map[], map[], [], [], 0)

  function Run(ops: seq<Op>): State {
    if ops == [] then START else Next(Run(ops[..|ops| - 1]), ops[|ops| - 1])
  }

  ghost predicate Valid(ops: seq<Op>) {
    forall i :: 0 <= i < |ops| ==> Enabled(Run(ops[..i]), ops[i])
  }

  // What the buckets, the batch in flight, the store and the failed writes hold for a key.
  function Accounted(s: State, k: Key): Totals {
    Plus(Plus(Get(s.buckets, k), Get(s.batch, k)), Plus(Get(s.rows, k), Get(s.lost, k)))
  }

  // Counts are neither made nor lost, bucket by bucket.
  ghost predicate Balanced(s: State) { forall k :: SumFor(s.hits, k) == Accounted(s, k) }

  // A line that counts adds its hit to its own bucket's account.
  lemma BumpAccounted(s: State, hit: Row, k: Key)
    ensures Accounted(s.(buckets := Bump(s.buckets, hit.key, hit.totals)), k) ==
      if hit.key == k then Plus(Accounted(s, k), hit.totals) else Accounted(s, k)
  {
    BumpGet(s.buckets, hit.key, hit.totals, k);
  }

  lemma LineAccounted(s: State, op: Op, k: Key)
    requires op.Line?
    ensures var hit := HitOfLine(s.hosts, op.parsed, op.now);
      Accounted(Next(s, op), k) ==
      if hit.Some? && hit.value.key == k then Plus(Accounted(s, k), hit.value.totals) else Accounted(s, k)
  {
    var hit := HitOfLine(s.hosts, op.parsed, op.now);
    if hit.Some? {
      BumpAccounted(s, hit.value, k);
    }
  }

  lemma LineSum(s: State, op: Op, k: Key)
    requires op.Line?
    ensures var hit := HitOfLine(s.hosts, op.parsed, op.now);
      SumFor(Next(s, op).hits, k) ==
      if hit.Some? && hit.value.key == k then Plus(SumFor(s.hits, k), hit.value.totals) else SumFor(s.hits, k)
  {
    var hit := HitOfLine(s.hosts, op.parsed, op.now);
    if hit.Some? {
      SumForLast(s.hits, hit.value, k);
    }
  }

  lemma BatchMoves(a: Totals, b: Totals, c: Totals, d: Totals)
    ensures Plus(Plus(a, b), Plus(c, d)) == Plus(Plus(a, ZERO), Plus(Plus(c, b), d)) == Plus(Plus(a, ZERO), Plus(c, Plus(d, b)))
  {
  }

  lemma RowsGrow(s: State, ledger: map<Key, Totals>, k: Key)
    requires Get(ledger, k) == Plus(Get(s.rows, k), Get(s.batch, k))
    ensures Accounted(s.(rows := ledger, batch := map[]), k) == Accounted(s, k)
  {
    BatchMoves(Get(s.buckets, k), Get(s.batch, k), Get(s.rows, k), Get(s.lost, k));
    var after := s.(rows := ledger, batch := map[]);
    assert Get(after.batch, k) == ZERO;
    assert Accounted(after, k) == Plus(Plus(Get(s.buckets, k), ZERO), Plus(Get(ledger, k), Get(s.lost, k)));
  }

  lemma LossesGrow(s: State, ledger: map<Key, Totals>, k: Key)
    requires Get(ledger, k) == Plus(Get(s.lost, k), Get(s.batch, k))
    ensures Accounted(s.(lost := ledger, batch := map[]), k) == Accounted(s, k)
  {
    BatchMoves(Get(s.buckets, k), Get(s.batch, k), Get(s.rows, k), Get(s.lost, k));
    var after := s.(lost := ledger, batch := map[]);
    assert Get(after.batch, k) == ZERO;
    assert Accounted(after, k) == Plus(Plus(Get(s.buckets, k), ZERO), Plus(Get(s.rows, k), Get(ledger, k)));
  }

  lemma WriteAccounted(s: State, op: Op, k: Key)
    requires op.Write? && Enabled(s, op)
    ensures Accounted(Next(s, op), k) == Accounted(s, k) && Next(s, op).hits == s.hits
  {
    if op.fails {
      LossesGrow(s, op.ledger, k);
    } else {
      RowsGrow(s, op.ledger, k);
    }
  }

  lemma RefreshAccounted(s: State, hosts: map<string, SvcRef>, k: Key)
    ensures Accounted(s.(hosts := hosts), k) == Accounted(s, k)
  {
  }

  lemma TakeAccounted(s: State, k: Key)
    requires Get(s.batch, k) == ZERO
    ensures Accounted(s.(batch := s.buckets, buckets := map[]), k) == Accounted(s, k)
  {
    NothingIn(k);
    BatchTaken(Get(s.buckets, k), Plus(Get(s.rows, k), Get(s.lost, k)));
  }

  lemma BatchTaken(a: Totals, b: Totals)
    ensures Plus(Plus(ZERO, a), b) == Plus(Plus(a, ZERO), b)
  {
  }

  lemma EmptyBatch(s: State, k: Key)
    requires Enabled(s, Take)
    ensures Get(s.batch, k) == ZERO
  {
    NothingIn(k);
  }

  lemma NextBalanced(s: State, op: Op)
    requires Balanced(s) && Enabled(s, op)
    ensures Balanced(Next(s, op))
  {
    forall k ensures SumFor(Next(s, op).hits, k) == Accounted(Next(s, op), k) {
      match op {
        case Line(_, _, _) =>
          LineAccounted(s, op, k);
          LineSum(s, op, k);
        case Refresh(_, _, hosts) => RefreshAccounted(s, hosts, k);
        case Take =>
          EmptyBatch(s, k);
          TakeAccounted(s, k);
        case Write(_, _) => WriteAccounted(s, op, k);
      }
    }
  }

  // Over any run: per bucket, requests, errors and bytes of the lines whose host
  // resolved when recorded equal what is pending, taken, stored and lost; nothing is
  // lost while no write fails; each line either counts once or is skipped.
  lemma CountsConserved(ops: seq<Op>)
    requires Valid(ops)
    ensures var s := Run(ops);
      && Balanced(s)
      && |s.hits| + s.skipped == |s.lines|
      && (NoFailedWrite(ops) ==> NothingLost(s))
  {
    RunBalanced(ops);
    RunCounts(ops);
  }

  // An access whose host resolved when its line was read.
  datatype Visit = Visit(ref: SvcRef, status: int, size: int, now: int)

  // The accesses of a history, each with the service its host resolved to at the time.
  ghost predicate VisitsAre(ops: seq<Op>, visits: seq<Visit>) {
    if ops == [] then visits == []
    else
      var front, op, n := ops[..|ops| - 1], ops[|ops| - 1], |visits| - 1;
      if op.Line? && op.parsed.Some? && op.parsed.value.host != "" && exists ref :: ResolvesTo(Run(front).hosts, op.parsed.value.host, ref)
      then
        && n >= 0 && VisitsAre(front, visits[..n])
        && ResolvesTo(Run(front).hosts, op.parsed.value.host, visits[n].ref)
        && visits[n] == Visit(visits[n].ref, op.parsed.value.status, op.parsed.value.size, op.now)
      else VisitsAre(front, visits)
  }

  // It belongs to the ten-second bucket of a service.
  predicate InBucket(v: Visit, k: Key) {
    v.ref == k.ref && k.ts % 10_000_000_000 == 0 && k.ts <= v.now < k.ts + 10_000_000_000
  }

  function Number(visits: seq<Visit>, k: Key): int {
    if visits == [] then 0
    else Number(visits[..|visits| - 1], k) + if InBucket(visits[|visits| - 1], k) then 1 else 0
  }

  function Failures(visits: seq<Visit>, k: Key): int {
    if visits == [] then 0
    else Failures(visits[..|visits| - 1], k) + if InBucket(visits[|visits| - 1], k) && visits[|visits| - 1].status >= 500 then 1 else 0
  }

  function Volume(visits: seq<Visit>, k: Key): int {
    if visits == [] then 0
    else Volume(visits[..|visits| - 1], k) + if InBucket(visits[|visits| - 1], k) then visits[|visits| - 1].size else 0
  }

  lemma {:induction false} VisitsExist(ops: seq<Op>) returns (visits: seq<Visit>)
    ensures VisitsAre(ops, visits)
  {
    visits := [];
    if ops != [] {
      var front, op := ops[..|ops| - 1], ops[|ops| - 1];
      visits := VisitsExist(front);
      if op.Line? && op.parsed.Some? && op.parsed.value.host != "" {
        if ref :| ResolvesTo(Run(front).hosts, op.parsed.value.host, ref) {
          var more := visits + [Visit(ref, op.parsed.value.status, op.parsed.value.size, op.now)];
          assert more[..|visits|] == visits;
          visits := more;
        }
      }
    }
  }

  // What the lines add to a bucket is what their accesses say.
  lemma {:induction false} HitsAreVisits(ops: seq<Op>, visits: seq<Visit>, k: Key)
    requires VisitsAre(ops, visits)
    ensures SumFor(Run(ops).hits, k) == Totals(Number(visits, k), Failures(visits, k), Volume(visits, k))
  {
    if ops != [] {
      var front, op, n := ops[..|ops| - 1], ops[|ops| - 1], |visits| - 1;
      var hosts := Run(front).hosts;
      if op.Line? && op.parsed.Some? && op.parsed.value.host != "" && exists ref :: ResolvesTo(hosts, op.parsed.value.host, ref) {
        HitsAreVisits(front, visits[..n], k);
        HitResolves(hosts, op.parsed.value, op.now, visits[n].ref);
        LineSum(Run(front), op, k);
        BucketTimeIs(op.now, k.ts);
      } else {
        HitsAreVisits(front, visits, k);
        if op.Line? {
          LineSum(Run(front), op, k);
          NoHit(hosts, op.parsed, op.now);
        }
      }
    }
  }

  lemma NoHit(hosts: map<string, SvcRef>, parsed: Option<Access>, now: int)
    requires parsed.None? || parsed.value.host == "" || forall ref :: !ResolvesTo(hosts, parsed.value.host, ref)
    ensures HitOfLine(hosts, parsed, now) == None
  {
    if parsed.Some? && HostKey(parsed.value.host) in hosts {
      HitResolves(hosts, parsed.value, now, hosts[HostKey(parsed.value.host)]);
    }
  }

  lemma BucketTimeIs(now: int, ts: int)
    ensures BucketTime(now) == ts <==> ts % 10_000_000_000 == 0 && ts <= now < ts + 10_000_000_000
  {
  }

  // Over any run, for every service and ten seconds: what is pending, taken, stored and
  // lost together has as many requests as lines whose host resolved to the service in
  // that time, as many errors as those with a status from 500 up, and as many bytes as
  // they sent.
  lemma AccessesConserved(ops: seq<Op>, visits: seq<Visit>, k: Key)
    requires Valid(ops) && VisitsAre(ops, visits)
    ensures var s := Run(ops);
      var pending, taken, stored, lost := Get(s.buckets, k), Get(s.batch, k), Get(s.rows, k), Get(s.lost, k);
      && pending.requests + taken.requests + stored.requests + lost.requests == Number(visits, k)
      && pending.errors + taken.errors + stored.errors + lost.errors == Failures(visits, k)
      && pending.bytes + taken.bytes + stored.bytes + lost.bytes == Volume(visits, k)
  {
    CountsConserved(ops);
    HitsAreVisits(ops, visits, k);
    assert SumFor(Run(ops).hits, k) == Accounted(Run(ops), k);
  }

  // Where a host leads after a refresh: to the last assigned domain row of that name, or
  // else to the last automatic host of that name with an app and a service.
  predicate DomainSays(d: Domain, host: string) { d.appID != "" && d.serviceName != "" && ToLower(d.hostname) == host }

  predicate AutoSays(a: AutoHost, host: string) { a.hostname != "" && a.appID != "" && a.serviceName != "" && ToLower(a.hostname) == host }

  lemma {:induction false} LastDomainIs(domains: seq<Domain>, host: string)
    ensures var r := LastDomain(domains, host);
      if r.None? then forall i :: 0 <= i < |domains| ==> !DomainSays(domains[i], host)
      else exists i :: 0 <= i < |domains| && DomainSays(domains[i], host) && r.value == SvcRef(domains[i].appID, domains[i].serviceName)
             && forall j :: i < j < |domains| ==> !DomainSays(domains[j], host)
  {
    if domains != [] {
      var n := |domains| - 1;
      LastDomainIs(domains[..n], host);
      assert forall i :: 0 <= i < n ==> domains[..n][i] == domains[i];
      if DomainSays(domains[n], host) {
        assert LastDomain(domains, host) == Some(SvcRef(domains[n].appID, domains[n].serviceName));
      }
    }
  }

  lemma {:induction false} LastAutoIs(autos: seq<AutoHost>, host: string)
    ensures var r := LastAuto(autos, host);
      if r.None? then forall i :: 0 <= i < |autos| ==> !AutoSays(autos[i], host)
      else exists i :: 0 <= i < |autos| && AutoSays(autos[i], host) && r.value == SvcRef(autos[i].appID, autos[i].serviceName)
             && forall j :: i < j < |autos| ==> !AutoSays(autos[j], host)
  {
    if autos != [] {
      var n := |autos| - 1;
      LastAutoIs(autos[..n], host);
      assert forall i :: 0 <= i < n ==> autos[..n][i] == autos[i];
      if AutoSays(autos[n], host) {
        assert LastAuto(autos, host) == Some(SvcRef(autos[n].appID, autos[n].serviceName));
      }
    }
  }

  // A row of the domains decides before any automatic host.
  lemma RefreshedLeads(hosts: map<string, SvcRef>, autos: seq<AutoHost>, domains: seq<Domain>, host: string)
    requires HostsAre(hosts, autos, domains)
    ensures (exists i :: 0 <= i < |domains| && DomainSays(domains[i], host)) ==>
      host in hosts
      && (exists i :: 0 <= i < |domains| && DomainSays(domains[i], host)
            && hosts[host] == SvcRef(domains[i].appID, domains[i].serviceName)
            && forall j :: i < j < |domains| ==> !DomainSays(domains[j], host))
    ensures (forall i :: 0 <= i < |domains| ==> !DomainSays(domains[i], host)) ==>
      if host in hosts then
        exists i :: 0 <= i < |autos| && AutoSays(autos[i], host) && hosts[host] == SvcRef(autos[i].appID, autos[i].serviceName)
          && forall j :: i < j < |autos| ==> !AutoSays(autos[j], host)
      else forall i :: 0 <= i < |autos| ==> !AutoSays(autos[i], host)
  {
    LastDomainIs(domains, host);
    LastAutoIs(autos, host);
    assert Find(hosts, host) == Resolved(autos, domains, host);
  }

  ghost predicate NoFailedWrite(ops: seq<Op>) { forall i :: 0 <= i < |ops| ==> !(ops[i].Write? && ops[i].fails) }

  lemma NothingAccounted(s: State, k: Key)
    requires Get(s.buckets, k) == ZERO && Get(s.batch, k) == ZERO && Get(s.rows, k) == ZERO && Get(s.lost, k) == ZERO
    ensures Accounted(s, k) == ZERO
  {
  }

  lemma NothingIn(k: Key)
    ensures Get(map[], k) == ZERO
  {
  }

  lemma StartBalanced()
    ensures Balanced(START)
  {
    forall k ensures SumFor(START.hits, k) == Accounted(START, k) {
      NothingIn(k);
      NothingAccounted(START, k);
    }
  }

  lemma {:induction false} RunBalanced(ops: seq<Op>)
    requires Valid(ops)
    ensures Balanced(Run(ops))
  {
    if ops == [] {
      StartBalanced();
    } else {
      FrontValid(ops);
      RunBalanced(ops[..|ops| - 1]);
      NextBalanced(Run(ops[..|ops| - 1]), ops[|ops| - 1]);
    }
  }

  lemma FrontValid(ops: seq<Op>)
    requires Valid(ops) && ops != []
    ensures Valid(ops[..|ops| - 1]) && Enabled(Run(ops[..|ops| - 1]), ops[|ops| - 1])
  {
    var front := ops[..|ops| - 1];
    forall i | 0 <= i < |front| ensures Enabled(Run(front[..i]), front[i]) {
      assert ops[..i] == front[..i];
    }
  }

  lemma {:induction false} RunCounts(ops: seq<Op>)
    ensures |Run(ops).hits| + Run(ops).skipped == |Run(ops).lines|
    ensures NoFailedWrite(ops) ==> NothingLost(Run(ops))
  {
    if ops != [] {
      var before, op := Run(ops[..|ops| - 1]), ops[|ops| - 1];
      RunCounts(ops[..|ops| - 1]);
      LineOrNot(before, op);
      if NoFailedWrite(ops) {
        KeepsLost(before, op);
      }
    }
  }

  lemma LineOrNot(s: State, op: Op)
    ensures |Next(s, op).hits| + Next(s, op).skipped - |Next(s, op).lines| == |s.hits| + s.skipped - |s.lines|
  {
  }

  ghost predicate NothingLost(s: State) { s.lost == map[] }

  lemma KeepsLost(s: State, op: Op)
    requires !(op.Write? && op.fails)
    ensures Next(s, op).lost == s.lost
  {
  }

  // A failed write drops its batch for good: the buckets were emptied before it.
  lemma FailedWriteLoses(s: State, ledger: map<Key, Totals>, k: Key)
    requires s.batch == map[] && Grown(s.lost, ledger, s.buckets) && Get(s.buckets, k) != ZERO
    ensures var s' := Next(Next(s, Take), Write(true, ledger));
      s'.rows == s.rows && Get(s'.lost, k) != Get(s.lost, k) && k !in s'.buckets
  {
    assert Get(ledger, k) == Plus(Get(s.lost, k), Get(s.buckets, k));
  }

  // The counted lines, in order, under the hosts in force at each line.
  function LinesOf(ops: seq<Op>): seq<Tailer.Bytes> {
    if ops == [] then []
    else
      var before := LinesOf(ops[..|ops| - 1]);
      if ops[|ops| - 1].Line? then before + [ops[|ops| - 1].bytes] else before
  }

  lemma {:induction false} LinesRecorded(ops: seq<Op>)
    ensures Run(ops).lines == LinesOf(ops)
  {
    if ops != [] {
      LinesRecorded(ops[..|ops| - 1]);
    }
  }

  // End to end: when the lines handled are those the tailer handed over, every complete
  // line of an append-only log up to the tailer's offset is counted exactly once or
  // skipped, and the counted ones are all in the balance.
  lemma LogToBuckets(events: seq<Tailer.Event>, ops: seq<Op>)
    requires Tailer.AppendOnly(events) && Valid(ops)
    requires LinesOf(ops) == Tailer.Run(events).handled
    ensures var log, s := Tailer.Run(events), Run(ops);
      && log.offset <= |log.file|
      && s.lines == Tailer.Lines(log.file[..log.offset])
      && |s.hits| + s.skipped == |Tailer.Lines(log.file[..log.offset])|
      && Balanced(s)
  {
    Tailer.TailIsExact(events);
    LinesRecorded(ops);
    CountsConserved(ops);
  }
}
