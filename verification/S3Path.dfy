// Percent-encoding and request canonicalisation for signed S3 requests (backup/s3.go).
// The signature covers a canonical path computed from the decoded URL; it must be the
// path that is sent. Characters are bytes.
module S3Path {
  import opened Text
  import opened Ordering

  type Byte = c: char | c as int < 256 witness 'a'
  type Bytes = seq<Byte>

  // Unreserved characters: section 2.3 of RFC 3986.
  predicate Unreserved(c: char) {
    'A' <= c <= 'Z' || 'a' <= c <= 'z' || '0' <= c <= '9' || c == '-' || c == '.' || c == '_' || c == '~'
  }

  function HexDigit(n: int): (c: char)
    requires 0 <= n < 16
    ensures c as int < 256 && Unreserved(c)
  {
    if n < 10 then (n + '0' as int) as char else (n - 10 + 'A' as int) as char
  }

  // Either case is accepted: section 2.1 of RFC 3986.
  function HexValue(c: char): Option<int> {
    if '0' <= c <= '9' then Some(c as int - '0' as int)
    else if 'A' <= c <= 'F' then Some(c as int - 'A' as int + 10)
    else if 'a' <= c <= 'f' then Some(c as int - 'a' as int + 10)
    else None
  }

  lemma HexRoundTrip(n: int)
    requires 0 <= n < 16
    ensures HexValue(HexDigit(n)) == Some(n)
  {
  }

  function EncodeByte(c: Byte): (r: Bytes)
    ensures r != []
  {
    if Unreserved(c) then [c] else ['%', HexDigit(c as int / 16), HexDigit(c as int % 16)]
  }

  function Encode(s: Bytes): Bytes { if s == [] then [] else EncodeByte(s[0]) + Encode(s[1..]) }

  // encodeRFC3986.
  method EncodeRFC3986(s: Bytes) returns (out: Bytes)
    ensures out == Encode(s)
  {
    out := [];
    var i := 0;
    assert s[0..] == s;
    while i < |s|
      invariant i <= |s| && out + Encode(s[i..]) == Encode(s)
    {
      EncodeStep(out, s, i);
      out := out + EncodeByte(s[i]);
      i := i + 1;
    }
  }

  lemma EncodeStep(out: Bytes, s: Bytes, i: nat)
    requires i < |s|
    ensures out + Encode(s[i..]) == out + EncodeByte(s[i]) + Encode(s[i + 1..])
  {
    assert s[i..][1..] == s[i + 1..];
    Associate(out, EncodeByte(s[i]), Encode(s[i + 1..]));
  }

  lemma Associate(a: Bytes, b: Bytes, c: Bytes)
    ensures a + b + c == a + (b + c)
  {
  }

  // Percent-decoding, refusing a percent sign without two hex digits.
  function Decode(s: Bytes): Option<Bytes> {
    if s == [] then Some([])
    else if s[0] == '%' then
      if |s| < 3 || HexValue(s[1]).None? || HexValue(s[2]).None? then None
      else
        var rest := Decode(s[3..]);
        if rest.None? then None else Some([HexByte(HexValue(s[1]).value, HexValue(s[2]).value)] + rest.value)
    else
      var rest := Decode(s[1..]);
      if rest.None? then None else Some([s[0]] + rest.value)
  }

  function HexByte(high: int, low: int): Byte
    requires 0 <= high < 16 && 0 <= low < 16
  {
    (16 * high + low) as char
  }

  lemma DecodeByte(c: Byte, rest: Bytes)
    ensures Decode(EncodeByte(c) + rest) == if Decode(rest).None? then None else Some([c] + Decode(rest).value)
  {
    var e := EncodeByte(c);
    assert (e + rest)[|e|..] == rest;
    if !Unreserved(c) {
      HexRoundTrip(c as int / 16);
      HexRoundTrip(c as int % 16);
      assert HexByte(c as int / 16, c as int % 16) == c;
    }
  }

  // Decoding undoes encoding, for every byte string.
  lemma {:induction false} EncodeDecodes(s: Bytes)
    ensures Decode(Encode(s)) == Some(s)
  {
    if s != [] {
      EncodeDecodes(s[1..]);
      DecodeByte(s[0], Encode(s[1..]));
      assert s == [s[0]] + s[1..];
    }
  }

  // Only unreserved characters and %XX triplets.
  predicate Triplets(s: Bytes) {
    s == [] ||
    (if s[0] == '%' then |s| >= 3 && HexValue(s[1]).Some? && HexValue(s[2]).Some? && Triplets(s[3..])
     else Unreserved(s[0]) && Triplets(s[1..]))
  }

  lemma TripletsMore(c: Byte, rest: Bytes)
    requires Triplets(rest)
    ensures Triplets(EncodeByte(c) + rest)
  {
    var e := EncodeByte(c);
    assert (e + rest)[|e|..] == rest;
    if !Unreserved(c) {
      HexRoundTrip(c as int / 16);
      HexRoundTrip(c as int % 16);
    }
  }

  lemma {:induction false} EncodeTriplets(s: Bytes)
    ensures Triplets(Encode(s))
  {
    if s != [] {
      EncodeTriplets(s[1..]);
      TripletsMore(s[0], Encode(s[1..]));
    }
  }

  predicate AllUnreserved(s: Bytes) { forall i :: 0 <= i < |s| ==> Unreserved(s[i]) }

  lemma {:induction false} EncodeLonger(s: Bytes)
    ensures |Encode(s)| >= |s|
    ensures |Encode(s)| == |s| <==> AllUnreserved(s)
  {
    if s != [] {
      EncodeLonger(s[1..]);
      assert s == [s[0]] + s[1..];
      assert AllUnreserved(s) <==> Unreserved(s[0]) && AllUnreserved(s[1..]);
    }
  }

  // Encoding leaves a string alone exactly when nothing in it is reserved.
  lemma {:induction false} EncodeKeepsIff(s: Bytes)
    ensures Encode(s) == s <==> AllUnreserved(s)
  {
    EncodeLonger(s);
    if AllUnreserved(s) {
      EncodeKeeps(s);
    }
  }

  lemma {:induction false} EncodeKeeps(s: Bytes)
    requires AllUnreserved(s)
    ensures Encode(s) == s
  {
    if s != [] {
      EncodeKeeps(s[1..]);
      assert s == [s[0]] + s[1..];
    }
  }

  // ---- Paths ----

  function Slash(s: Bytes): (n: nat)
    ensures n <= |s| && '/' !in s[..n]
    ensures n < |s| ==> s[n] == '/'
  {
    if s == [] || s[0] == '/' then 0 else 1 + Slash(s[1..])
  }

  // strings.Split(s, "/").
  function Split(s: Bytes): (r: seq<Bytes>)
    ensures r != []
    decreases |s|
  {
    var n := Slash(s);
    if n == |s| then [s] else [s[..n]] + Split(s[n + 1..])
  }

  // strings.Join(segments, "/").
  function Join(segments: seq<Bytes>): Bytes {
    if segments == [] then [] else if |segments| == 1 then segments[0] else segments[0] + ['/'] + Join(segments[1..])
  }

  // encodeS3Path, which canonicalURIPath repeats on the decoded path.
  method EncodeS3Path(key: Bytes) returns (out: Bytes)
    ensures out == PathEncode(key)
  {
    var segments := Split(key);
    var i := 0;
    while i < |segments|
      invariant i <= |segments| == |Split(key)|
      invariant forall j :: 0 <= j < i ==> segments[j] == Encode(Split(key)[j])
      invariant forall j :: i <= j < |segments| ==> segments[j] == Split(key)[j]
    {
      var e := EncodeRFC3986(segments[i]);
      segments := segments[i := e];
      i := i + 1;
    }
    out := Join(segments);
    JoinEncoded(key, segments);
  }

  method CanonicalURIPath(path: Bytes) returns (out: Bytes)
    ensures out == if path == [] then ['/'] else PathEncode(path)
  {
    if path == [] {
      return ['/'];
    }
    out := EncodeS3Path(path);
  }

  // Byte by byte: a slash stays, the rest is encoded.
  function PathByte(c: Byte): Bytes { if c == '/' then ['/'] else EncodeByte(c) }

  function PathEncode(s: Bytes): Bytes { if s == [] then [] else PathByte(s[0]) + PathEncode(s[1..]) }

  lemma {:induction false} PathEncodeConcat(a: Bytes, b: Bytes)
    ensures PathEncode(a + b) == PathEncode(a) + PathEncode(b)
  {
    if a == [] {
      assert a + b == b;
    } else {
      PathEncodeConcat(a[1..], b);
      assert (a + b)[1..] == a[1..] + b;
      Associate(PathByte(a[0]), PathEncode(a[1..]), PathEncode(b));
    }
  }

  lemma {:induction false} PathEncodeSegment(s: Bytes)
    requires '/' !in s
    ensures PathEncode(s) == Encode(s)
  {
    if s != [] {
      PathEncodeSegment(s[1..]);
    }
  }

  predicate EncodedSegments(encoded: seq<Bytes>, segments: seq<Bytes>) {
    |encoded| == |segments| && forall i :: 0 <= i < |encoded| ==> encoded[i] == Encode(segments[i])
  }

  lemma SplitFirst(s: Bytes, encoded: seq<Bytes>)
    requires EncodedSegments(encoded, Split(s)) && Slash(s) < |s|
    ensures encoded != [] && encoded[0] == Encode(s[..Slash(s)]) && EncodedSegments(encoded[1..], Split(s[Slash(s) + 1..]))
    ensures Join(encoded) == encoded[0] + ['/'] + Join(encoded[1..])
  {
    var more := Split(s[Slash(s) + 1..]);
    assert Split(s) == [s[..Slash(s)]] + more;
    assert forall i :: 0 <= i < |more| ==> more[i] == Split(s)[i + 1];
  }

  lemma {:induction false} JoinEncoded(s: Bytes, encoded: seq<Bytes>)
    requires EncodedSegments(encoded, Split(s))
    ensures Join(encoded) == PathEncode(s)
    decreases |s|
  {
    var n := Slash(s);
    if n == |s| {
      assert s[..n] == s;
      PathEncodeSegment(s);
    } else {
      SplitFirst(s, encoded);
      JoinEncoded(s[n + 1..], encoded[1..]);
      FirstSegment(s, n);
    }
  }

  lemma FirstSegment(s: Bytes, n: nat)
    requires n < |s| && s[n] == '/' && '/' !in s[..n]
    ensures PathEncode(s) == Encode(s[..n]) + ['/'] + PathEncode(s[n + 1..])
  {
    SplitAt(s, n);
    PathEncodeSegment(s[..n]);
    PathEncodeSlash(s[..n], s[n + 1..]);
  }

  lemma SplitAt(s: Bytes, n: nat)
    requires n < |s| && s[n] == '/'
    ensures s == s[..n] + ['/'] + s[n + 1..]
  {
  }

  lemma PathEncodeSlash(a: Bytes, b: Bytes)
    ensures PathEncode(a + ['/'] + b) == PathEncode(a) + ['/'] + PathEncode(b)
  {
    PathEncodeConcat(a + ['/'], b);
    PathEncodeConcat(a, ['/']);
    assert ['/'][1..] == [];
    assert PathEncode(['/']) == ['/'];
  }

  function Prepended(c: Byte, rest: Option<Bytes>): Option<Bytes> {
    if rest.None? then None else Some([c] + rest.value)
  }

  lemma DecodeChar(c: Byte, rest: Bytes)
    requires c != '%'
    ensures Decode([c] + rest) == Prepended(c, Decode(rest))
  {
    assert ([c] + rest)[1..] == rest;
  }

  lemma DecodePathByte(c: Byte, rest: Bytes)
    ensures Decode(PathByte(c) + rest) == Prepended(c, Decode(rest))
  {
    if c == '/' {
      DecodeChar(c, rest);
    } else {
      DecodeByte(c, rest);
    }
  }

  lemma {:induction false} PathEncodeDecodes(s: Bytes, rest: Bytes)
    requires Decode(rest).Some?
    ensures Decode(PathEncode(s) + rest) == Some(s + Decode(rest).value)
  {
    if s == [] {
      assert PathEncode(s) + rest == rest;
      assert s + Decode(rest).value == Decode(rest).value;
    } else {
      PathEncodeDecodes(s[1..], rest);
      Associate(PathByte(s[0]), PathEncode(s[1..]), rest);
      DecodePathByte(s[0], PathEncode(s[1..]) + rest);
      Associate([s[0]], s[1..], Decode(rest).value);
      assert s == [s[0]] + s[1..];
    }
  }

  // The path of objectURL, as sent.
  function SentPath(bucket: Bytes, objKey: Bytes): Bytes { ['/'] + bucket + ['/'] + PathEncode(objKey) }

  // The bucket is put into the URL as it is; a path ends at ? or #, and % starts an escape.
  predicate PlainBucket(bucket: Bytes) { '%' !in bucket && '?' !in bucket && '#' !in bucket }

  lemma {:induction false} DecodePlain(s: Bytes, rest: Bytes)
    requires '%' !in s && Decode(rest).Some?
    ensures Decode(s + rest) == Some(s + Decode(rest).value)
  {
    if s == [] {
      assert s + rest == rest;
      assert s + Decode(rest).value == Decode(rest).value;
    } else {
      DecodePlain(s[1..], rest);
      Associate([s[0]], s[1..], rest);
      DecodeChar(s[0], s[1..] + rest);
      Associate([s[0]], s[1..], Decode(rest).value);
      assert s == [s[0]] + s[1..];
    }
  }

  // The signed path is computed from the decoded URL path.
  function SignedPath(sent: Bytes): Option<Bytes> {
    var path := Decode(sent);
    if path.None? then None else if path.value == [] then Some(['/']) else Some(PathEncode(path.value))
  }

  lemma SentPathDecodes(bucket: Bytes, objKey: Bytes)
    requires '%' !in bucket
    ensures Decode(SentPath(bucket, objKey)) == Some(['/'] + bucket + ['/'] + objKey)
  {
    KeyDecodes(objKey);
    DecodePlain(['/'] + bucket + ['/'], PathEncode(objKey));
  }

  lemma KeyDecodes(objKey: Bytes)
    ensures Decode(PathEncode(objKey)) == Some(objKey)
  {
    PathEncodeDecodes(objKey, []);
    assert PathEncode(objKey) + [] == PathEncode(objKey) && objKey + [] == objKey;
  }

  // A reserved byte other than a slash.
  predicate NeedsEscape(c: char) { !Unreserved(c) && c != '/' }

  lemma {:induction false} PathEncodeLength(s: Bytes)
    ensures |PathEncode(s)| >= |s|
    ensures PathEncode(s) == s <==> forall i :: 0 <= i < |s| ==> !NeedsEscape(s[i])
  {
    if s != [] {
      PathEncodeLength(s[1..]);
      assert s == [s[0]] + s[1..];
      if !NeedsEscape(s[0]) {
        assert PathEncode(s) == [s[0]] + PathEncode(s[1..]);
        assert PathEncode(s)[1..] == PathEncode(s[1..]);
      }
    }
  }

  // The signed path is the path sent, whatever the object key, exactly when the bucket
  // holds nothing that would need escaping.
  lemma SignedPathIsSentIff(bucket: Bytes, objKey: Bytes)
    requires PlainBucket(bucket)
    ensures SignedPath(SentPath(bucket, objKey)) == Some(SentPath(bucket, objKey))
      <==> forall i :: 0 <= i < |bucket| ==> !NeedsEscape(bucket[i])
  {
    SignedPathIs(bucket, objKey);
    SameMiddle(PathEncode(bucket), bucket, PathEncode(objKey));
    PathEncodeLength(bucket);
  }

  lemma SignedPathIs(bucket: Bytes, objKey: Bytes)
    requires PlainBucket(bucket)
    ensures SignedPath(SentPath(bucket, objKey)) == Some(['/'] + PathEncode(bucket) + ['/'] + PathEncode(objKey))
  {
    SentPathDecodes(bucket, objKey);
    PathEncodeSlash(['/'] + bucket, objKey);
    PathEncodeConcat(['/'], bucket);
    assert ['/'][1..] == [];
    assert PathEncode(['/']) == ['/'];
  }

  lemma SameMiddle(a: Bytes, b: Bytes, rest: Bytes)
    ensures ['/'] + a + ['/'] + rest == ['/'] + b + ['/'] + rest <==> a == b
  {
    var s, t := ['/'] + a + ['/'] + rest, ['/'] + b + ['/'] + rest;
    assert s[1..1 + |a|] == a && t[1..1 + |b|] == b;
    assert |s| == |a| + |rest| + 2 && |t| == |b| + |rest| + 2;
  }

  // ---- Queries ----

  datatype Pair = Pair(key: Bytes, value: Bytes)

  predicate PairLe(a: Pair, b: Pair) { if a.key == b.key then Le(a.value, b.value) else Le(a.key, b.key) }

  lemma PairLeTransitive(a: Pair, b: Pair, c: Pair)
    requires PairLe(a, b) && PairLe(b, c)
    ensures PairLe(a, c)
  {
    if a.key == b.key == c.key {
      LeTransitive(a.value, b.value, c.value);
    } else if a.key != b.key && b.key != c.key {
      LeTransitive(a.key, b.key, c.key);
      if a.key == c.key {
        LeAntisymmetric(a.key, b.key);
      }
    }
  }

  lemma PairLeAntisymmetric(a: Pair, b: Pair)
    requires PairLe(a, b) && PairLe(b, a)
    ensures a == b
  {
    if a.key == b.key {
      LeAntisymmetric(a.value, b.value);
    } else {
      LeAntisymmetric(a.key, b.key);
    }
  }

  lemma PairLeOrders()
    ensures Total(PairLe) && Transitive(PairLe)
  {
    forall x: Pair, y: Pair ensures PairLe(x, y) || PairLe(y, x) {
      LeTotal(x.key, y.key);
      LeTotal(x.value, y.value);
    }
    forall x: Pair, y: Pair, z: Pair | PairLe(x, y) && PairLe(y, z) ensures PairLe(x, z) {
      PairLeTransitive(x, y, z);
    }
  }

  predicate BytesLe(a: Bytes, b: Bytes) { Le(a, b) }

  lemma BytesLeOrders()
    ensures Total(BytesLe) && Transitive(BytesLe)
  {
    forall x: Bytes, y: Bytes ensures BytesLe(x, y) || BytesLe(y, x) {
      LeTotal(x, y);
    }
    forall x: Bytes, y: Bytes, z: Bytes | BytesLe(x, y) && BytesLe(y, z) ensures BytesLe(x, z) {
      LeTransitive(x, y, z);
    }
  }

  // The values of a key, in order of occurrence (url.URL.Query).
  function Values(pairs: seq<Pair>, key: Bytes): seq<Bytes> {
    if pairs == [] then []
    else
      var p, before := pairs[|pairs| - 1], Values(pairs[..|pairs| - 1], key);
      if p.key == key then before + [p.value] else before
  }

  lemma {:induction false} ValuesCount(pairs: seq<Pair>, p: Pair)
    ensures multiset(Values(pairs, p.key))[p.value] == multiset(pairs)[p]
  {
    if pairs != [] {
      var front, last := pairs[..|pairs| - 1], pairs[|pairs| - 1];
      ValuesCount(front, p);
      assert pairs == front + [last];
    }
  }

  function PartText(p: Pair): Bytes { Encode(p.key) + ['='] + Encode(p.value) }

  function Parts(ps: seq<Pair>): seq<Bytes> {
    if ps == [] then [] else Parts(ps[..|ps| - 1]) + [PartText(ps[|ps| - 1])]
  }

  function JoinParts(parts: seq<Bytes>): Bytes {
    if parts == [] then [] else if |parts| == 1 then parts[0] else parts[0] + ['&'] + JoinParts(parts[1..])
  }

  // One key's pairs, by value.
  function Block(key: Bytes, values: seq<Bytes>): (r: seq<Pair>)
    ensures |r| == |values| && forall i :: 0 <= i < |r| ==> r[i] == Pair(key, values[i])
  {
    seq(|values|, i requires 0 <= i < |values| => Pair(key, values[i]))
  }

  // The pairs of the listed keys, key by key and by value within a key.
  function Blocks(pairs: seq<Pair>, keys: seq<Bytes>): seq<Pair> {
    if keys == [] then []
    else
      var k := keys[|keys| - 1];
      Blocks(pairs, keys[..|keys| - 1]) + Block(k, Sort(Values(pairs, k), BytesLe))
  }

  function Itself(key: Bytes): string { key }

  predicate Distinct(keys: seq<Bytes>) { DistinctBy(keys, Itself) }

  lemma {:induction false} BlockCount(key: Bytes, values: seq<Bytes>, p: Pair)
    ensures multiset(Block(key, values))[p] == if p.key == key then multiset(values)[p.value] else 0
  {
    if values != [] {
      var front, last := values[..|values| - 1], values[|values| - 1];
      BlockCount(key, front, p);
      assert Block(key, values) == Block(key, front) + [Pair(key, last)];
      assert values == front + [last];
    } else {
      assert Block(key, values) == [];
    }
  }

  lemma {:induction false} BlocksCount(pairs: seq<Pair>, keys: seq<Bytes>, p: Pair)
    requires Distinct(keys)
    ensures multiset(Blocks(pairs, keys))[p] == if p.key in keys then multiset(Values(pairs, p.key))[p.value] else 0
  {
    if keys != [] {
      var front, k := keys[..|keys| - 1], keys[|keys| - 1];
      var values := Sort(Values(pairs, k), BytesLe);
      BlocksCount(pairs, front, p);
      BlockCount(k, values, p);
      SortMultiset(Values(pairs, k), BytesLe);
      BlocksLast(pairs, front, k, p);
      assert keys == front + [k];
    }
  }

  lemma BlocksLast(pairs: seq<Pair>, front: seq<Bytes>, k: Bytes, p: Pair)
    ensures multiset(Blocks(pairs, front + [k]))[p]
      == multiset(Blocks(pairs, front))[p] + multiset(Block(k, Sort(Values(pairs, k), BytesLe)))[p]
  {
    assert (front + [k])[..|front|] == front;
  }

  lemma {:induction false} BlockSorted(key: Bytes, values: seq<Bytes>)
    requires Sorted(values, BytesLe)
    ensures Sorted(Block(key, values), PairLe)
  {
  }

  lemma {:induction false} BlocksKeys(pairs: seq<Pair>, keys: seq<Bytes>, i: nat)
    requires i < |Blocks(pairs, keys)|
    ensures Blocks(pairs, keys)[i].key in keys
  {
    var front, k := keys[..|keys| - 1], keys[|keys| - 1];
    if i < |Blocks(pairs, front)| {
      BlocksKeys(pairs, front, i);
    }
  }

  lemma {:induction false} BlocksSorted(pairs: seq<Pair>, keys: seq<Bytes>)
    requires Sorted(keys, BytesLe) && Distinct(keys)
    ensures Sorted(Blocks(pairs, keys), PairLe)
  {
    if keys != [] {
      var front, k := keys[..|keys| - 1], keys[|keys| - 1];
      var block := Block(k, Sort(Values(pairs, k), BytesLe));
      BlocksSorted(pairs, front);
      BytesLeOrders();
      SortSorted(Values(pairs, k), BytesLe);
      BlockSorted(k, Sort(Values(pairs, k), BytesLe));
      forall i, j | 0 <= i < |Blocks(pairs, front)| && 0 <= j < |block|
        ensures PairLe(Blocks(pairs, front)[i], block[j])
      {
        BlocksKeys(pairs, front, i);
        var m :| 0 <= m < |front| && front[m] == Blocks(pairs, front)[i].key;
        assert BytesLe(keys[m], keys[|keys| - 1]) && keys[m] != k;
      }
      SortedConcat(Blocks(pairs, front), block);
    }
  }

  lemma SortedConcat(a: seq<Pair>, b: seq<Pair>)
    requires Sorted(a, PairLe) && Sorted(b, PairLe)
    requires forall i, j :: 0 <= i < |a| && 0 <= j < |b| ==> PairLe(a[i], b[j])
    ensures Sorted(a + b, PairLe)
  {
  }

  // Every key that occurs, in order, once.
  ghost predicate KeysOf(keys: seq<Bytes>, pairs: seq<Pair>) {
    Distinct(keys) && Sorted(keys, BytesLe) && forall k: Bytes :: k in keys <==> Values(pairs, k) != []
  }

  // Sorting keys, then each key's values, is sorting the pairs.
  lemma BlocksAreSort(pairs: seq<Pair>, keys: seq<Bytes>)
    requires KeysOf(keys, pairs)
    ensures Blocks(pairs, keys) == Sort(pairs, PairLe)
  {
    PairLeOrders();
    SortSorted(pairs, PairLe);
    SortMultiset(pairs, PairLe);
    BlocksSorted(pairs, keys);
    forall p: Pair ensures multiset(Blocks(pairs, keys))[p] == multiset(pairs)[p] {
      BlocksCount(pairs, keys, p);
      ValuesCount(pairs, p);
    }
    assert multiset(Blocks(pairs, keys)) == multiset(pairs);
    PairsSeparate(Blocks(pairs, keys));
    SortedUnique(Blocks(pairs, keys), Sort(pairs, PairLe), PairLe);
  }

  lemma PairsSeparate(ps: seq<Pair>)
    ensures Separates(ps, PairLe)
  {
    forall i, j | 0 <= i < |ps| && 0 <= j < |ps| && PairLe(ps[i], ps[j]) && PairLe(ps[j], ps[i]) ensures ps[i] == ps[j] {
      PairLeAntisymmetric(ps[i], ps[j]);
    }
  }

  function CanonicalText(pairs: seq<Pair>): Bytes { JoinParts(Parts(Sort(pairs, PairLe))) }

  // The canonical query depends only on which pairs the query holds.
  lemma CanonicalQueryOfMultiset(a: seq<Pair>, b: seq<Pair>)
    requires multiset(a) == multiset(b)
    ensures CanonicalText(a) == CanonicalText(b)
  {
    PairLeOrders();
    SortSorted(a, PairLe);
    SortSorted(b, PairLe);
    SortMultiset(a, PairLe);
    SortMultiset(b, PairLe);
    PairsSeparate(Sort(a, PairLe));
    SortedUnique(Sort(a, PairLe), Sort(b, PairLe), PairLe);
  }

  // url.URL.Query: the values of each key in order of occurrence.
  method Query(pairs: seq<Pair>) returns (q: map<Bytes, seq<Bytes>>)
    ensures forall k: Bytes :: (if k in q then q[k] else []) == Values(pairs, k)
    ensures forall k: Bytes :: k in q ==> q[k] != []
  {
    q := map[];
    for n := 0 to |pairs|
      invariant forall k: Bytes :: (if k in q then q[k] else []) == Values(pairs[..n], k)
      invariant forall k: Bytes :: k in q ==> q[k] != []
    {
      assert pairs[..n + 1][..n] == pairs[..n];
      var p := pairs[n];
      q := q[p.key := (if p.key in q then q[p.key] else []) + [p.value]];
    }
    assert pairs[..|pairs|] == pairs;
  }

  lemma QueryKeys(pairs: seq<Pair>, q: map<Bytes, seq<Bytes>>, keys: seq<Bytes>)
    requires forall k: Bytes :: (if k in q then q[k] else []) == Values(pairs, k)
    requires forall k: Bytes :: k in q ==> q[k] != []
    requires Distinct(keys) && Sorted(keys, BytesLe) && forall k: Bytes :: k in keys <==> k in q.Keys
    ensures KeysOf(keys, pairs)
  {
    forall k: Bytes ensures k in keys <==> Values(pairs, k) != [] {
      assert (if k in q then q[k] else []) == Values(pairs, k);
    }
  }

  // canonicalQuery: keys are visited in sorted order, whatever order the map gives.
  method CanonicalQuery(pairs: seq<Pair>) returns (out: Bytes)
    ensures out == CanonicalText(pairs)
  {
    var q := Query(pairs);
    var keys := SortedKeys(q.Keys);
    QueryKeys(pairs, q, keys);
    var parts: seq<Bytes> := [];
    for n := 0 to |keys|
      invariant parts == Parts(Blocks(pairs, keys[..n]))
    {
      assert keys[n] in q && q[keys[n]] == Values(pairs, keys[n]);
      parts := AddParts(parts, Blocks(pairs, keys[..n]), keys[n], Sort(q[keys[n]], BytesLe));
      assert keys[..n + 1][..n] == keys[..n];
    }
    assert keys[..|keys|] == keys;
    BlocksAreSort(pairs, keys);
    out := JoinParts(parts);
  }

  method AddParts(parts: seq<Bytes>, ghost before: seq<Pair>, key: Bytes, values: seq<Bytes>) returns (all: seq<Bytes>)
    requires parts == Parts(before)
    ensures all == Parts(before + Block(key, values))
  {
    all := parts;
    ghost var block := Block(key, values);
    assert before + block[..0] == before;
    for n := 0 to |values|
      invariant all == Parts(before + block[..n])
    {
      var k := EncodeRFC3986(key);
      var v := EncodeRFC3986(values[n]);
      assert block[n] == Pair(key, values[n]) && PartText(block[n]) == k + ['='] + v;
      all := all + [k + ['='] + v];
      PartsStep(before, block, n);
    }
    assert block[..|values|] == block;
  }

  lemma PartsStep(before: seq<Pair>, block: seq<Pair>, n: nat)
    requires n < |block|
    ensures Parts(before + block[..n + 1]) == Parts(before + block[..n]) + [PartText(block[n])]
  {
    var ps := before + block[..n + 1];
    assert ps[..|ps| - 1] == before + block[..n];
  }

  // The keys of a map listed in any order, then sorted.
  method SortedKeys(all: set<Bytes>) returns (keys: seq<Bytes>)
    ensures Distinct(keys) && Sorted(keys, BytesLe) && forall k: Bytes :: k in keys <==> k in all
  {
    var listed: seq<Bytes> := [];
    var left := all;
    while left != {}
      invariant left <= all && Distinct(listed)
      invariant forall k: Bytes :: k in listed <==> k in all && k !in left
    {
      var k :| k in left;
      listed := listed + [k];
      left := left - {k};
    }
    keys := Sort(listed, BytesLe);
    BytesLeOrders();
    SortSorted(listed, BytesLe);
    SortMultiset(listed, BytesLe);
    PermutedDistinct(listed, keys, Itself);
    SameMembers(listed, keys);
  }

  // ---- Raw order against encoded order ----

  // At the first difference, a lower unreserved byte never meets a higher reserved one.
  predicate OrderKept(a: Bytes, b: Bytes) {
    a == [] || b == [] ||
    (if a[0] == b[0] then OrderKept(a[1..], b[1..]) else !OvertakenBy(a[0], b[0]) && !OvertakenBy(b[0], a[0]))
  }

  // c < d, but d's escape sorts before c.
  predicate OvertakenBy(c: Byte, d: Byte) { c < d && Unreserved(c) && !Unreserved(d) }

  lemma {:induction false} LeAfterPrefix(p: string, x: string, y: string)
    ensures Le(p + x, p + y) <==> Le(x, y)
  {
    if p == [] {
      assert p + x == x && p + y == y;
    } else {
      LeAfterPrefix(p[1..], x, y);
      assert (p + x)[1..] == p[1..] + x && (p + y)[1..] == p[1..] + y;
    }
  }

  lemma EscapeOrder(c: Byte, d: Byte, x: string, y: string)
    requires c != d && !Unreserved(c) && !Unreserved(d)
    ensures Le(EncodeByte(c) + x, EncodeByte(d) + y) <==> c < d
  {
    LeAfterPrefix(['%'], HexTail(c) + x, HexTail(d) + y);
    assert EncodeByte(c) + x == ['%'] + (HexTail(c) + x) && EncodeByte(d) + y == ['%'] + (HexTail(d) + y);
    HexTailOrder(c, d, x, y);
  }

  lemma HexTailOrder(c: Byte, d: Byte, x: string, y: string)
    requires c != d
    ensures Le(HexTail(c) + x, HexTail(d) + y) <==> c < d
  {
    HexOrder(c as int / 16, d as int / 16);
    HexOrder(c as int % 16, d as int % 16);
    var tc, td := [HexDigit(c as int % 16)] + x, [HexDigit(d as int % 16)] + y;
    assert HexTail(c) + x == [HexDigit(c as int / 16)] + tc && HexTail(d) + y == [HexDigit(d as int / 16)] + td;
    LeAfterPrefix([HexDigit(c as int / 16)], tc, td);
  }

  function HexTail(c: Byte): Bytes { [HexDigit(c as int / 16), HexDigit(c as int % 16)] }

  lemma HexOrder(m: int, n: int)
    requires 0 <= m < 16 && 0 <= n < 16
    ensures HexDigit(m) < HexDigit(n) <==> m < n
  {
  }

  lemma FirstByteOrder(c: Byte, d: Byte, x: string, y: string)
    requires c != d
    ensures Le(EncodeByte(c) + x, EncodeByte(d) + y) <==>
      if Unreserved(c) == Unreserved(d) then c < d else !Unreserved(c)
  {
    if !Unreserved(c) && !Unreserved(d) {
      EscapeOrder(c, d, x, y);
    }
  }

  // Keys are sorted raw; SigV4 asks for the encoded order. The two agree on a pair of
  // keys exactly when OrderKept holds.
  lemma {:induction false} EncodedOrderIff(a: Bytes, b: Bytes)
    ensures ((Le(a, b) <==> Le(Encode(a), Encode(b))) && (Le(b, a) <==> Le(Encode(b), Encode(a)))) <==> OrderKept(a, b)
  {
    if a != [] && b != [] {
      if a[0] == b[0] {
        EncodedOrderIff(a[1..], b[1..]);
        LeAfterPrefix(EncodeByte(a[0]), Encode(a[1..]), Encode(b[1..]));
        LeAfterPrefix(EncodeByte(a[0]), Encode(b[1..]), Encode(a[1..]));
      } else {
        FirstByteOrder(a[0], b[0], Encode(a[1..]), Encode(b[1..]));
        FirstByteOrder(b[0], a[0], Encode(b[1..]), Encode(a[1..]));
      }
    }
  }

  // So it does for the unreserved keys the client uses, and not for "z" against "{".
  lemma {:induction false} UnreservedOrderKept(a: Bytes, b: Bytes)
    requires AllUnreserved(a) && AllUnreserved(b)
    ensures OrderKept(a, b)
  {
    if a != [] && b != [] && a[0] == b[0] {
      UnreservedOrderKept(a[1..], b[1..]);
    }
  }

  lemma RawOrderCanDiffer()
    ensures Le("z", "{") && !Le(Encode("z"), Encode("{"))
  {
    EncodedOrderIff("z", "{");
    FirstByteOrder('z', '{', [], []);
    assert Encode("z") == EncodeByte('z') + [] && Encode("{") == EncodeByte('{') + [];
  }

  // ---- The encoding spelt out ----

  lemma {:induction false} EncodeConcat(a: Bytes, b: Bytes)
    ensures Encode(a + b) == Encode(a) + Encode(b)
  {
    if a == [] {
      assert a + b == b;
    } else {
      EncodeConcat(a[1..], b);
      assert (a + b)[1..] == a[1..] + b;
      Associate(EncodeByte(a[0]), Encode(a[1..]), Encode(b));
    }
  }

  // By its number: letters, digits, and - . _ ~ stand for themselves.
  predicate StandsForItself(n: int) {
    65 <= n <= 90 || 97 <= n <= 122 || 48 <= n <= 57 || n == 45 || n == 46 || n == 95 || n == 126
  }

  // Every other byte stands for a percent sign and its two capital hex digits.
  lemma EncodedByteIs(c: Byte)
    ensures Encode([c]) ==
      if StandsForItself(c as int) then [c]
      else ['%', "0123456789ABCDEF"[c as int / 16], "0123456789ABCDEF"[c as int % 16]]
  {
    assert Unreserved(c) <==> StandsForItself(c as int);
    assert [c][1..] == [] && EncodeByte(c) + [] == EncodeByte(c);
    HexDigitIs(c as int / 16);
    HexDigitIs(c as int % 16);
  }

  lemma HexDigitIs(n: int)
    requires 0 <= n < 16
    ensures HexDigit(n) == "0123456789ABCDEF"[n]
  {
  }

  // ---- Reading a canonical query back ----

  // The position of the first such byte, or the length.
  function Until(s: Bytes, c: Byte): (n: nat)
    ensures n <= |s| && (n < |s| ==> s[n] == c) && forall i :: 0 <= i < n ==> s[i] != c
  {
    if s == [] || s[0] == c then 0 else 1 + Until(s[1..], c)
  }

  // key=value, each percent-decoded.
  function ReadPart(s: Bytes): Option<Pair> {
    var n := Until(s, '=');
    if n == |s| || Decode(s[..n]).None? || Decode(s[n + 1..]).None? then None
    else Some(Pair(Decode(s[..n]).value, Decode(s[n + 1..]).value))
  }

  // Parts between ampersands.
  function ReadQuery(s: Bytes): Option<seq<Pair>>
    decreases |s|
  {
    var n := Until(s, '&');
    var first := ReadPart(s[..n]);
    if first.None? then None
    else if n == |s| then Some([first.value])
    else
      var rest := ReadQuery(s[n + 1..]);
      if rest.None? then None else Some([first.value] + rest.value)
  }

  lemma {:induction false} EncodeAvoids(s: Bytes, c: Byte)
    requires c == '=' || c == '&'
    ensures c !in Encode(s)
  {
    if s != [] {
      EncodeAvoids(s[1..], c);
    }
  }

  lemma UntilAt(a: Bytes, b: Bytes, c: Byte)
    requires c !in a && (b != [] ==> b[0] == c)
    ensures Until(a + b, c) == |a|
  {
    var s := a + b;
    assert forall i :: 0 <= i < |a| ==> s[i] == a[i];
    assert b != [] ==> s[|a|] == c;
  }

  lemma PartReadsBack(p: Pair)
    ensures ReadPart(PartText(p)) == Some(p) && '&' !in PartText(p)
  {
    var k, v := Encode(p.key), Encode(p.value);
    EncodeAvoids(p.key, '=');
    EncodeAvoids(p.key, '&');
    EncodeAvoids(p.value, '&');
    UntilAt(k, ['='] + v, '=');
    var s := PartText(p);
    assert s == k + (['='] + v);
    assert s[..|k|] == k && s[|k| + 1..] == v;
    EncodeDecodes(p.key);
    EncodeDecodes(p.value);
  }

  lemma {:induction false} PartsAt(ps: seq<Pair>, i: nat)
    requires i < |ps|
    ensures |Parts(ps)| == |ps| && Parts(ps)[i] == PartText(ps[i])
  {
    if i < |ps| - 1 {
      PartsAt(ps[..|ps| - 1], i);
    } else if i > 0 {
      PartsAt(ps[..|ps| - 1], i - 1);
    }
  }

  lemma ReadOne(p: Pair, text: Bytes)
    requires text == PartText(p)
    ensures ReadQuery(text) == Some([p])
  {
    PartReadsBack(p);
    UntilAt(text, [], '&');
    assert text + [] == text && text[..|text|] == text;
  }

  lemma ReadMore(p: Pair, first: Bytes, rest: Bytes, more: seq<Pair>, text: Bytes)
    requires first == PartText(p) && text == first + (['&'] + rest) && ReadQuery(rest) == Some(more)
    ensures ReadQuery(text) == Some([p] + more)
  {
    PartReadsBack(p);
    UntilAt(first, ['&'] + rest, '&');
    assert text[..|first|] == first && text[|first| + 1..] == rest;
  }

  lemma JoinTwo(parts: seq<Bytes>)
    requires |parts| > 1
    ensures JoinParts(parts) == parts[0] + (['&'] + JoinParts(parts[1..]))
  {
  }

  // The texts of these pairs, one by one.
  predicate TextsOf(parts: seq<Bytes>, ps: seq<Pair>) {
    |parts| == |ps| && forall i {:trigger parts[i]} :: 0 <= i < |ps| ==> parts[i] == PartText(ps[i])
  }

  lemma TextsTail(parts: seq<Bytes>, ps: seq<Pair>)
    requires ps != [] && TextsOf(parts, ps)
    ensures parts[0] == PartText(ps[0]) && TextsOf(parts[1..], ps[1..])
  {
  }

  lemma OneReadsBack(parts: seq<Bytes>, ps: seq<Pair>)
    requires |ps| == 1 && TextsOf(parts, ps)
    ensures ReadQuery(JoinParts(parts)) == Some(ps)
  {
    TextsTail(parts, ps);
    ReadOne(ps[0], parts[0]);
    assert [ps[0]] == ps;
  }

  lemma MoreReadsBack(parts: seq<Bytes>, ps: seq<Pair>, rest: Bytes)
    requires |ps| > 1 && TextsOf(parts, ps) && rest == JoinParts(parts[1..]) && ReadQuery(rest) == Some(ps[1..])
    ensures ReadQuery(JoinParts(parts)) == Some(ps)
  {
    TextsTail(parts, ps);
    JoinTwo(parts);
    ReadMore(ps[0], parts[0], rest, ps[1..], JoinParts(parts));
    assert [ps[0]] + ps[1..] == ps;
  }

  lemma {:induction false} JoinedReadsBack(parts: seq<Bytes>, ps: seq<Pair>)
    requires ps != [] && TextsOf(parts, ps)
    ensures ReadQuery(JoinParts(parts)) == Some(ps)
  {
    if |ps| == 1 {
      OneReadsBack(parts, ps);
    } else {
      TextsTail(parts, ps);
      JoinedReadsBack(parts[1..], ps[1..]);
      MoreReadsBack(parts, ps, JoinParts(parts[1..]));
    }
  }

  // Reading the canonical query back, parts between ampersands and decoded around the
  // equals sign, gives the pairs of the query, each as often as it was there, in ascending
  // order of key and then value.
  lemma CanonicalQueryReadsBack(pairs: seq<Pair>) returns (read: seq<Pair>)
    requires pairs != []
    ensures ReadQuery(CanonicalText(pairs)) == Some(read) && multiset(read) == multiset(pairs)
    ensures forall i, j :: 0 <= i < j < |read| ==> PairAscends(read[i], read[j])
  {
    read := Sort(pairs, PairLe);
    PairLeOrders();
    SortSorted(pairs, PairLe);
    SortMultiset(pairs, PairLe);
    assert |read| == |multiset(read)| == |pairs|;
    forall i | 0 <= i < |read| ensures |Parts(read)| == |read| && Parts(read)[i] == PartText(read[i]) {
      PartsAt(read, i);
    }
    PartsAt(read, 0);
    JoinedReadsBack(Parts(read), read);
    forall i, j | 0 <= i < j < |read| ensures PairAscends(read[i], read[j]) {
      assert PairLe(read[i], read[j]);
      LeAscends(read[i].key, read[j].key);
      LeAscends(read[i].value, read[j].value);
    }
  }

  predicate PairAscends(a: Pair, b: Pair) {
    Ascend(a.key, b.key) || (a.key == b.key && (a.value == b.value || Ascend(a.value, b.value)))
  }
}
