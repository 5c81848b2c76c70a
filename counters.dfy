/**
 * ReportersCounter: a table of (org, type, count) rows. Every contact created
 * adds count-1 rows; get_counts adds up the rows of each type; squash_counts
 * replaces each group of same-type rows by one row holding their sum.
 */
module Counters {
  import opened Wrappers
  import opened Tables

  /** One ReportersCounter row; kind is the row's `type` column (a dimension key such as `gender:m`). */
  datatype Counter = Counter(id: nat, org: OrgId, kind: string, count: int)

  /** The rows that get_counts adds together and squash_counts merges: one (org, type) pair. */
  datatype Bucket = Bucket(org: OrgId, kind: string)

  function BucketOf(r: Counter): Bucket
  {
    Bucket(r.org, r.kind)
  }

  /** Sum of the counts of the rows in bucket b. */
  function SumOf(rows: seq<Counter>, b: Bucket): int
  {
    if rows == [] then 0
    else
      var last := rows[|rows| - 1];
      SumOf(rows[..|rows| - 1], b) + (if BucketOf(last) == b then last.count else 0)
  }

  /** Number of rows in bucket b. */
  function CountOf(rows: seq<Counter>, b: Bucket): nat
  {
    if rows == [] then 0
    else CountOf(rows[..|rows| - 1], b) + (if BucketOf(rows[|rows| - 1]) == b then 1 else 0)
  }

  /** The types that have at least one row for org. */
  function KindsOf(rows: seq<Counter>, org: OrgId): set<string>
  {
    set r | r in rows && r.org == org :: r.kind
  }

  /** No key list (None) selects every type; a key list selects the types it names. */
  predicate Selected(keys: Option<set<string>>, kind: string)
  {
    keys.None? || kind in keys.value
  }

  /**
   * What ReportersCounter.get_counts(org, keys) answers: per selected type with
   * rows, the sum of its rows. A type without rows is absent, never zero.
   */
  function Counts(rows: seq<Counter>, org: OrgId, keys: Option<set<string>>): (r: map<string, int>)
    ensures forall k :: k in r <==> Selected(keys, k) && CountOf(rows, Bucket(org, k)) > 0
    ensures forall k :: k in r ==> r[k] == SumOf(rows, Bucket(org, k))
  {
    KindsCountedAll(rows, org);
    map k | k in KindsOf(rows, org) && Selected(keys, k) :: SumOf(rows, Bucket(org, k))
  }

  /**
   * Row ids strictly increase along the table and stay below bound: primary
   * keys are handed out in increasing order and never reused.
   */
  predicate Ordered(rows: seq<Counter>, bound: nat)
  {
    rows == [] || (rows[|rows| - 1].id < bound && Ordered(rows[..|rows| - 1], rows[|rows| - 1].id))
  }

  // ---------------------------------------------------------------------------
  // Facts about sums and row counts

  lemma SumAppend(s: seq<Counter>, x: Counter, b: Bucket)
    ensures SumOf(s + [x], b) == SumOf(s, b) + (if BucketOf(x) == b then x.count else 0)
    ensures CountOf(s + [x], b) == CountOf(s, b) + (if BucketOf(x) == b then 1 else 0)
  {
    assert (s + [x])[..|s|] == s;
  }

  lemma {:induction false} SumConcat(s: seq<Counter>, t: seq<Counter>, b: Bucket)
    ensures SumOf(s + t, b) == SumOf(s, b) + SumOf(t, b)
    ensures CountOf(s + t, b) == CountOf(s, b) + CountOf(t, b)
    decreases |t|
  {
    if t != [] {
      var t', x := t[..|t| - 1], t[|t| - 1];
      assert t == t' + [x];
      assert s + t == (s + t') + [x];
      SumConcat(s, t', b);
      SumAppend(s + t', x, b);
      SumAppend(t', x, b);
      assert SumOf(s + t, b) == SumOf((s + t') + [x], b);
      assert CountOf(s + t, b) == CountOf((s + t') + [x], b);
    } else {
      assert s + t == s;
    }
  }

  /** A bucket without rows sums to zero; a row is counted in its own bucket. */
  lemma {:induction false} CountMembers(rows: seq<Counter>, b: Bucket)
    ensures CountOf(rows, b) == 0 ==> SumOf(rows, b) == 0
    ensures CountOf(rows, b) > 0 <==> exists r :: r in rows && BucketOf(r) == b
  {
    if rows != [] {
      var p, x := rows[..|rows| - 1], rows[|rows| - 1];
      CountMembers(p, b);
      assert rows == p + [x];
      assert forall r :: r in rows <==> r in p || r == x;
    }
  }

  lemma KindsCounted(rows: seq<Counter>, org: OrgId, k: string)
    ensures k in KindsOf(rows, org) <==> CountOf(rows, Bucket(org, k)) > 0
  {
    CountMembers(rows, Bucket(org, k));
    if k in KindsOf(rows, org) {
      var r :| r in rows && r.org == org && r.kind == k;
      assert BucketOf(r) == Bucket(org, k);
    }
  }

  lemma KindsCountedAll(rows: seq<Counter>, org: OrgId)
    ensures forall k :: k in KindsOf(rows, org) <==> CountOf(rows, Bucket(org, k)) > 0
  {
    forall k
      ensures k in KindsOf(rows, org) <==> CountOf(rows, Bucket(org, k)) > 0
    {
      KindsCounted(rows, org, k);
    }
  }

  // ---------------------------------------------------------------------------
  // get_counts

  /** A table without rows answers every query with the empty mapping. */
  lemma CountsEmpty(org: OrgId, keys: Option<set<string>>)
    ensures Counts([], org, keys) == map[]
  {
  }

  /** Asking for a key list gives the full answer restricted to exactly those keys. */
  lemma CountsRestricted(rows: seq<Counter>, org: OrgId, ks: set<string>)
    ensures Counts(rows, org, Some(ks)).Keys == Counts(rows, org, None).Keys * ks
    ensures forall k :: k in Counts(rows, org, Some(ks)) ==> Counts(rows, org, Some(ks))[k] == Counts(rows, org, None)[k]
  {
  }

  /** The entry of one type after one more row: it gains the row's count when the row is in its bucket. */
  lemma CountsAppendAt(s: seq<Counter>, x: Counter, org: OrgId, keys: Option<set<string>>, k: string)
    ensures var before, after := Counts(s, org, keys), Counts(s + [x], org, keys);
            && (k in after <==> k in before || (k == x.kind && x.org == org && Selected(keys, k)))
            && (k in after ==> after[k] == (if k in before then before[k] else 0) + (if BucketOf(x) == Bucket(org, k) then x.count else 0))
  {
    SumAppend(s, x, Bucket(org, k));
    CountMembers(s, Bucket(org, k));
  }

  /** How one more row changes the answer: its type gains its count, or appears with it. */
  lemma CountsAppend(s: seq<Counter>, x: Counter, org: OrgId, keys: Option<set<string>>)
    ensures Counts(s + [x], org, keys) ==
              if x.org == org && Selected(keys, x.kind) then
                Counts(s, org, keys)[x.kind := (if x.kind in Counts(s, org, keys) then Counts(s, org, keys)[x.kind] else 0) + x.count]
              else Counts(s, org, keys)
  {
    var before, after := Counts(s, org, keys), Counts(s + [x], org, keys);
    var expected :=
      if x.org == org && Selected(keys, x.kind) then
        before[x.kind := (if x.kind in before then before[x.kind] else 0) + x.count]
      else before;
    forall k
      ensures k in after <==> k in expected
      ensures k in after ==> after[k] == expected[k]
    {
      CountsAppendAt(s, x, org, keys, k);
    }
    assert after == expected;
  }

  // ---------------------------------------------------------------------------
  // Counter rows added for a new contact

  /** One count-1 row per kind, for org, with ids handed out from firstId on. */
  function Increments(org: OrgId, kinds: seq<string>, firstId: nat): (r: seq<Counter>)
    ensures |r| == |kinds|
    ensures forall i :: 0 <= i < |r| ==> r[i] == Counter(firstId + i, org, kinds[i], 1)
  {
    if kinds == [] then []
    else Increments(org, kinds[..|kinds| - 1], firstId) + [Counter(firstId + |kinds| - 1, org, kinds[|kinds| - 1], 1)]
  }

  /** The added rows contribute, to each bucket of org, the number of times its type is listed. */
  lemma {:induction false} IncrementsSum(org: OrgId, kinds: seq<string>, firstId: nat, b: Bucket)
    ensures SumOf(Increments(org, kinds, firstId), b) == if b.org == org then multiset(kinds)[b.kind] else 0
    ensures CountOf(Increments(org, kinds, firstId), b) == if b.org == org then multiset(kinds)[b.kind] else 0
  {
    if kinds != [] {
      var p, k := kinds[..|kinds| - 1], kinds[|kinds| - 1];
      assert kinds == p + [k];
      IncrementsSum(org, p, firstId, b);
      SumAppend(Increments(org, p, firstId), Counter(firstId + |kinds| - 1, org, k, 1), b);
    }
  }

  lemma {:induction false} IncrementsOrdered(rows: seq<Counter>, org: OrgId, kinds: seq<string>, firstId: nat)
    requires Ordered(rows, firstId)
    ensures Ordered(rows + Increments(org, kinds, firstId), firstId + |kinds|)
  {
    if kinds != [] {
      var p := kinds[..|kinds| - 1];
      IncrementsOrdered(rows, org, p, firstId);
      var s := rows + Increments(org, p, firstId);
      var x := Counter(firstId + |kinds| - 1, org, kinds[|kinds| - 1], 1);
      assert Increments(org, kinds, firstId) == Increments(org, p, firstId) + [x];
      assert rows + Increments(org, kinds, firstId) == s + [x];
      assert (s + [x])[..|s|] == s;
      assert (s + [x])[|s|] == x;
      assert Ordered(s + [x], firstId + |kinds|);
    } else {
      assert rows + Increments(org, kinds, firstId) == rows;
    }
  }

  /**
   * Counts are additive: after the rows for a contact are added, every selected
   * type of org gains the number of times it is listed, and a listed type that
   * had no rows now appears.
   */
  lemma CountsAfterIncrements(rows: seq<Counter>, org: OrgId, kinds: seq<string>, firstId: nat,
                              keys: Option<set<string>>, k: string)
    requires Selected(keys, k)
    ensures var before, after := Counts(rows, org, keys), Counts(rows + Increments(org, kinds, firstId), org, keys);
            && (k in after <==> k in before || k in kinds)
            && (k in after ==> after[k] == (if k in before then before[k] else 0) + multiset(kinds)[k])
  {
    var all := rows + Increments(org, kinds, firstId);
    var b := Bucket(org, k);
    SumConcat(rows, Increments(org, kinds, firstId), b);
    IncrementsSum(org, kinds, firstId, b);
    CountMembers(rows, b);
  }

  // ---------------------------------------------------------------------------
  // squash_counts

  /** The rows outside bucket b, in their order. */
  function Without(rows: seq<Counter>, b: Bucket): seq<Counter>
  {
    if rows == [] then []
    else
      var last := rows[|rows| - 1];
      Without(rows[..|rows| - 1], b) + (if BucketOf(last) == b then [] else [last])
  }

  /** Removing a bucket removes exactly its rows. */
  lemma {:induction false} WithoutSize(rows: seq<Counter>, b: Bucket)
    ensures |Without(rows, b)| + CountOf(rows, b) == |rows|
  {
    if rows != [] {
      WithoutSize(rows[..|rows| - 1], b);
    }
  }

  /** The distinct buckets of the table, in order of first appearance. */
  function Buckets(rows: seq<Counter>): seq<Bucket>
  {
    if rows == [] then []
    else
      var prior := Buckets(rows[..|rows| - 1]);
      var b := BucketOf(rows[|rows| - 1]);
      if b in prior then prior else prior + [b]
  }

  /**
   * One step of the squash: a bucket with more than one row loses them all and
   * gains one fresh row (id nextId) holding their sum; any other bucket is left alone.
   */
  function SquashBucket(rows: seq<Counter>, b: Bucket, nextId: nat): (r: (seq<Counter>, nat))
    ensures |r.0| <= |rows| && r.1 >= nextId
  {
    WithoutSize(rows, b);
    if CountOf(rows, b) > 1 then (Without(rows, b) + [Counter(nextId, b.org, b.kind, SumOf(rows, b))], nextId + 1)
    else (rows, nextId)
  }

  /** The squash steps for the buckets bs, taken in order. */
  function SquashBuckets(rows: seq<Counter>, bs: seq<Bucket>, nextId: nat): (r: (seq<Counter>, nat))
    ensures |r.0| <= |rows| && r.1 >= nextId
  {
    if bs == [] then (rows, nextId)
    else
      var (r, n) := SquashBuckets(rows, bs[..|bs| - 1], nextId);
      SquashBucket(r, bs[|bs| - 1], n)
  }

  /** The table and the next free id after ReportersCounter.squash_counts(). */
  function Squash(rows: seq<Counter>, nextId: nat): (r: (seq<Counter>, nat))
    ensures |r.0| <= |rows| && r.1 >= nextId
  {
    SquashBuckets(rows, Buckets(rows), nextId)
  }

  function AtMostOne(n: nat): nat
  {
    if n > 1 then 1 else n
  }

  lemma {:induction false} WithoutEffect(rows: seq<Counter>, b: Bucket, c: Bucket)
    ensures SumOf(Without(rows, b), c) == if c == b then 0 else SumOf(rows, c)
    ensures CountOf(Without(rows, b), c) == if c == b then 0 else CountOf(rows, c)
  {
    if rows != [] {
      var p, x := rows[..|rows| - 1], rows[|rows| - 1];
      WithoutEffect(p, b, c);
      assert rows == p + [x];
      SumAppend(p, x, c);
      if BucketOf(x) == b {
        assert Without(rows, b) == Without(p, b);
      } else {
        SumAppend(Without(p, b), x, c);
      }
    }
  }

  lemma {:induction false} WithoutMembers(rows: seq<Counter>, b: Bucket)
    ensures forall x :: x in Without(rows, b) <==> x in rows && BucketOf(x) != b
  {
    if rows != [] {
      var p, x := rows[..|rows| - 1], rows[|rows| - 1];
      WithoutMembers(p, b);
      assert rows == p + [x];
    }
  }

  lemma {:induction false} BucketsCover(rows: seq<Counter>, c: Bucket)
    ensures c in Buckets(rows) <==> CountOf(rows, c) > 0
  {
    if rows != [] {
      BucketsCover(rows[..|rows| - 1], c);
    }
  }

  lemma SquashBucketEffect(rows: seq<Counter>, b: Bucket, nextId: nat, c: Bucket)
    ensures var (r, n) := SquashBucket(rows, b, nextId);
            && SumOf(r, c) == SumOf(rows, c)
            && CountOf(r, c) == (if c == b then AtMostOne(CountOf(rows, c)) else CountOf(rows, c))
            && n >= nextId
  {
    if CountOf(rows, b) > 1 {
      var w := Without(rows, b);
      WithoutEffect(rows, b, c);
      SumAppend(w, Counter(nextId, b.org, b.kind, SumOf(rows, b)), c);
    }
  }

  /** Each step keeps every bucket's sum; a processed bucket keeps at most one row, the others keep theirs. */
  lemma {:induction false} SquashBucketsEffect(rows: seq<Counter>, bs: seq<Bucket>, nextId: nat, c: Bucket)
    ensures var (r, n) := SquashBuckets(rows, bs, nextId);
            && SumOf(r, c) == SumOf(rows, c)
            && CountOf(r, c) == (if c in bs then AtMostOne(CountOf(rows, c)) else CountOf(rows, c))
            && n >= nextId
  {
    if bs != [] {
      var prefix, b := bs[..|bs| - 1], bs[|bs| - 1];
      assert bs == prefix + [b];
      SquashBucketsEffect(rows, prefix, nextId, c);
      var (r, n) := SquashBuckets(rows, prefix, nextId);
      SquashBucketEffect(r, b, n, c);
    }
  }

  /** Squashing changes no bucket's sum: get_counts neither gains nor loses reporters. */
  lemma SquashKeepsSums(rows: seq<Counter>, nextId: nat, c: Bucket)
    ensures SumOf(Squash(rows, nextId).0, c) == SumOf(rows, c)
  {
    SquashBucketsEffect(rows, Buckets(rows), nextId, c);
  }

  /** After squashing, each bucket that had rows has exactly one, and no bucket appears from nowhere. */
  lemma SquashLeavesOneRow(rows: seq<Counter>, nextId: nat, c: Bucket)
    ensures CountOf(Squash(rows, nextId).0, c) == if CountOf(rows, c) > 0 then 1 else 0
  {
    SquashBucketsEffect(rows, Buckets(rows), nextId, c);
    BucketsCover(rows, c);
  }

  /** Squashing does not change what get_counts answers. */
  lemma SquashKeepsCounts(rows: seq<Counter>, nextId: nat, org: OrgId, keys: Option<set<string>>)
    ensures Counts(Squash(rows, nextId).0, org, keys) == Counts(rows, org, keys)
  {
    var after := Squash(rows, nextId).0;
    forall k
      ensures k in Counts(after, org, keys) <==> k in Counts(rows, org, keys)
      ensures k in Counts(after, org, keys) ==> Counts(after, org, keys)[k] == Counts(rows, org, keys)[k]
    {
      SquashKeepsSums(rows, nextId, Bucket(org, k));
      SquashLeavesOneRow(rows, nextId, Bucket(org, k));
    }
  }

  lemma {:induction false} SquashBucketsNoop(rows: seq<Counter>, bs: seq<Bucket>, nextId: nat)
    requires forall c :: CountOf(rows, c) <= 1
    ensures SquashBuckets(rows, bs, nextId) == (rows, nextId)
  {
    if bs != [] {
      SquashBucketsNoop(rows, bs[..|bs| - 1], nextId);
    }
  }

  /** A second squash straight after the first changes nothing, not even the next id. */
  lemma SquashIdempotent(rows: seq<Counter>, nextId: nat)
    ensures var (r, n) := Squash(rows, nextId); Squash(r, n) == (r, n)
  {
    var (r, n) := Squash(rows, nextId);
    forall c
      ensures CountOf(r, c) <= 1
    {
      SquashLeavesOneRow(rows, nextId, c);
    }
    SquashBucketsNoop(r, Buckets(r), n);
  }

  /** A row that is alone in its bucket survives the squash unchanged, id included. */
  lemma {:induction false} SquashBucketsKeepsSingle(rows: seq<Counter>, bs: seq<Bucket>, nextId: nat, x: Counter)
    requires x in rows && CountOf(rows, BucketOf(x)) == 1
    ensures x in SquashBuckets(rows, bs, nextId).0
  {
    if bs != [] {
      var prefix, b := bs[..|bs| - 1], bs[|bs| - 1];
      SquashBucketsKeepsSingle(rows, prefix, nextId, x);
      var (r, n) := SquashBuckets(rows, prefix, nextId);
      SquashBucketsEffect(rows, prefix, nextId, BucketOf(x));
      if CountOf(r, b) > 1 {
        WithoutMembers(r, b);
      }
    }
  }

  lemma SquashKeepsSingles(rows: seq<Counter>, nextId: nat, x: Counter)
    requires x in rows && CountOf(rows, BucketOf(x)) == 1
    ensures x in Squash(rows, nextId).0
  {
    SquashBucketsKeepsSingle(rows, Buckets(rows), nextId, x);
  }

  /**
   * Every row after the squash steps for bs is either an original row whose
   * bucket was alone or not yet processed, or a fresh row with id nextId or above.
   */
  lemma {:induction false} SquashBucketsOrigin(rows: seq<Counter>, bs: seq<Bucket>, nextId: nat, x: Counter)
    requires x in SquashBuckets(rows, bs, nextId).0
    ensures (x in rows && (CountOf(rows, BucketOf(x)) == 1 || BucketOf(x) !in bs)) || x.id >= nextId
  {
    if bs != [] {
      var prefix, b := bs[..|bs| - 1], bs[|bs| - 1];
      assert bs == prefix + [b];
      var (r, n) := SquashBuckets(rows, prefix, nextId);
      SquashBucketsEffect(rows, prefix, nextId, b);
      if CountOf(r, b) > 1 {
        WithoutMembers(r, b);
        if x in Without(r, b) {
          SquashBucketsOrigin(rows, prefix, nextId, x);
        }
      } else {
        SquashBucketsOrigin(rows, prefix, nextId, x);
        CountMembers(r, BucketOf(x));
        assert BucketOf(x) == b ==> CountOf(r, b) > 0;
      }
    }
  }

  lemma {:induction false} OrderedBelow(rows: seq<Counter>, bound: nat, x: Counter)
    requires Ordered(rows, bound) && x in rows
    ensures x.id < bound
  {
    var p, last := rows[..|rows| - 1], rows[|rows| - 1];
    assert rows == p + [last];
    if x != last {
      OrderedBelow(p, last.id, x);
    }
  }

  lemma {:induction false} OrderedDistinct(rows: seq<Counter>, bound: nat, x: Counter, y: Counter)
    requires Ordered(rows, bound) && x in rows && y in rows && x.id == y.id
    ensures x == y
  {
    var p, last := rows[..|rows| - 1], rows[|rows| - 1];
    assert rows == p + [last];
    if x != last && y != last {
      OrderedDistinct(p, last.id, x, y);
    } else if x != last {
      OrderedBelow(p, last.id, x);
    } else if y != last {
      OrderedBelow(p, last.id, y);
    }
  }

  /** Every row of a merged group is gone after the squash: no row keeps its id. */
  lemma SquashRemovesMerged(rows: seq<Counter>, nextId: nat, x: Counter)
    requires Ordered(rows, nextId)
    requires x in rows && CountOf(rows, BucketOf(x)) > 1
    ensures forall y :: y in Squash(rows, nextId).0 ==> y.id != x.id
  {
    OrderedBelow(rows, nextId, x);
    forall y | y in Squash(rows, nextId).0
      ensures y.id != x.id
    {
      SquashBucketsOrigin(rows, Buckets(rows), nextId, y);
      if y in rows {
        CountMembers(rows, BucketOf(y));
        BucketsCover(rows, BucketOf(y));
        if y.id == x.id {
          OrderedDistinct(rows, nextId, x, y);
        }
      }
    }
  }

  lemma {:induction false} WithoutOrdered(rows: seq<Counter>, b: Bucket, bound: nat)
    requires Ordered(rows, bound)
    ensures Ordered(Without(rows, b), bound)
  {
    if rows != [] {
      var p, last := rows[..|rows| - 1], rows[|rows| - 1];
      WithoutOrdered(p, b, last.id);
      var w := Without(p, b);
      if BucketOf(last) != b {
        assert (w + [last])[..|w|] == w;
      } else {
        assert Without(rows, b) == w;
        assert w == [] || Ordered(w[..|w| - 1], w[|w| - 1].id);
      }
    }
  }

  /** One squash step keeps the ids ordered and below the new next id. */
  lemma SquashBucketOrdered(rows: seq<Counter>, b: Bucket, nextId: nat)
    requires Ordered(rows, nextId)
    ensures var (r, n) := SquashBucket(rows, b, nextId); Ordered(r, n)
  {
    if CountOf(rows, b) > 1 {
      WithoutOrdered(rows, b, nextId);
      var w := Without(rows, b);
      assert (w + [Counter(nextId, b.org, b.kind, SumOf(rows, b))])[..|w|] == w;
      assert w == [] || Ordered(w[..|w| - 1], w[|w| - 1].id);
    }
  }

  /** Squashing keeps the ids ordered and below the new next id. */
  lemma {:induction false} SquashBucketsOrdered(rows: seq<Counter>, bs: seq<Bucket>, nextId: nat)
    requires Ordered(rows, nextId)
    ensures var (r, n) := SquashBuckets(rows, bs, nextId); Ordered(r, n)
  {
    if bs != [] {
      var prefix, b := bs[..|bs| - 1], bs[|bs| - 1];
      SquashBucketsOrdered(rows, prefix, nextId);
      var (r, n) := SquashBuckets(rows, prefix, nextId);
      SquashBucketOrdered(r, b, n);
    }
  }

  // ---------------------------------------------------------------------------
  // The table

  class CounterTable {
    var rows: seq<Counter>
    /** The primary key the next inserted row receives. */
    var nextId: nat
    /** How many times squash_counts has run on this table. */
    ghost var squashes: nat

    ghost predicate Valid()
      reads this
    {
      Ordered(rows, nextId)
    }

    constructor ()
      ensures Valid() && rows == [] && nextId == 0 && squashes == 0
    {
      rows := [];
      nextId := 0;
      squashes := 0;
    }

    /** ReportersCounter.objects.create(org=org, type=kind, count=count). */
    method Create(org: OrgId, kind: string, count: int) returns (id: nat)
      requires Valid()
      modifies this
      ensures Valid()
      ensures id == old(nextId) && nextId == old(nextId) + 1
      ensures rows == old(rows) + [Counter(id, org, kind, count)]
      ensures squashes == old(squashes)
    {
      id := nextId;
      assert (rows + [Counter(id, org, kind, count)])[..|rows|] == rows;
      rows := rows + [Counter(id, org, kind, count)];
      nextId := nextId + 1;
    }

    /** The rows a contact's save adds: one count-1 row of org per listed type, in order. */
    method AddCounts(org: OrgId, kinds: seq<string>)
      requires Valid()
      modifies this
      ensures Valid()
      ensures rows == old(rows) + Increments(org, kinds, old(nextId))
      ensures nextId == old(nextId) + |kinds|
      ensures squashes == old(squashes)
    {
      var i := 0;
      while i < |kinds|
        invariant 0 <= i <= |kinds|
        invariant rows == old(rows) + Increments(org, kinds[..i], old(nextId))
        invariant nextId == old(nextId) + i
        invariant Valid() && squashes == old(squashes)
      {
        assert kinds[..i + 1][..i] == kinds[..i];
        assert Increments(org, kinds[..i + 1], old(nextId)) ==
               Increments(org, kinds[..i], old(nextId)) + [Counter(nextId, org, kinds[i], 1)];
        IncrementsOrdered(old(rows), org, kinds[..i + 1], old(nextId));
        rows := rows + [Counter(nextId, org, kinds[i], 1)];
        nextId := nextId + 1;
        i := i + 1;
      }
      assert kinds[..|kinds|] == kinds;
    }

    /** ReportersCounter.get_counts(org, keys): per selected type with rows, the sum of its rows. */
    method GetCounts(org: OrgId, keys: Option<set<string>>) returns (counts: map<string, int>)
      ensures counts == Counts(rows, org, keys)
    {
      var rs := rows;
      counts := map[];
      var i := 0;
      while i < |rs|
        invariant 0 <= i <= |rs|
        invariant counts == Counts(rs[..i], org, keys)
      {
        var r := rs[i];
        assert rs[..i + 1] == rs[..i] + [r];
        CountsAppend(rs[..i], r, org, keys);
        if r.org == org && Selected(keys, r.kind) {
          counts := counts[r.kind := (if r.kind in counts then counts[r.kind] else 0) + r.count];
        }
        i := i + 1;
      }
      assert rs[..|rs|] == rs;
    }

    /** Sum and number of the rows in bucket b. */
    method Tally(b: Bucket) returns (n: nat, total: int)
      ensures n == CountOf(rows, b) && total == SumOf(rows, b)
    {
      n, total := 0, 0;
      var i := 0;
      while i < |rows|
        invariant 0 <= i <= |rows|
        invariant n == CountOf(rows[..i], b) && total == SumOf(rows[..i], b)
      {
        SumAppend(rows[..i], rows[i], b);
        assert rows[..i + 1] == rows[..i] + [rows[i]];
        if BucketOf(rows[i]) == b {
          n, total := n + 1, total + rows[i].count;
        }
        i := i + 1;
      }
      assert rows[..|rows|] == rows;
    }

    /** The distinct (org, type) pairs of the table, in order of first appearance. */
    method DistinctBuckets() returns (bs: seq<Bucket>)
      ensures bs == Buckets(rows)
    {
      bs := [];
      var i := 0;
      while i < |rows|
        invariant 0 <= i <= |rows|
        invariant bs == Buckets(rows[..i])
      {
        assert rows[..i + 1][..i] == rows[..i];
        var b := BucketOf(rows[i]);
        if b !in bs {
          bs := bs + [b];
        }
        i := i + 1;
      }
      assert rows[..|rows|] == rows;
    }

    /** The rows outside bucket b, in order. */
    method RowsOutside(b: Bucket) returns (kept: seq<Counter>)
      ensures kept == Without(rows, b)
    {
      kept := [];
      var i := 0;
      while i < |rows|
        invariant 0 <= i <= |rows|
        invariant kept == Without(rows[..i], b)
      {
        assert rows[..i + 1][..i] == rows[..i];
        if BucketOf(rows[i]) != b {
          kept := kept + [rows[i]];
        }
        i := i + 1;
      }
      assert rows[..|rows|] == rows;
    }

    /** One step of the squash: merge the rows of bucket b into one fresh row when it has more than one. */
    method SquashBucketRows(b: Bucket)
      requires Valid()
      modifies this
      ensures Valid()
      ensures (rows, nextId) == SquashBucket(old(rows), b, old(nextId))
      ensures squashes == old(squashes)
    {
      SquashBucketOrdered(rows, b, nextId);
      var n, total := Tally(b);
      if n > 1 {
        var kept := RowsOutside(b);
        rows := kept + [Counter(nextId, b.org, b.kind, total)];
        nextId := nextId + 1;
      }
    }

    /**
     * ReportersCounter.squash_counts(): for every (org, type) with more than
     * one row, delete its rows and insert one row holding their sum.
     */
    method SquashCounts()
      requires Valid()
      modifies this
      ensures Valid()
      ensures (rows, nextId) == Squash(old(rows), old(nextId))
      ensures squashes == old(squashes) + 1
    {
      var buckets := DistinctBuckets();
      var i := 0;
      while i < |buckets|
        invariant 0 <= i <= |buckets|
        invariant (rows, nextId) == SquashBuckets(old(rows), buckets[..i], old(nextId))
        invariant Valid() && squashes == old(squashes)
      {
        assert buckets[..i + 1][..i] == buckets[..i];
        SquashBucketRows(buckets[i]);
        i := i + 1;
      }
      assert buckets[..|buckets|] == buckets;
      squashes := squashes + 1;
    }
  }
}
