/** The chained hash table, keyed by 5-tuple, that both the receiver and the sender keep their flows in. */
module FlowTable {
  import opened Bits
  import opened Wrappers
  import opened ReorderConfig

  datatype Entry<F> = Entry(key: FlowKey, flow: F)

  /** The bucket of a key: the low bits of its hash. */
  function BucketOf(hash: FlowKey -> nat, key: FlowKey, n: nat): (b: nat)
    requires n > 0
    ensures b < n
  {
    And(hash(key), n - 1)
  }

  /** The chains hold each key of the map exactly once, in its own bucket. */
  ghost predicate Chained<F>(chains: seq<seq<Entry<F>>>, entries: map<FlowKey, F>, hash: FlowKey -> nat) {
    && |chains| > 0
    && (forall b, i :: 0 <= b < |chains| && 0 <= i < |chains[b]| ==>
          chains[b][i].key in entries && entries[chains[b][i].key] == chains[b][i].flow &&
          BucketOf(hash, chains[b][i].key, |chains|) == b)
    && (forall b, i, j :: 0 <= b < |chains| && 0 <= i < j < |chains[b]| ==> chains[b][i].key != chains[b][j].key)
    && (forall k :: k in entries ==> Entry(k, entries[k]) in chains[BucketOf(hash, k, |chains|)])
  }

  lemma ChainedPrepend<F>(chains: seq<seq<Entry<F>>>, entries: map<FlowKey, F>, hash: FlowKey -> nat, key: FlowKey, f: F)
    requires Chained(chains, entries, hash) && key !in entries
    ensures var b := BucketOf(hash, key, |chains|);
      Chained(chains[b := [Entry(key, f)] + chains[b]], entries[key := f], hash)
  {
    hide BucketOf;
    var b := BucketOf(hash, key, |chains|);
    var more := [Entry(key, f)] + chains[b];
    assert forall e :: e in chains[b] ==> e in more;
    assert forall i :: 0 < i < |more| ==> more[i] == chains[b][i - 1];
  }

  function Without<T>(s: seq<T>, i: nat): seq<T>
    requires i < |s|
  {
    s[..i] + s[i + 1..]
  }

  lemma ChainedUnlink<F>(chains: seq<seq<Entry<F>>>, entries: map<FlowKey, F>, hash: FlowKey -> nat, b: nat, i: nat)
    requires Chained(chains, entries, hash) && b < |chains| && i < |chains[b]|
    ensures Chained(chains[b := Without(chains[b], i)], entries - {chains[b][i].key}, hash)
  {
    hide BucketOf;
    var e := chains[b][i];
    var less := Without(chains[b], i);
    assert forall j :: 0 <= j < |less| ==> less[j] == chains[b][if j < i then j else j + 1];
    forall k | k in entries && k != e.key && BucketOf(hash, k, |chains|) == b
      ensures Entry(k, entries[k]) in less
    {
      var j :| 0 <= j < |chains[b]| && chains[b][j] == Entry(k, entries[k]);
      assert less[if j < i then j else j - 1] == chains[b][j];
    }
  }

  /** The keys met before position i of bucket b in a walk over all chains. */
  ghost function Before<F>(chains: seq<seq<Entry<F>>>, b: nat, i: nat): set<FlowKey> {
    set c, j | 0 <= c < |chains| && 0 <= j < |chains[c]| && (c < b || (c == b && j < i)) :: chains[c][j].key
  }

  lemma BeforeNext<F>(chains: seq<seq<Entry<F>>>, entries: map<FlowKey, F>, hash: FlowKey -> nat, b: nat, i: nat)
    requires Chained(chains, entries, hash) && b < |chains| && i < |chains[b]|
    ensures Before(chains, b, i + 1) == Before(chains, b, i) + {chains[b][i].key}
    ensures chains[b][i].key in entries && chains[b][i].key !in Before(chains, b, i)
  {
    hide BucketOf;
    var key := chains[b][i].key;
    forall k | k in Before(chains, b, i)
      ensures k != key && k in Before(chains, b, i + 1)
    {
      var c, j :| 0 <= c < |chains| && 0 <= j < |chains[c]| && (c < b || (c == b && j < i)) && chains[c][j].key == k;
    }
  }

  lemma BeforeRow<F>(chains: seq<seq<Entry<F>>>, b: nat)
    requires b < |chains|
    ensures Before(chains, b, |chains[b]|) == Before(chains, b + 1, 0)
  {
  }

  lemma BeforeAll<F>(chains: seq<seq<Entry<F>>>, entries: map<FlowKey, F>, hash: FlowKey -> nat)
    requires Chained(chains, entries, hash)
    ensures Before(chains, 0, 0) == {}
    ensures Before(chains, |chains|, 0) == entries.Keys
  {
    hide BucketOf;
    forall k | k in entries
      ensures k in Before(chains, |chains|, 0)
    {
      var b := BucketOf(hash, k, |chains|);
      var i :| 0 <= i < |chains[b]| && chains[b][i] == Entry(k, entries[k]);
      assert chains[b][i].key == k;
    }
  }

  lemma BeforeUnlink<F>(chains: seq<seq<Entry<F>>>, b: nat, i: nat)
    requires b < |chains| && i < |chains[b]|
    ensures Before(chains[b := Without(chains[b], i)], b, i) == Before(chains, b, i)
  {
    var less := chains[b := Without(chains[b], i)];
    forall k | k in Before(chains, b, i)
      ensures k in Before(less, b, i)
    {
      var c, j :| 0 <= c < |chains| && 0 <= j < |chains[c]| && (c < b || (c == b && j < i)) && chains[c][j].key == k;
      assert less[c][j] == chains[c][j];
    }
  }

  class ChainTable<F> {
    const hash: FlowKey -> nat
    const buckets: array<seq<Entry<F>>>
    var count: nat
    ghost var entries: map<FlowKey, F>

    ghost predicate Valid()
      reads this, buckets
    {
      && Chained(buckets[..], entries, hash)
      && count == |entries|
    }

    constructor (hash: FlowKey -> nat, n: nat)
      requires n > 0
      ensures Valid() && entries == map[] && this.hash == hash && fresh(buckets) && buckets.Length == n
    {
      this.hash := hash;
      buckets := new seq<Entry<F>>[n](_ => []);
      count := 0;
      entries := map[];
    }

    method Lookup(key: FlowKey) returns (r: Option<F>)
      requires Valid()
      ensures r == if key in entries then Some(entries[key]) else None
    {
      hide BucketOf;
      var chain := buckets[BucketOf(hash, key, buckets.Length)];
      for i := 0 to |chain|
        invariant forall j :: 0 <= j < i ==> chain[j].key != key
      {
        if chain[i].key == key {
          return Some(chain[i].flow);
        }
      }
      return None;
    }

    method Prepend(key: FlowKey, f: F)
      requires Valid() && key !in entries
      modifies this`count, this`entries, buckets
      ensures Valid() && entries == old(entries)[key := f]
    {
      ChainedPrepend(buckets[..], entries, hash, key, f);
      hide Chained, BucketOf;
      ghost var chains := buckets[..];
      var b := BucketOf(hash, key, buckets.Length);
      buckets[b] := [Entry(key, f)] + buckets[b];
      assert buckets[..] == chains[b := [Entry(key, f)] + chains[b]];
      count := count + 1;
      entries := entries[key := f];
    }

    method Unlink(b: nat, i: nat)
      requires Valid() && b < buckets.Length && i < |buckets[b]|
      modifies this`count, this`entries, buckets
      ensures Valid() && entries == old(entries) - {old(buckets[b][i].key)}
      ensures buckets[..] == old(buckets[..])[b := Without(old(buckets[b]), i)]
    {
      ChainedUnlink(buckets[..], entries, hash, b, i);
      ghost var chains := buckets[..];
      ghost var key := buckets[b][i].key;
      assert key in entries;
      buckets[b] := buckets[b][..i] + buckets[b][i + 1..];
      assert buckets[..] == chains[b := Without(chains[b], i)];
      count := count - 1;
      entries := entries - {key};
    }
  }
}
