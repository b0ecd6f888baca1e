/**
 `LockLookupTable`: a vector of buckets, each an unordered list of entries under its own lock. Every
 operation is one critical section on one bucket, so the model takes it in one step.
 */
module LookupTable {

  datatype Entry<K, V> = Entry(key: K, value: V)

  // ---- What a list of entries means ----------------------------------------------------------------

  ghost predicate UniqueKeys<K, V>(data: seq<Entry<K, V>>) {
    forall i, j :: 0 <= i < j < |data| ==> data[i].key != data[j].key
  }

  /** The map from the keys to their values. */
  ghost function Meaning<K, V>(data: seq<Entry<K, V>>): map<K, V> {
    if data == [] then map[] else Meaning(data[..|data| - 1])[data[|data| - 1].key := data[|data| - 1].value]
  }

  lemma {:induction false} MeaningAt<K, V>(data: seq<Entry<K, V>>, i: nat)
    requires UniqueKeys(data) && i < |data|
    ensures data[i].key in Meaning(data) && Meaning(data)[data[i].key] == data[i].value
    decreases |data|
  {
    if i < |data| - 1 { MeaningAt(data[..|data| - 1], i); }
  }

  lemma {:induction false} MeaningFrom<K, V>(data: seq<Entry<K, V>>, k: K) returns (i: nat)
    requires k in Meaning(data)
    ensures i < |data| && data[i].key == k
    decreases |data|
  {
    var n := |data| - 1;
    if data[n].key == k { i := n; } else { i := MeaningFrom(data[..n], k); }
  }

  /** Entries with unique keys mean the same in any order. */
  lemma {:induction false} SameMeaning<K, V>(data: seq<Entry<K, V>>, m: map<K, V>)
    requires UniqueKeys(data)
    requires forall i :: 0 <= i < |data| ==> data[i].key in m && m[data[i].key] == data[i].value
    requires forall k :: k in m ==> exists i :: 0 <= i < |data| && data[i].key == k
    ensures Meaning(data) == m
  {
    forall k | k in m ensures k in Meaning(data) && Meaning(data)[k] == m[k] {
      var i :| 0 <= i < |data| && data[i].key == k;
      MeaningAt(data, i);
    }
    forall k | k in Meaning(data) ensures k in m {
      var i := MeaningFrom(data, k);
    }
  }

  lemma {:induction false} UpdateMeaning<K, V>(data: seq<Entry<K, V>>, i: nat, v: V)
    requires UniqueKeys(data) && i < |data|
    ensures UniqueKeys(data[i := Entry(data[i].key, v)])
    ensures Meaning(data[i := Entry(data[i].key, v)]) == Meaning(data)[data[i].key := v]
  {
    var data' := data[i := Entry(data[i].key, v)];
    forall j | 0 <= j < |data| ensures j != i ==> data'[j].key in Meaning(data) && Meaning(data)[data'[j].key] == data'[j].value {
      MeaningAt(data, j);
    }
    var m := Meaning(data)[data[i].key := v];
    forall k | k in m ensures exists j :: 0 <= j < |data'| && data'[j].key == k {
      if k == data[i].key {
        assert data'[i].key == k;
      } else {
        var j := MeaningFrom(data, k);
        assert data'[j].key == k;
      }
    }
    SameMeaning(data', m);
  }

  /** The entry at `i` is overwritten with the last one, and the last one dropped. */
  function SwapRemove<K, V>(data: seq<Entry<K, V>>, i: nat): seq<Entry<K, V>>
    requires i < |data|
  {
    data[i := data[|data| - 1]][..|data| - 1]
  }

  /** Exactly one key is gone. */
  lemma {:induction false} RemoveMeaning<K, V>(data: seq<Entry<K, V>>, i: nat)
    requires UniqueKeys(data) && i < |data|
    ensures UniqueKeys(SwapRemove(data, i)) && Meaning(SwapRemove(data, i)) == Meaning(data) - {data[i].key}
    ensures multiset(SwapRemove(data, i)) + multiset{data[i]} == multiset(data)
  {
    var n, data' := |data| - 1, SwapRemove(data, i);
    RemovePermutes(data, i);
    forall j | 0 <= j < n
      ensures data'[j].key in Meaning(data) - {data[i].key} && (Meaning(data) - {data[i].key})[data'[j].key] == data'[j].value
    {
      MeaningAt(data, if j == i then n else j);
    }
    forall k | k in Meaning(data) - {data[i].key} ensures exists j :: 0 <= j < n && data'[j].key == k {
      var j := MeaningFrom(data, k);
      assert data'[if j == n then i else j].key == k;
    }
    SameMeaning(data', Meaning(data) - {data[i].key});
  }

  lemma {:induction false} RemovePermutes<K, V>(data: seq<Entry<K, V>>, i: nat)
    requires i < |data|
    ensures multiset(SwapRemove(data, i)) + multiset{data[i]} == multiset(data)
  {
    var n := |data| - 1;
    if i == n {
      assert SwapRemove(data, i) == data[..n] && data == data[..n] + [data[n]];
    } else {
      var front, middle := data[..i], data[i + 1..n];
      assert SwapRemove(data, i) == front + [data[n]] + middle;
      assert data == front + [data[i]] + middle + [data[n]];
    }
  }

  // ---- bucket_type -------------------------------------------------------------------------------------

  class Bucket<K(==), V> {
    var data: seq<Entry<K, V>>

    constructor ()
      ensures data == []
    {
      data := [];
    }

    /** The first entry with the key, or the end. */
    method FindEntryFor(key: K) returns (found: nat)
      ensures found <= |data|
      ensures found < |data| ==> data[found].key == key
      ensures forall i :: 0 <= i < found ==> data[i].key != key
    {
      found := 0;
      while found < |data| && data[found].key != key
        invariant found <= |data|
        invariant forall i :: 0 <= i < found ==> data[i].key != key
      {
        found := found + 1;
      }
    }

    method AddOrUpdateNode(key: K, value: V)
      requires UniqueKeys(data)
      modifies this
      ensures UniqueKeys(data) && Meaning(data) == Meaning(old(data))[key := value]
    {
      var found := FindEntryFor(key);
      if found != |data| {
        UpdateMeaning(data, found, value);
        data := data[found := Entry(data[found].key, value)];
      } else {
        data := data + [Entry(key, value)];
      }
    }

    method DeleteNode(key: K)
      requires UniqueKeys(data)
      modifies this
      ensures UniqueKeys(data) && Meaning(data) == Meaning(old(data)) - {key}
      ensures |data| == |old(data)| - if key in Meaning(old(data)) then 1 else 0
      ensures multiset(data) <= multiset(old(data))
    {
      var found := FindEntryFor(key);
      if found != |data| {
        MeaningAt(data, found);
        RemoveMeaning(data, found);
        data := data[found := data[|data| - 1]];
        data := data[..|data| - 1];
      } else {
        NotThere(data, key);
      }
    }

    method ValueFor(key: K, defaultValue: V) returns (v: V)
      requires UniqueKeys(data)
      ensures v == if key in Meaning(data) then Meaning(data)[key] else defaultValue
    {
      var found := FindEntryFor(key);
      if found == |data| {
        NotThere(data, key);
        v := defaultValue;
      } else {
        MeaningAt(data, found);
        v := data[found].value;
      }
    }
  }

  lemma {:induction false} NotThere<K, V>(data: seq<Entry<K, V>>, key: K)
    requires forall i :: 0 <= i < |data| ==> data[i].key != key
    ensures key !in Meaning(data)
  {
    if key in Meaning(data) { var i := MeaningFrom(data, key); }
  }

  // ---- The table as one map ------------------------------------------------------------------------------

  /** The bucket of a key. */
  function Index<K>(hasher: K -> nat, size: nat, key: K): (i: nat)
    requires size > 0
    ensures i < size
  {
    hasher(key) % size
  }

  /** Every bucket has unique keys, all of which belong there. */
  ghost predicate Sorted<K(!new), V>(datas: seq<seq<Entry<K, V>>>, hasher: K -> nat, size: nat)
    requires size > 0
  {
    && (forall i :: 0 <= i < |datas| ==> UniqueKeys(datas[i]))
    && (forall i, k :: 0 <= i < |datas| && k in Meaning(datas[i]) ==> Index(hasher, size, k) == i)
  }

  ghost function Union<K, V>(datas: seq<seq<Entry<K, V>>>): map<K, V> {
    if datas == [] then map[] else Union(datas[..|datas| - 1]) + Meaning(datas[|datas| - 1])
  }

  /** In a sorted table a key is looked up in its bucket alone. */
  lemma {:induction false} LookupInBucket<K(!new), V>(datas: seq<seq<Entry<K, V>>>, hasher: K -> nat, size: nat, key: K)
    requires size > 0 && |datas| <= size && Sorted(datas, hasher, size)
    ensures var i := Index(hasher, size, key);
      (key in Union(datas) <==> i < |datas| && key in Meaning(datas[i]))
      && (key in Union(datas) ==> Union(datas)[key] == Meaning(datas[i])[key])
    decreases |datas|
  {
    if datas != [] { LookupInBucket(datas[..|datas| - 1], hasher, size, key); }
  }

  ghost predicate Agree<K, V>(m: map<K, V>, m': map<K, V>, k: K) {
    (k in m <==> k in m') && (k in m ==> m[k] == m'[k])
  }

  lemma {:induction false} ChangedKey<K(!new), V>(datas: seq<seq<Entry<K, V>>>, hasher: K -> nat, i: nat, data: seq<Entry<K, V>>, k: K)
    requires i < |datas| && Sorted(datas, hasher, |datas|) && Sorted(datas[i := data], hasher, |datas|)
    ensures Agree(Union(datas[i := data]), if Index(hasher, |datas|, k) == i then Meaning(data) else Union(datas), k)
    ensures Index(hasher, |datas|, k) == i ==> Agree(Union(datas), Meaning(datas[i]), k)
  {
    LookupInBucket(datas, hasher, |datas|, k);
    LookupInBucket(datas[i := data], hasher, |datas|, k);
  }

  /** What an operation does to the bucket of its key, it does to the table. */
  lemma {:induction false} ChangeBucket<K(!new), V>(datas: seq<seq<Entry<K, V>>>, hasher: K -> nat, key: K, data: seq<Entry<K, V>>, m: map<K, V>)
    requires |datas| > 0 && Sorted(datas, hasher, |datas|)
    requires Sorted(datas[Index(hasher, |datas|, key) := data], hasher, |datas|)
    requires forall k :: k != key ==> Agree(Meaning(data), Meaning(datas[Index(hasher, |datas|, key)]), k)
    requires Agree(m, Meaning(data), key) && forall k :: k != key ==> Agree(m, Union(datas), k)
    ensures Union(datas[Index(hasher, |datas|, key) := data]) == m
  {
    var i := Index(hasher, |datas|, key);
    var u := Union(datas[i := data]);
    forall k ensures Agree(u, m, k) {
      ChangedKey(datas, hasher, i, data, k);
      assert k != key ==> Agree(Meaning(data), Meaning(datas[i]), k) && Agree(m, Union(datas), k);
    }
    SameMap(u, m);
  }

  lemma {:induction false} SameMap<K(!new), V>(m: map<K, V>, m': map<K, V>)
    requires forall k :: Agree(m, m', k)
    ensures m == m'
  {
    assert forall k :: k in m <==> k in m' by { forall k ensures k in m <==> k in m' { assert Agree(m, m', k); } }
    forall k | k in m ensures m[k] == m'[k] { assert Agree(m, m', k); }
  }

  /** A changed bucket whose keys still belong there leaves the table sorted. */
  lemma {:induction false} StaysSorted<K(!new), V>(datas: seq<seq<Entry<K, V>>>, hasher: K -> nat, key: K, data: seq<Entry<K, V>>)
    requires |datas| > 0 && Sorted(datas, hasher, |datas|) && UniqueKeys(data)
    requires forall k :: k in Meaning(data) ==> k == key || k in Meaning(datas[Index(hasher, |datas|, key)])
    ensures Sorted(datas[Index(hasher, |datas|, key) := data], hasher, |datas|)
  {
  }

  // ---- Runs of operations ----------------------------------------------------------------------------------

  datatype Operation<K, V> = AddOrUpdate(key: K, value: V) | Delete(key: K) | Lookup(key: K, defaultValue: V)

  datatype Answer<V> = Done | Found(value: V)

  /** What a map with defaults does. */
  function Apply<K, V>(m: map<K, V>, op: Operation<K, V>): map<K, V> {
    match op
    case AddOrUpdate(key, value) => m[key := value]
    case Delete(key) => m - {key}
    case Lookup(_, _) => m
  }

  function Respond<K, V>(m: map<K, V>, op: Operation<K, V>): Answer<V> {
    match op
    case Lookup(key, defaultValue) => Found(if key in m then m[key] else defaultValue)
    case _ => Done
  }

  function After<K, V>(m: map<K, V>, ops: seq<Operation<K, V>>): map<K, V> {
    if ops == [] then m else Apply(After(m, ops[..|ops| - 1]), ops[|ops| - 1])
  }

  function Responses<K, V>(m: map<K, V>, ops: seq<Operation<K, V>>): seq<Answer<V>> {
    if ops == [] then []
    else Responses(m, ops[..|ops| - 1]) + [Respond(After(m, ops[..|ops| - 1]), ops[|ops| - 1])]
  }

  // ---- LockLookupTable ---------------------------------------------------------------------------------------

  class LockLookupTable<K(==,!new), V> {
    const buckets: seq<Bucket<K, V>>
    const hasher: K -> nat

    ghost predicate Distinct() {
      |buckets| > 0 && forall i, j :: 0 <= i < j < |buckets| ==> buckets[i] != buckets[j]
    }

    ghost function Datas(): (datas: seq<seq<Entry<K, V>>>)
      reads buckets
      ensures |datas| == |buckets|
    {
      seq(|buckets|, i requires 0 <= i < |buckets| reads buckets => buckets[i].data)
    }

    ghost predicate Valid()
      reads buckets
    {
      Distinct() && Sorted(Datas(), hasher, |buckets|)
    }

    /** The table as a map. */
    ghost function Contents(): map<K, V>
      reads buckets
    {
      Union(Datas())
    }

    constructor (size: nat, hasher: K -> nat)
      requires size > 0
      ensures Valid() && fresh(buckets) && |buckets| == size && this.hasher == hasher && Contents() == map[]
    {
      var made: seq<Bucket<K, V>> := [];
      while |made| < size
        invariant |made| <= size && fresh(made)
        invariant forall i :: 0 <= i < |made| ==> made[i].data == []
        invariant forall i, j :: 0 <= i < j < |made| ==> made[i] != made[j]
      {
        var bucket := new Bucket<K, V>();
        made := made + [bucket];
      }
      buckets, this.hasher := made, hasher;
      new;
      EmptyUnion(Datas());
    }

    method GetBucket(key: K) returns (bucket: Bucket<K, V>)
      requires Distinct()
      ensures bucket == buckets[Index(hasher, |buckets|, key)]
    {
      var index := hasher(key) % |buckets|;
      bucket := buckets[index];
    }

    method AddOrUpdateTable(key: K, value: V)
      requires Valid()
      modifies buckets
      ensures Valid() && Contents() == old(Contents())[key := value]
    {
      ghost var datas := Datas();
      var bucket := GetBucket(key);
      assert datas[Index(hasher, |buckets|, key)] == bucket.data;
      bucket.AddOrUpdateNode(key, value);
      assert Datas() == datas[Index(hasher, |buckets|, key) := bucket.data];
      StaysSorted(datas, hasher, key, bucket.data);
      ChangeBucket(datas, hasher, key, bucket.data, Union(datas)[key := value]);
    }

    method DeleteTable(key: K)
      requires Valid()
      modifies buckets
      ensures Valid() && Contents() == old(Contents()) - {key}
    {
      ghost var datas := Datas();
      var bucket := GetBucket(key);
      assert datas[Index(hasher, |buckets|, key)] == bucket.data;
      bucket.DeleteNode(key);
      assert Datas() == datas[Index(hasher, |buckets|, key) := bucket.data];
      StaysSorted(datas, hasher, key, bucket.data);
      ChangeBucket(datas, hasher, key, bucket.data, Union(datas) - {key});
    }

    method ValueFor(key: K, defaultValue: V) returns (v: V)
      requires Valid()
      ensures v == if key in Contents() then Contents()[key] else defaultValue
    {
      var bucket := GetBucket(key);
      LookupInBucket(Datas(), hasher, |buckets|, key);
      assert Datas()[Index(hasher, |buckets|, key)] == bucket.data;
      v := bucket.ValueFor(key, defaultValue);
    }

    /** Any sequence of operations is answered as a map with defaults answers it. */
    method Perform(ops: seq<Operation<K, V>>) returns (answers: seq<Answer<V>>)
      requires Valid()
      modifies buckets
      ensures Valid() && Contents() == After(old(Contents()), ops) && answers == Responses(old(Contents()), ops)
    {
      ghost var m := Contents();
      answers := [];
      for i := 0 to |ops|
        invariant Valid() && Contents() == After(m, ops[..i]) && answers == Responses(m, ops[..i])
      {
        assert ops[..i + 1][..i] == ops[..i];
        match ops[i] {
          case AddOrUpdate(key, value) =>
            AddOrUpdateTable(key, value);
            answers := answers + [Done];
          case Delete(key) =>
            DeleteTable(key);
            answers := answers + [Done];
          case Lookup(key, defaultValue) =>
            var v := ValueFor(key, defaultValue);
            answers := answers + [Found(v)];
        }
      }
      assert ops[..|ops|] == ops;
    }
  }

  lemma {:induction false} EmptyUnion<K, V>(datas: seq<seq<Entry<K, V>>>)
    requires forall i :: 0 <= i < |datas| ==> datas[i] == []
    ensures Union(datas) == map[]
  {
    if datas != [] { EmptyUnion(datas[..|datas| - 1]); }
  }
}
