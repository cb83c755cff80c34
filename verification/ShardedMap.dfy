/** The sharded map: one map cut into shards by a 32-bit hash of the key. */
module ShardedMap {
  import opened Common

  type Key = seq<byte>

  const SHARD_COUNT := 32

  // ---------------------------------------------------------------- the hash

  /** One round of FNV-1 on 32 bits, the product wrapping around. */
  function Mix(hash: bv32, b: byte): (r: bv32) {
    (hash * 16777619) ^ (b as bv32)
  }

  function HashFrom(hash: bv32, key: Key): (r: bv32)
    decreases |key|
  {
    if key == [] then hash else HashFrom(Mix(hash, key[0]), key[1..])
  }

  method Fnv32(key: Key) returns (hash: bv32)
    ensures hash == HashFrom(2166136261, key)
  {
    hide Mix;
    hash := 2166136261;
    var i := 0;
    while i < |key|
      invariant 0 <= i <= |key|
      invariant HashFrom(hash, key[i..]) == HashFrom(2166136261, key)
    {
      assert key[i..][1..] == key[i + 1..];
      hash := Mix(hash, key[i]);
      i := i + 1;
    }
  }

  /** Published values of FNV-1: of nothing, of "a" and of "foobar". */
  lemma KnownHashes()
    ensures HashFrom(2166136261, []) == 0x811c9dc5
    ensures HashFrom(2166136261, [97]) == 0x050c5d7e
    ensures HashFrom(2166136261, [102, 111, 111, 98, 97, 114]) == 0x31f0b262
  {
    var key: Key := [102, 111, 111, 98, 97, 114];
    assert [97][1..] == [] && key[1..] == [111, 111, 98, 97, 114] && key[1..][1..] == [111, 98, 97, 114];
    assert [111, 98, 97, 114][1..] == [98, 97, 114] && [98, 97, 114][1..] == [97, 114] && [97, 114][1..] == [114];
    assert [114][1..] == [];
    assert Mix(2166136261, 97) == 0x050c5d7e;
    assert Mix(2166136261, 102) == 0x050c5d79 && Mix(0x050c5d79, 111) == 0x6b772514 && Mix(0x6b772514, 111) == 0x408f5e13;
    assert Mix(0x408f5e13, 98) == 0xb4b1178b && Mix(0xb4b1178b, 97) == 0xfdc80fb0 && Mix(0xfdc80fb0, 114) == 0x31f0b262;
  }

  function ShardOf(key: Key): (i: nat)
    ensures i < SHARD_COUNT
  {
    HashFrom(2166136261, key) as nat % SHARD_COUNT
  }

  /** The shards they lead to. */
  lemma KnownShards()
    ensures ShardOf([]) == 5 && ShardOf([97]) == 30
  {
    KnownHashes();
    hide HashFrom;
    var nothing: bv32, a: bv32 := 0x811c9dc5, 0x050c5d7e;
    assert nothing as nat == 0x811c9dc5 && a as nat == 0x050c5d7e;
  }

  // ---------------------------------------------------------------- shards as values

  /** Every key is in the shard its hash chooses and in no other. */
  ghost predicate Placed<V>(parts: seq<map<Key, V>>) {
    |parts| == SHARD_COUNT && forall i, k :: 0 <= i < |parts| && k in parts[i] ==> ShardOf(k) == i
  }

  function Merge<V>(parts: seq<map<Key, V>>): (m: map<Key, V>) {
    if parts == [] then map[] else Merge(parts[..|parts| - 1]) + parts[|parts| - 1]
  }

  function Total<V>(parts: seq<map<Key, V>>): (n: nat) {
    if parts == [] then 0 else Total(parts[..|parts| - 1]) + |parts[|parts| - 1]|
  }

  /** Keys of different shards differ. */
  ghost predicate Disjoint<V>(parts: seq<map<Key, V>>) {
    forall i, j, k :: 0 <= i < j < |parts| && k in parts[i] ==> k !in parts[j]
  }

  lemma {:induction false} MergeKeys<V>(parts: seq<map<Key, V>>, k: Key)
    ensures k in Merge(parts) <==> InSome(parts, k)
  {
    if parts != [] {
      var n := |parts| - 1;
      MergeKeys(parts[..n], k);
      if i :| 0 <= i < |parts| && k in parts[i] {
        if i < n {
          assert parts[..n][i] == parts[i];
        }
      }
    }
  }

  lemma {:induction false} MergeValue<V>(parts: seq<map<Key, V>>, i: nat, k: Key)
    requires Disjoint(parts) && i < |parts| && k in parts[i]
    ensures k in Merge(parts) && Merge(parts)[k] == parts[i][k]
  {
    var n := |parts| - 1;
    if i < n {
      assert parts[..n][i] == parts[i];
      MergeValue(parts[..n], i, k);
    }
  }

  lemma PlacedIsDisjoint<V>(parts: seq<map<Key, V>>)
    requires Placed(parts)
    ensures Disjoint(parts)
  {
    hide ShardOf;
    forall i, j, k | 0 <= i < j < |parts| && k in parts[i] ensures k !in parts[j] {
      assert ShardOf(k) == i;
    }
  }

  /** The merged map looks a key up in its own shard only. */
  lemma LookUp<V>(parts: seq<map<Key, V>>, k: Key)
    requires Placed(parts)
    ensures k in Merge(parts) <==> k in parts[ShardOf(k)]
    ensures k in Merge(parts) ==> Merge(parts)[k] == parts[ShardOf(k)][k]
  {
    hide ShardOf;
    MergeKeys(parts, k);
    if k in parts[ShardOf(k)] {
      PlacedIsDisjoint(parts);
      MergeValue(parts, ShardOf(k), k);
    }
  }

  /** Writing or removing a key in its own shard is writing or removing it in the merged map. */
  lemma PutInShard<V>(parts: seq<map<Key, V>>, k: Key, v: V)
    requires Placed(parts)
    ensures var parts' := parts[ShardOf(k) := parts[ShardOf(k)][k := v]];
            Placed(parts') && Merge(parts') == Merge(parts)[k := v]
  {
    hide ShardOf, Merge;
    var parts' := parts[ShardOf(k) := parts[ShardOf(k)][k := v]];
    forall l ensures l in Merge(parts') <==> l in Merge(parts)[k := v] {
      LookUp(parts, l);
      LookUp(parts', l);
    }
    forall l | l in Merge(parts') ensures Merge(parts')[l] == Merge(parts)[k := v][l] {
      LookUp(parts, l);
      LookUp(parts', l);
    }
  }

  lemma DropFromShard<V>(parts: seq<map<Key, V>>, k: Key)
    requires Placed(parts)
    ensures var parts' := parts[ShardOf(k) := parts[ShardOf(k)] - {k}];
            Placed(parts') && Merge(parts') == Merge(parts) - {k}
  {
    hide ShardOf, Merge;
    var parts' := parts[ShardOf(k) := parts[ShardOf(k)] - {k}];
    forall l ensures l in Merge(parts') <==> l in Merge(parts) - {k} {
      LookUp(parts, l);
      LookUp(parts', l);
    }
    forall l | l in Merge(parts') ensures Merge(parts')[l] == (Merge(parts) - {k})[l] {
      LookUp(parts, l);
      LookUp(parts', l);
    }
  }

  lemma SizeOfUnion<V>(a: map<Key, V>, b: map<Key, V>)
    requires a.Keys !! b.Keys
    ensures |a + b| == |a| + |b|
  {
    assert (a + b).Keys == a.Keys + b.Keys;
    assert |a.Keys + b.Keys| == |a.Keys| + |b.Keys|;
  }

  lemma {:induction false} SizeOfMerge<V>(parts: seq<map<Key, V>>)
    requires Disjoint(parts)
    ensures |Merge(parts)| == Total(parts)
  {
    if parts != [] {
      var n := |parts| - 1;
      SizeOfMerge(parts[..n]);
      forall k | k in Merge(parts[..n]) ensures k !in parts[n] {
        MergeKeys(parts[..n], k);
      }
      SizeOfUnion(Merge(parts[..n]), parts[n]);
    }
  }

  // ---------------------------------------------------------------- shards as objects

  class Shard<V> {
    var items: map<Key, V>

    constructor ()
      ensures items == map[]
    {
      items := map[];
    }
  }

  ghost function Parts<V>(shards: seq<Shard<V>>): (parts: seq<map<Key, V>>)
    reads shards
    ensures |parts| == |shards| && forall i :: 0 <= i < |shards| ==> parts[i] == shards[i].items
  {
    if shards == [] then [] else Parts(shards[..|shards| - 1]) + [shards[|shards| - 1].items]
  }

  class ConcurrentMap<V> {
    const shards: seq<Shard<V>>

    ghost predicate Valid()
      reads shards
    {
      && |shards| == SHARD_COUNT && Placed(Parts(shards))
      && forall i, j :: 0 <= i < j < |shards| ==> shards[i] != shards[j]
    }

    /** The one map the shards stand for. */
    ghost function View(): (m: map<Key, V>)
      reads shards
    {
      Merge(Parts(shards))
    }

    constructor ()
      ensures Valid() && View() == map[] && fresh(shards)
    {
      var made: seq<Shard<V>> := [];
      var i := 0;
      while i < SHARD_COUNT
        invariant 0 <= i <= SHARD_COUNT && |made| == i
        invariant forall j :: 0 <= j < i ==> fresh(made[j]) && made[j].items == map[]
        invariant forall j, k :: 0 <= j < k < i ==> made[j] != made[k]
      {
        var shard := new Shard<V>();
        made := made + [shard];
        i := i + 1;
      }
      shards := made;
      new;
      forall k ensures k !in View() {
        MergeKeys(Parts(shards), k);
      }
    }

    method GetShard(key: Key) returns (shard: Shard<V>)
      requires Valid()
      ensures shard == shards[ShardOf(key)]
    {
      var hash := Fnv32(key);
      shard := shards[hash as nat % SHARD_COUNT];
    }

    /** Replacing the items of one shard replaces one part. */
    twostate lemma OneShard(i: nat)
      requires i < |shards| && old(Valid())
      requires forall j :: 0 <= j < |shards| && j != i ==> unchanged(shards[j])
      ensures Parts(shards) == old(Parts(shards))[i := shards[i].items]
    {
    }

    method Set(key: Key, value: V)
      requires Valid()
      modifies shards[ShardOf(key)]
      ensures Valid() && View() == old(View())[key := value]
    {
      hide ShardOf, Merge, Parts, Placed;
      var shard := GetShard(key);
      shard.items := shard.items[key := value];
      OneShard(ShardOf(key));
      PutInShard(old(Parts(shards)), key, value);
    }

    method MSet(data: map<Key, V>)
      requires Valid()
      modifies shards
      ensures Valid() && View() == old(View()) + data
    {
      hide ShardOf, Merge, Parts, Placed;
      var todo := data.Keys;
      while todo != {}
        invariant todo <= data.Keys && Valid()
        invariant View() == old(View()) + (map k | k in data && k !in todo :: data[k])
        decreases todo
      {
        var key :| key in todo;
        Set(key, data[key]);
        todo := todo - {key};
      }
    }

    method Upsert(key: Key, value: V, cb: (Option<V>, V) -> V) returns (res: V)
      requires Valid()
      modifies shards[ShardOf(key)]
      ensures res == cb(if key in old(View()) then Some(old(View())[key]) else None, value)
      ensures Valid() && View() == old(View())[key := res]
    {
      hide ShardOf, Merge, Parts, Placed;
      LookUp(Parts(shards), key);
      var shard := GetShard(key);
      res := cb(if key in shard.items then Some(shard.items[key]) else None, value);
      shard.items := shard.items[key := res];
      OneShard(ShardOf(key));
      PutInShard(old(Parts(shards)), key, res);
    }

    method SetIfAbsent(key: Key, value: V) returns (done: bool)
      requires Valid()
      modifies shards[ShardOf(key)]
      ensures done == (key !in old(View()))
      ensures Valid() && View() == if done then old(View())[key := value] else old(View())
    {
      hide ShardOf, Merge, Parts, Placed;
      LookUp(Parts(shards), key);
      var shard := GetShard(key);
      done := key !in shard.items;
      if done {
        shard.items := shard.items[key := value];
        OneShard(ShardOf(key));
        PutInShard(old(Parts(shards)), key, value);
      }
    }

    method Get(key: Key) returns (r: Option<V>)
      requires Valid()
      ensures r == if key in View() then Some(View()[key]) else None
    {
      hide ShardOf, Merge, Parts;
      LookUp(Parts(shards), key);
      var shard := GetShard(key);
      r := if key in shard.items then Some(shard.items[key]) else None;
    }

    method Has(key: Key) returns (r: bool)
      requires Valid()
      ensures r == (key in View())
    {
      hide ShardOf, Merge, Parts;
      LookUp(Parts(shards), key);
      var shard := GetShard(key);
      r := key in shard.items;
    }

    method Remove(key: Key)
      requires Valid()
      modifies shards[ShardOf(key)]
      ensures Valid() && View() == old(View()) - {key}
    {
      hide ShardOf, Merge, Parts, Placed;
      var shard := GetShard(key);
      shard.items := shard.items - {key};
      OneShard(ShardOf(key));
      DropFromShard(old(Parts(shards)), key);
    }

    method RemoveCb(key: Key, cb: (Key, Option<V>) -> bool) returns (remove: bool)
      requires Valid()
      modifies shards[ShardOf(key)]
      ensures remove == cb(key, if key in old(View()) then Some(old(View())[key]) else None)
      ensures Valid() && View() == if remove then old(View()) - {key} else old(View())
    {
      hide ShardOf, Merge, Parts, Placed;
      LookUp(Parts(shards), key);
      var shard := GetShard(key);
      remove := cb(key, if key in shard.items then Some(shard.items[key]) else None);
      if remove && key in shard.items {
        shard.items := shard.items - {key};
        OneShard(ShardOf(key));
        DropFromShard(old(Parts(shards)), key);
      }
    }

    method Pop(key: Key) returns (r: Option<V>)
      requires Valid()
      modifies shards[ShardOf(key)]
      ensures r == if key in old(View()) then Some(old(View())[key]) else None
      ensures Valid() && View() == old(View()) - {key}
    {
      hide ShardOf, Merge, Parts, Placed;
      LookUp(Parts(shards), key);
      var shard := GetShard(key);
      r := if key in shard.items then Some(shard.items[key]) else None;
      shard.items := shard.items - {key};
      OneShard(ShardOf(key));
      DropFromShard(old(Parts(shards)), key);
    }

    method Count() returns (count: nat)
      requires Valid()
      ensures count == |View()|
    {
      hide ShardOf, Merge;
      ghost var parts := Parts(shards);
      count := 0;
      var i := 0;
      while i < SHARD_COUNT
        invariant 0 <= i <= SHARD_COUNT && count == Total(parts[..i])
      {
        assert parts[..i + 1][..i] == parts[..i];
        count := count + |shards[i].items|;
        i := i + 1;
      }
      assert parts[..i] == parts;
      PlacedIsDisjoint(parts);
      SizeOfMerge(parts);
    }

    method IsEmpty() returns (r: bool)
      requires Valid()
      ensures r == (View() == map[])
    {
      var count := Count();
      r := count == 0;
    }

    /** With no writer at work: every key once, in some order. */
    method Keys() returns (keys: seq<Key>)
      requires Valid()
      ensures forall k :: k in keys <==> k in View()
      ensures |keys| == |View()| && forall i, j :: 0 <= i < j < |keys| ==> keys[i] != keys[j]
    {
      hide ShardOf, Merge;
      ghost var parts := Parts(shards);
      PlacedIsDisjoint(parts);
      keys := [];
      var i := 0;
      while i < SHARD_COUNT
        invariant 0 <= i <= SHARD_COUNT && parts == Parts(shards) && |keys| == Total(parts[..i])
        invariant Listed(keys, parts[..i])
      {
        var more := ShardKeys(shards[i]);
        AddShard(keys, parts, i, more);
        keys := keys + more;
        i := i + 1;
      }
      assert parts[..i] == parts;
      SizeOfMerge(parts);
      forall k ensures k in keys <==> k in View() {
        MergeKeys(parts, k);
      }
    }
  }

  ghost predicate InSome<V>(parts: seq<map<Key, V>>, k: Key) {
    exists i :: 0 <= i < |parts| && k in parts[i]
  }

  ghost predicate Listed<V>(keys: seq<Key>, parts: seq<map<Key, V>>) {
    && (forall k :: k in keys <==> InSome(parts, k))
    && (forall i, j :: 0 <= i < j < |keys| ==> keys[i] != keys[j])
  }

  lemma AddShard<V>(keys: seq<Key>, parts: seq<map<Key, V>>, i: nat, more: seq<Key>)
    requires Disjoint(parts) && i < |parts| && Listed(keys, parts[..i])
    requires |more| == |parts[i]| && (forall k :: k in more <==> k in parts[i])
    requires forall a, b :: 0 <= a < b < |more| ==> more[a] != more[b]
    ensures Listed(keys + more, parts[..i + 1]) && Total(parts[..i + 1]) == Total(parts[..i]) + |more|
  {
    assert parts[..i + 1][..i] == parts[..i];
    forall k ensures k in keys + more <==> InSome(parts[..i + 1], k) {
      if k in keys {
        var j :| 0 <= j < i && k in parts[..i][j];
        assert k in parts[..i + 1][j];
      }
      if k in more {
        assert k in parts[..i + 1][i];
      }
      if InSome(parts[..i + 1], k) {
        var j :| 0 <= j < i + 1 && k in parts[..i + 1][j];
        assert j < i ==> k in parts[..i][j];
      }
    }
    forall a | 0 <= a < |keys| ensures keys[a] !in more {
      assert InSome(parts[..i], keys[a]);
    }
  }

  method ShardKeys<V>(shard: Shard<V>) returns (keys: seq<Key>)
    ensures |keys| == |shard.items| && forall k :: k in keys <==> k in shard.items
    ensures forall i, j :: 0 <= i < j < |keys| ==> keys[i] != keys[j]
  {
    keys := [];
    var todo := shard.items.Keys;
    while todo != {}
      invariant todo <= shard.items.Keys && |keys| + |todo| == |shard.items|
      invariant forall k :: k in keys <==> k in shard.items && k !in todo
      invariant forall i, j :: 0 <= i < j < |keys| ==> keys[i] != keys[j]
      decreases todo
    {
      var key :| key in todo;
      keys := keys + [key];
      todo := todo - {key};
    }
  }
}
