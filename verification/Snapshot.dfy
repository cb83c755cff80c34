/** The buffered iterator of the sharded map: one goroutine copies each shard under its read lock into a channel
  * of just the right size, one forwards each channel into the result, and writers go on in between.
  */
module Snapshot {
  import opened Common
  import opened ShardedMap
  import Runs

  datatype Tuple<V> = Tuple(key: Key, val: V)

  datatype CopyPc = NotStarted | Copying | Copied

  /** One shard and its two goroutines. `items` is what it holds now and `frozen` what it held when it was locked;
    * `order` lists `frozen` in the order the copier ranges over it, and its length is the capacity of the channel.
    * Of `order`, the first `sent` are on the channel, the first `taken` off it again, the first `emitted` in the
    * result.
    */
  datatype Part<V> = Part(items: map<Key, V>, pc: CopyPc, frozen: map<Key, V>, order: seq<Tuple<V>>,
                          sent: nat, taken: nat, emitted: nat)

  /** An element of the result: the shard it comes from and its place in that shard's order. */
  datatype Origin = Origin(shard: nat, pos: nat)

  datatype State<V> = State(parts: seq<Part<V>>, returned: bool, out: seq<Origin>, consumed: nat, outClosed: bool)

  datatype Action<V> =
    | Write(i: nat, items: map<Key, V>)       // any writer, holding the shard's write lock
    | Lock(i: nat, order: seq<Tuple<V>>)
    | Copy(i: nat)
    | Unlock(i: nat)
    | Return                                  // snapshot returns and the result channel is made
    | Take(i: nat)
    | Emit(i: nat)
    | CloseOut
    | Consume

  function Untouched<V>(items: map<Key, V>): (p: Part<V>) {
    Part(items, NotStarted, map[], [], 0, 0, 0)
  }

  function Initial<V>(contents: seq<map<Key, V>>): (s: State<V>) {
    State(seq(|contents|, i requires 0 <= i < |contents| => Untouched(contents[i])), false, [], 0, false)
  }

  ghost predicate Lists<V(!new)>(order: seq<Tuple<V>>, items: map<Key, V>) {
    && (forall j :: 0 <= j < |order| ==> order[j].key in items && items[order[j].key] == order[j].val)
    && (forall k :: k in items ==> Tuple(k, items[k]) in order)
    && (forall j, l :: 0 <= j < l < |order| ==> order[j].key != order[l].key)
  }

  function Capacity<V>(parts: seq<Part<V>>): (n: nat) {
    if parts == [] then 0 else Capacity(parts[..|parts| - 1]) + |parts[|parts| - 1].order|
  }

  function Emitted<V>(parts: seq<Part<V>>): (n: nat) {
    if parts == [] then 0 else Emitted(parts[..|parts| - 1]) + parts[|parts| - 1].emitted
  }

  ghost predicate HasPlace<V(!new)>(items: map<Key, V>, i: nat) {
    forall k :: k in items ==> ShardOf(k) == i
  }

  /** What one action of its own goroutines makes of a shard, or none while it cannot be taken. */
  ghost function PartStep<V(!new)>(p: Part<V>, returned: bool, a: Action<V>): (r: Option<Part<V>>) {
    match a
    case Write(_, items) =>
      if p.pc == Copying then None else Some(p.(items := items))
    case Lock(_, order) =>
      if p.pc != NotStarted || !Lists(order, p.items) then None
      else Some(p.(pc := Copying, frozen := p.items, order := order))
    case Copy(_) =>
      if p.pc != Copying || p.sent >= |p.order| || p.sent - p.taken >= |p.order| then None
      else Some(p.(sent := p.sent + 1))
    case Unlock(_) =>
      if p.pc != Copying || p.sent != |p.order| then None else Some(p.(pc := Copied))
    case Take(_) =>
      if !returned || p.taken >= p.sent || p.taken != p.emitted then None else Some(p.(taken := p.taken + 1))
    case Emit(_) =>
      if p.emitted >= p.taken then None else Some(p.(emitted := p.emitted + 1))
    case _ => None
  }

  ghost predicate AllStarted<V(!new)>(parts: seq<Part<V>>) {
    forall i :: 0 <= i < |parts| ==> parts[i].pc != NotStarted
  }

  ghost predicate AllEmitted<V(!new)>(parts: seq<Part<V>>) {
    forall i :: 0 <= i < |parts| ==> parts[i].pc == Copied && parts[i].emitted == |parts[i].order|
  }

  /** The state after one action; a send on the result channel needs room in it. */
  ghost function Apply<V(!new)>(s: State<V>, a: Action<V>): (r: Option<State<V>>) {
    if a.Return? then
      if s.returned || !AllStarted(s.parts) then None else Some(s.(returned := true))
    else if a.CloseOut? then
      if !s.returned || s.outClosed || !AllEmitted(s.parts) then None else Some(s.(outClosed := true))
    else if a.Consume? then
      if s.consumed >= |s.out| then None else Some(s.(consumed := s.consumed + 1))
    else if a.i >= |s.parts| || (a.Write? && !HasPlace(a.items, a.i)) then None
    else if a.Emit? && |s.out| - s.consumed >= Capacity(s.parts) then None
    else
      var p := PartStep(s.parts[a.i], s.returned, a);
      if p.None? then None
      else
        var out := if a.Emit? then s.out + [Origin(a.i, s.parts[a.i].emitted)] else s.out;
        Some(s.(parts := s.parts[a.i := p.value], out := out))
  }

  /** `s` is what some run leads to on a map of these contents. */
  ghost predicate Reaches<V(!new)>(contents: seq<map<Key, V>>, run: seq<Action<V>>, s: State<V>) {
    Runs.After(Apply, Initial(contents), run) == Some(s)
  }

  // ---------------------------------------------------------------- what every run keeps

  ghost predicate PartOk<V(!new)>(p: Part<V>, returned: bool, i: nat) {
    && p.emitted <= p.taken <= p.emitted + 1 && p.taken <= p.sent <= |p.order|
    && (p.pc == NotStarted ==> p.order == [] && p.frozen == map[] && !returned)
    && (p.pc == Copied ==> p.sent == |p.order|)
    && (p.pc == Copying ==> p.items == p.frozen)
    && (!returned ==> p.taken == 0)
    && Lists(p.order, p.frozen) && HasPlace(p.items, i) && HasPlace(p.frozen, i)
  }

  ghost predicate PartsOk<V(!new)>(s: State<V>) {
    forall i :: 0 <= i < |s.parts| ==> PartOk(s.parts[i], s.returned, i)
  }

  predicate IsOut<V>(parts: seq<Part<V>>, o: Origin) {
    o.shard < |parts| && o.pos < parts[o.shard].emitted
  }

  /** The result holds what each forwarder has emitted, each element once. */
  ghost predicate OutOk<V(!new)>(s: State<V>) {
    && (forall o :: o in s.out <==> IsOut(s.parts, o))
    && (forall j, l :: 0 <= j < l < |s.out| ==> s.out[j] != s.out[l])
    && |s.out| == Emitted(s.parts) && s.consumed <= |s.out|
    && (s.outClosed ==> AllEmitted(s.parts))
  }

  ghost predicate Inv<V(!new)>(s: State<V>) {
    |s.parts| == SHARD_COUNT && PartsOk(s) && OutOk(s)
  }

  lemma PartKept<V(!new)>(p: Part<V>, returned: bool, a: Action<V>, i: nat)
    requires PartOk(p, returned, i) && PartStep(p, returned, a).Some?
    requires a.Write? ==> HasPlace(a.items, i)
    ensures PartOk(PartStep(p, returned, a).value, returned, i)
  {
    hide HasPlace;
  }

  lemma {:induction false} EmittedAt<V>(parts: seq<Part<V>>, i: nat, p: Part<V>)
    requires i < |parts|
    ensures Emitted(parts[i := p]) == Emitted(parts) + p.emitted - parts[i].emitted
  {
    var n := |parts| - 1;
    if i < n {
      EmittedAt(parts[..n], i, p);
      assert parts[i := p][..n] == parts[..n][i := p];
    } else {
      assert parts[i := p][..n] == parts[..n];
    }
  }

  /** As long as one shard has something left to emit, the result channel has a free slot even if nobody reads. */
  lemma {:induction false} RoomLeft<V>(parts: seq<Part<V>>, i: nat)
    requires i < |parts| && forall j :: 0 <= j < |parts| ==> parts[j].emitted <= |parts[j].order|
    requires parts[i].emitted < |parts[i].order|
    ensures Emitted(parts) < Capacity(parts)
  {
    var n := |parts| - 1;
    if i < n {
      RoomLeft(parts[..n], i);
    } else {
      AllFits(parts[..n]);
    }
  }

  lemma {:induction false} AllFits<V>(parts: seq<Part<V>>)
    requires forall j :: 0 <= j < |parts| ==> parts[j].emitted <= |parts[j].order|
    ensures Emitted(parts) <= Capacity(parts)
  {
    if parts != [] {
      AllFits(parts[..|parts| - 1]);
    }
  }

  lemma StepKeepsParts<V(!new)>(s: State<V>, a: Action<V>)
    requires Inv(s) && Apply(s, a).Some?
    ensures |Apply(s, a).value.parts| == |s.parts| && PartsOk(Apply(s, a).value)
  {
    hide PartStep, Lists, HasPlace, Capacity, Emitted, OutOk;
    if a.Return? || a.CloseOut? || a.Consume? {
    } else {
      PartKept(s.parts[a.i], s.returned, a, a.i);
    }
  }

  lemma StepKeepsOut<V(!new)>(s: State<V>, a: Action<V>)
    requires Inv(s) && Apply(s, a).Some?
    ensures OutOk(Apply(s, a).value)
  {
    hide Lists, HasPlace, Capacity, Emitted;
    var s' := Apply(s, a).value;
    if a.Return? || a.CloseOut? || a.Consume? {
    } else {
      assert PartOk(s.parts[a.i], s.returned, a.i);
      EmittedAt(s.parts, a.i, s'.parts[a.i]);
      var mine := Origin(a.i, s.parts[a.i].emitted);
      assert !IsOut(s.parts, mine);
      forall o ensures o in s'.out <==> IsOut(s'.parts, o) {
        assert o in s.out <==> IsOut(s.parts, o);
      }
    }
  }

  lemma EveryRunKeeps<V(!new)>(contents: seq<map<Key, V>>, run: seq<Action<V>>, s: State<V>)
    requires Placed(contents) && Reaches(contents, run, s)
    ensures Inv(s)
  {
    hide Apply, Inv, Placed, Initial;
    InitialIsGood(contents);
    assert Runs.Keeps<State<V>, Action<V>>(Apply, Inv) by {
      forall t: State<V>, a: Action<V> | Inv(t) && Apply(t, a).Some? ensures Inv(Apply(t, a).value) {
        StepKeeps(t, a);
      }
    }
    Runs.RunKeeps(Apply, Inv, Initial(contents), run);
  }

  lemma StepKeeps<V(!new)>(s: State<V>, a: Action<V>)
    requires Inv(s) && Apply(s, a).Some?
    ensures Inv(Apply(s, a).value)
  {
    hide Apply, PartsOk, OutOk;
    StepKeepsParts(s, a);
    StepKeepsOut(s, a);
  }

  lemma {:induction false} NothingEmitted<V>(parts: seq<Part<V>>)
    requires forall i :: 0 <= i < |parts| ==> parts[i].emitted == 0
    ensures Emitted(parts) == 0
  {
    if parts != [] {
      NothingEmitted(parts[..|parts| - 1]);
    }
  }

  lemma InitialIsGood<V(!new)>(contents: seq<map<Key, V>>)
    requires Placed(contents)
    ensures Inv(Initial(contents))
  {
    hide ShardOf;
    NothingEmitted(Initial(contents).parts);
  }

  // ---------------------------------------------------------------- what this means

  /** The copier, which holds a read lock, and the forwarder never wait: their sends find room in every reachable
    * state, whether or not anything has been consumed.
    */
  lemma NobodyBlocks<V(!new)>(contents: seq<map<Key, V>>, run: seq<Action<V>>, s: State<V>, i: nat)
    requires Placed(contents) && Reaches(contents, run, s) && i < SHARD_COUNT
    ensures |s.parts| == SHARD_COUNT
    ensures s.parts[i].pc == Copying && s.parts[i].sent < |s.parts[i].order| ==> Apply(s, Copy(i)).Some?
    ensures s.parts[i].emitted < s.parts[i].taken ==> Apply(s, Emit(i)).Some?
    ensures s.parts[i].pc == Copying && s.parts[i].sent == |s.parts[i].order| ==> Apply(s, Unlock(i)).Some?
  {
    hide Lists, HasPlace, ShardOf;
    EveryRunKeeps(contents, run, s);
    assert PartOk(s.parts[i], s.returned, i);
    if s.parts[i].emitted < s.parts[i].taken {
      forall j | 0 <= j < |s.parts| ensures s.parts[j].emitted <= |s.parts[j].order| {
        assert PartOk(s.parts[j], s.returned, j);
      }
      RoomLeft(s.parts, i);
    }
  }

  ghost function Frozen<V(!new)>(s: State<V>): (parts: seq<map<Key, V>>)
    ensures |parts| == |s.parts| && forall i :: 0 <= i < |parts| ==> parts[i] == s.parts[i].frozen
  {
    seq(|s.parts|, i requires 0 <= i < |s.parts| => s.parts[i].frozen)
  }

  /** The tuples in the result channel. */
  ghost function Result<V(!new)>(s: State<V>): (tuples: seq<Tuple<V>>)
    requires Inv(s)
    ensures |tuples| == |s.out|
    ensures forall j :: 0 <= j < |tuples| ==>
              IsOut(s.parts, s.out[j]) && s.out[j].pos < |s.parts[s.out[j].shard].order|
              && tuples[j] == s.parts[s.out[j].shard].order[s.out[j].pos]
  {
    assert forall j :: 0 <= j < |s.out| ==> s.out[j] in s.out;
    assert forall i :: 0 <= i < |s.parts| ==> PartOk(s.parts[i], s.returned, i);
    seq(|s.out|, j requires 0 <= j < |s.out| => s.parts[s.out[j].shard].order[s.out[j].pos])
  }

  lemma FrozenIsPlaced<V(!new)>(s: State<V>)
    requires Inv(s)
    ensures Placed(Frozen(s))
  {
    hide ShardOf;
    assert forall i :: 0 <= i < |s.parts| ==> PartOk(s.parts[i], s.returned, i);
  }

  lemma ResultOf<V(!new)>(s: State<V>, j: nat)
    requires Inv(s) && j < |s.out|
    ensures var t := Result(s)[j]; t.key in Merge(Frozen(s)) && Merge(Frozen(s))[t.key] == t.val
    ensures ShardOf(Result(s)[j].key) == s.out[j].shard
  {
    hide ShardOf, Merge;
    var o := s.out[j];
    assert Result(s)[j] == s.parts[o.shard].order[o.pos];
    assert PartOk(s.parts[o.shard], s.returned, o.shard);
    FrozenIsPlaced(s);
    LookUp(Frozen(s), Result(s)[j].key);
  }

  lemma KeyIsOut<V(!new)>(s: State<V>, k: Key)
    requires Inv(s) && s.outClosed && k in Merge(Frozen(s))
    ensures Tuple(k, Merge(Frozen(s))[k]) in Result(s)
  {
    hide ShardOf, Merge, Emitted, HasPlace;
    FrozenIsPlaced(s);
    LookUp(Frozen(s), k);
    var p := s.parts[ShardOf(k)];
    assert PartOk(p, s.returned, ShardOf(k));
    var pos :| 0 <= pos < |p.order| && p.order[pos] == Tuple(k, p.frozen[k]);
    assert IsOut(s.parts, Origin(ShardOf(k), pos));
    var j :| 0 <= j < |s.out| && s.out[j] == Origin(ShardOf(k), pos);
    assert Result(s)[j] == Tuple(k, Merge(Frozen(s))[k]);
  }

  lemma KeysDiffer<V(!new)>(s: State<V>, j: nat, l: nat)
    requires Inv(s) && j < l < |s.out|
    ensures Result(s)[j].key != Result(s)[l].key
  {
    hide ShardOf, Emitted, HasPlace;
    ResultOf(s, j);
    ResultOf(s, l);
    assert s.out[j] in s.out && s.out[l] in s.out;
    assert PartOk(s.parts[s.out[j].shard], s.returned, s.out[j].shard);
  }

  /** When the result channel is closed it has carried exactly the union of what each shard held at the instant it
    * was locked, each key once.
    */
  lemma EmitsTheUnion<V(!new)>(contents: seq<map<Key, V>>, run: seq<Action<V>>, s: State<V>)
    requires Placed(contents) && Reaches(contents, run, s) && s.outClosed
    ensures Inv(s) && Lists(Result(s), Merge(Frozen(s)))
  {
    EveryRunKeeps(contents, run, s);
    hide ShardOf, Merge, PartsOk, OutOk, Reaches, Placed;
    var all := Merge(Frozen(s));
    forall k | k in all ensures Tuple(k, all[k]) in Result(s) {
      KeyIsOut(s, k);
    }
    forall j | 0 <= j < |s.out| ensures Result(s)[j].key in all && all[Result(s)[j].key] == Result(s)[j].val {
      ResultOf(s, j);
    }
    forall j, l | 0 <= j < l < |s.out| ensures Result(s)[j].key != Result(s)[l].key {
      KeysDiffer(s, j, l);
    }
  }

  // ---------------------------------------------------------------- the iterator comes to its end

  function Monus(a: nat, b: nat): (n: nat) {
    if a < b then 0 else a - b
  }

  /** How many steps a shard's two goroutines have still to take. */
  function Left<V>(p: Part<V>): (n: nat) {
    if p.pc == NotStarted then 3 * |p.items| + 2
    else
      Monus(|p.order|, p.sent) + Monus(|p.order|, p.taken) + Monus(|p.order|, p.emitted)
      + if p.pc == Copying then 1 else 0
  }

  function Todo<V>(parts: seq<Part<V>>): (n: nat) {
    if parts == [] then 0 else Todo(parts[..|parts| - 1]) + Left(parts[|parts| - 1])
  }

  lemma {:induction false} TodoAt<V>(parts: seq<Part<V>>, i: nat, p: Part<V>)
    requires i < |parts|
    ensures Todo(parts[i := p]) == Todo(parts) + Left(p) - Left(parts[i])
  {
    var n := |parts| - 1;
    if i < n {
      TodoAt(parts[..n], i, p);
      assert parts[i := p][..n] == parts[..n][i := p];
    } else {
      assert parts[i := p][..n] == parts[..n];
    }
  }

  lemma {:induction false} SomeOrder<V(!new)>(items: map<Key, V>) returns (order: seq<Tuple<V>>)
    ensures Lists(order, items)
    decreases |items|
  {
    if items == map[] {
      return [];
    }
    var k :| k in items;
    var rest := SomeOrder(items - {k});
    order := rest + [Tuple(k, items[k])];
    ListsThen(items, k, rest);
  }

  lemma ListsThen<V(!new)>(items: map<Key, V>, k: Key, rest: seq<Tuple<V>>)
    requires k in items && Lists(rest, items - {k})
    ensures Lists(rest + [Tuple(k, items[k])], items)
  {
    var order := rest + [Tuple(k, items[k])];
    assert order[|rest|] == Tuple(k, items[k]);
    forall l | l in items ensures Tuple(l, items[l]) in order {
      assert l != k ==> Tuple(l, (items - {k})[l]) in rest;
    }
  }

  /** The next step of a shard's own goroutines, as long as it is not done. */
  lemma PartMoves<V(!new)>(p: Part<V>, returned: bool, i: nat) returns (a: Action<V>)
    requires PartOk(p, returned, i) && (p.pc == Copied ==> returned && p.emitted < |p.order|)
    ensures a.Lock? || a.Copy? || a.Unlock? || a.Take? || a.Emit?
    ensures a.i == i && (a.Emit? ==> p.emitted < p.taken)
    ensures PartStep(p, returned, a).Some? && Left(PartStep(p, returned, a).value) < Left(p)
  {
    hide HasPlace;
    match p.pc
    case NotStarted =>
      var order := SomeOrder(p.items);
      ListSize(order, p.items);
      a := Lock(i, order);
    case Copying =>
      a := if p.sent < |p.order| then Copy(i) else Unlock(i);
    case Copied =>
      a := if p.emitted < p.taken then Emit(i) else Take(i);
  }

  function Remaining<V>(s: State<V>): (n: nat) {
    Todo(s.parts) + (if s.returned then 0 else 1) + (if s.outClosed then 0 else 1)
  }

  /** Neither a writer nor whoever reads the result. */
  predicate Inside<V>(a: Action<V>) {
    !a.Write? && !a.Consume?
  }

  lemma MovesOn<V(!new)>(s: State<V>, i: nat) returns (a: Action<V>)
    requires Inv(s) && i < |s.parts| && (s.parts[i].pc == Copied ==> s.returned && s.parts[i].emitted < |s.parts[i].order|)
    ensures Inside(a) && Apply(s, a).Some? && Remaining(Apply(s, a).value) < Remaining(s)
  {
    hide HasPlace, Lists, PartStep, Left, Todo, ShardOf;
    assert PartOk(s.parts[i], s.returned, i);
    a := PartMoves(s.parts[i], s.returned, i);
    if a.Emit? {
      forall j | 0 <= j < |s.parts| ensures s.parts[j].emitted <= |s.parts[j].order| {
        assert PartOk(s.parts[j], s.returned, j);
      }
      RoomLeft(s.parts, i);
    }
    TodoAt(s.parts, i, PartStep(s.parts[i], s.returned, a).value);
  }

  lemma NextMove<V(!new)>(s: State<V>) returns (a: Action<V>)
    requires Inv(s) && !s.outClosed
    ensures Inside(a) && Apply(s, a).Some? && Remaining(Apply(s, a).value) < Remaining(s)
  {
    hide PartStep, Left, Todo, Lists, HasPlace, ShardOf;
    if i :| 0 <= i < |s.parts| && s.parts[i].pc == NotStarted {
      a := MovesOn(s, i);
    } else if !s.returned {
      a := Return;
    } else if i :| 0 <= i < |s.parts| && (s.parts[i].pc == Copying || s.parts[i].emitted < |s.parts[i].order|) {
      a := MovesOn(s, i);
    } else {
      forall i | 0 <= i < |s.parts| ensures s.parts[i].pc == Copied && s.parts[i].emitted == |s.parts[i].order| {
        assert PartOk(s.parts[i], s.returned, i);
      }
      a := CloseOut;
    }
  }

  lemma {:induction false} Finishes<V(!new)>(s: State<V>) returns (run: seq<Action<V>>, s': State<V>)
    requires Inv(s)
    ensures Runs.After(Apply, s, run) == Some(s') && s'.outClosed && forall a :: a in run ==> Inside(a)
    decreases Remaining(s)
  {
    hide Inv, Remaining, Apply;
    if s.outClosed {
      return [], s;
    }
    var a := NextMove(s);
    StepKeeps(s, a);
    var t := Apply(s, a).value;
    var rest;
    rest, s' := Finishes(t);
    Runs.StepThen(Apply, s, a, t, rest);
    run := [a] + rest;
  }

  /** From wherever it is, the iterator comes to its end by the steps of its own goroutines, though nobody reads the
    * result, and has then delivered the union of what each shard held when it was locked.
    */
  lemma IteratorFinishes<V(!new)>(contents: seq<map<Key, V>>, run: seq<Action<V>>, s: State<V>)
      returns (more: seq<Action<V>>, s': State<V>)
    requires Placed(contents) && Reaches(contents, run, s)
    ensures Runs.After(Apply, s, more) == Some(s') && s'.outClosed && forall a :: a in more ==> Inside(a)
    ensures Inv(s') && Lists(Result(s'), Merge(Frozen(s')))
  {
    hide Apply, Initial, Inv, Placed, Lists, Merge, ShardOf, Inside;
    EveryRunKeeps(contents, run, s);
    more, s' := Finishes(s);
    Runs.Append(Apply, Initial(contents), run, s, more);
    EmitsTheUnion(contents, run + more, s');
  }

  lemma {:induction false} ConsumedToTheEnd<V(!new)>(s: State<V>) returns (run: seq<Action<V>>, s': State<V>)
    requires s.consumed <= |s.out|
    ensures Runs.After(Apply, s, run) == Some(s') && s' == s.(consumed := |s.out|) && forall a :: a in run ==> a == Consume
    decreases |s.out| - s.consumed
  {
    if s.consumed == |s.out| {
      return [], s;
    }
    var t := Apply(s, Consume).value;
    var rest;
    rest, s' := ConsumedToTheEnd(t);
    hide Apply;
    Runs.StepThen(Apply, s, Consume, t, rest);
    run := [Consume] + rest;
  }

  /** Whoever ranges over the result can take all of it, and a writer is kept waiting exactly while its shard is being
    * copied.
    */
  lemma ConsumerGetsAll<V(!new)>(contents: seq<map<Key, V>>, run: seq<Action<V>>, s: State<V>)
      returns (more: seq<Action<V>>, s': State<V>)
    requires Placed(contents) && Reaches(contents, run, s)
    ensures Runs.After(Apply, s, more) == Some(s') && s' == s.(consumed := |s.out|) && forall a :: a in more ==> a == Consume
    ensures forall i: nat, items :: i < SHARD_COUNT && HasPlace(items, i) ==>
              |s.parts| == SHARD_COUNT && (Apply(s, Write(i, items)).Some? <==> s.parts[i].pc != Copying)
  {
    EveryRunKeeps(contents, run, s);
    more, s' := ConsumedToTheEnd(s);
  }

  ghost predicate Unwritten<V(!new)>(contents: seq<map<Key, V>>, s: State<V>) {
    && |s.parts| == |contents|
    && forall i :: 0 <= i < |s.parts| ==>
         s.parts[i].items == contents[i] && (s.parts[i].pc != NotStarted ==> s.parts[i].frozen == contents[i])
  }

  lemma StepKeepsUnwritten<V(!new)>(contents: seq<map<Key, V>>, s: State<V>, a: Action<V>)
    requires Unwritten(contents, s) && Apply(s, a).Some? && !a.Write?
    ensures Unwritten(contents, Apply(s, a).value)
  {
    hide Lists, HasPlace, Capacity, AllStarted, AllEmitted;
  }

  /** What a shard was frozen as is what it held at that instant; without writes that is what it held from the
    * start.
    */
  lemma {:induction false} FrozenWithoutWrites<V(!new)>(contents: seq<map<Key, V>>, run: seq<Action<V>>, s: State<V>)
    requires Reaches(contents, run, s) && forall a :: a in run ==> !a.Write?
    ensures Unwritten(contents, s)
  {
    hide Apply;
    if run != [] {
      var last := run[|run| - 1];
      assert last in run;
      var before := Runs.After(Apply, Initial(contents), run[..|run| - 1]).value;
      FrozenWithoutWrites(contents, run[..|run| - 1], before);
      StepKeepsUnwritten(contents, before, last);
    }
  }

  // ---------------------------------------------------------------- Items

  function AsMap<V>(tuples: seq<Tuple<V>>): (m: map<Key, V>) {
    if tuples == [] then map[]
    else AsMap(tuples[..|tuples| - 1])[tuples[|tuples| - 1].key := tuples[|tuples| - 1].val]
  }

  /** Collects what an iterator delivers into a map. */
  method Collect<V>(tuples: seq<Tuple<V>>) returns (m: map<Key, V>)
    ensures m == AsMap(tuples)
  {
    m := map[];
    var i := 0;
    while i < |tuples|
      invariant 0 <= i <= |tuples| && m == AsMap(tuples[..i])
    {
      assert tuples[..i + 1][..i] == tuples[..i];
      m := m[tuples[i].key := tuples[i].val];
      i := i + 1;
    }
    assert tuples[..i] == tuples;
  }

  lemma {:induction false} AsMapKeys<V(!new)>(tuples: seq<Tuple<V>>)
    requires forall j, l :: 0 <= j < l < |tuples| ==> tuples[j].key != tuples[l].key
    ensures forall j :: 0 <= j < |tuples| ==> tuples[j].key in AsMap(tuples) && AsMap(tuples)[tuples[j].key] == tuples[j].val
    ensures forall k :: k in AsMap(tuples) ==> Tuple(k, AsMap(tuples)[k]) in tuples
  {
    if tuples != [] {
      var n := |tuples| - 1;
      AsMapKeys(tuples[..n]);
      forall j | 0 <= j < n ensures tuples[j].key in AsMap(tuples) && AsMap(tuples)[tuples[j].key] == tuples[j].val {
        assert tuples[..n][j] == tuples[j];
      }
      forall k | k in AsMap(tuples) ensures Tuple(k, AsMap(tuples)[k]) in tuples {
        if k != tuples[n].key {
          assert Tuple(k, AsMap(tuples[..n])[k]) in tuples[..n];
        } else {
          assert tuples[n] == Tuple(k, AsMap(tuples)[k]);
        }
      }
    }
  }

  /** A list of all entries of a map is that map again. */
  lemma ListedMap<V(!new)>(order: seq<Tuple<V>>, items: map<Key, V>)
    requires Lists(order, items)
    ensures AsMap(order) == items && |order| == |items|
  {
    hide AsMap;
    AsMapKeys(order);
    ListSize(order, items);
    forall k ensures k in AsMap(order) <==> k in items {
      if k in items {
        assert Tuple(k, items[k]) in order;
      }
    }
  }

  /** `Items` with no writer at work gives the whole content back. */
  lemma ItemsAreTheContent<V(!new)>(contents: seq<map<Key, V>>, run: seq<Action<V>>, s: State<V>)
    requires Placed(contents) && Reaches(contents, run, s) && s.outClosed
    requires forall a :: a in run ==> !a.Write?
    ensures Inv(s) && AsMap(Result(s)) == Merge(contents) && |Result(s)| == |Merge(contents)|
  {
    hide ShardOf, Merge, AsMap, Lists, Reaches, Placed;
    EmitsTheUnion(contents, run, s);
    FrozenWithoutWrites(contents, run, s);
    assert forall i :: 0 <= i < |s.parts| ==> PartOk(s.parts[i], s.returned, i) && s.parts[i].pc == Copied;
    assert Frozen(s) == contents;
    ListedMap(Result(s), Merge(contents));
  }

  function KeySet<V>(order: seq<Tuple<V>>): (keys: set<Key>) {
    set j | 0 <= j < |order| :: order[j].key
  }

  lemma {:induction false} KeySetSize<V>(order: seq<Tuple<V>>)
    requires forall j, l :: 0 <= j < l < |order| ==> order[j].key != order[l].key
    ensures |KeySet(order)| == |order|
  {
    if order != [] {
      var n := |order| - 1;
      KeySetSize(order[..n]);
      assert KeySet(order) == KeySet(order[..n]) + {order[n].key} by {
        assert forall j :: 0 <= j < n ==> order[..n][j] == order[j];
      }
    }
  }

  lemma ListSize<V(!new)>(order: seq<Tuple<V>>, items: map<Key, V>)
    requires Lists(order, items)
    ensures |order| == |items|
  {
    KeySetSize(order);
    forall k ensures k in KeySet(order) <==> k in items.Keys {
      if k in items {
        var j :| 0 <= j < |order| && order[j] == Tuple(k, items[k]);
        assert order[j].key == k;
      }
    }
    assert KeySet(order) == items.Keys;
  }
}
