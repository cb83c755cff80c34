/** Encoding and decoding undo each other, and re-encoding whatever was accepted is stable. */
module RoundTrip {
  import opened Common
  import opened Wire
  import opened Framing
  import opened Messages
  import opened Meaning

  // ---------------------------------------------------------------- complete messages

  /** Required fields set, at every depth, and the unrecognized bytes complete fields of unknown number. */
  ghost predicate CompleteContent(m: LogContent) {
    m.key.Some? && m.value.Some? && UnknownFields(CONTENT_SCHEMA, m.unrecognized)
  }

  ghost predicate CompleteLog(m: Log) {
    && m.time.Some? && m.time.value < TWO_32 && UnknownFields(LOG_SCHEMA, m.unrecognized)
    && forall c :: c in m.contents ==> CompleteContent(c)
  }

  ghost predicate CompleteGroup(m: LogGroup) {
    UnknownFields(GROUP_SCHEMA, m.unrecognized) && forall l :: l in m.logs ==> CompleteLog(l)
  }

  ghost predicate CompleteList(m: LogGroupList) {
    UnknownFields(LIST_SCHEMA, m.unrecognized) && forall g :: g in m.groups ==> CompleteGroup(g)
  }

  // ---------------------------------------------------------------- messages as items

  function Present(p: Option<seq<byte>>): (ps: seq<seq<byte>>) {
    if p.None? then [] else [p.value]
  }

  lemma PresentAsBlocks(f: nat, p: Option<seq<byte>>)
    ensures EncodeAll(AsBlocks(f, Present(p))) == OptionalBlock(f, p)
    ensures Last(None, Present(p)) == p
  {
    if p.Some? {
      assert AsBlocks(f, [p.value]) == [Block(f, p.value)];
      assert EncodeAll([]) == [];
    }
  }

  ghost function Contents(ms: seq<LogContent>): (ps: seq<seq<byte>>) {
    seq(|ms|, i requires 0 <= i < |ms| => EncodeContent(ms[i]))
  }

  ghost function Logs(ms: seq<Log>): (ps: seq<seq<byte>>) {
    seq(|ms|, i requires 0 <= i < |ms| => EncodeLog(ms[i]))
  }

  ghost function Groups(ms: seq<LogGroup>): (ps: seq<seq<byte>>) {
    seq(|ms|, i requires 0 <= i < |ms| => EncodeGroup(ms[i]))
  }

  lemma AsBlocksSnoc(f: nat, ps: seq<seq<byte>>)
    requires ps != []
    ensures var k := |ps| - 1;
            EncodeAll(AsBlocks(f, ps)) == EncodeAll(AsBlocks(f, ps[..k])) + EncodeItem(Block(f, ps[k]))
  {
    var k := |ps| - 1;
    assert AsBlocks(f, ps) == AsBlocks(f, ps[..k]) + [Block(f, ps[k])];
    EncodeAllSnoc(AsBlocks(f, ps[..k]), Block(f, ps[k]));
  }

  lemma {:induction false} ContentsAsBlocks(ms: seq<LogContent>)
    ensures EncodeAll(AsBlocks(2, Contents(ms))) == EncodeContents(ms)
  {
    hide EncodeContent, EncodeItem;
    if ms != [] {
      AsBlocksSnoc(2, Contents(ms));
      ContentsAsBlocks(ms[..|ms| - 1]);
      assert Contents(ms)[..|ms| - 1] == Contents(ms[..|ms| - 1]);
    }
  }

  lemma {:induction false} LogsAsBlocks(ms: seq<Log>)
    ensures EncodeAll(AsBlocks(1, Logs(ms))) == EncodeLogs(ms)
  {
    hide EncodeLog, EncodeItem;
    if ms != [] {
      AsBlocksSnoc(1, Logs(ms));
      LogsAsBlocks(ms[..|ms| - 1]);
      assert Logs(ms)[..|ms| - 1] == Logs(ms[..|ms| - 1]);
    }
  }

  lemma {:induction false} GroupsAsBlocks(ms: seq<LogGroup>)
    ensures EncodeAll(AsBlocks(1, Groups(ms))) == EncodeGroups(ms)
  {
    hide EncodeGroup, EncodeItem;
    if ms != [] {
      AsBlocksSnoc(1, Groups(ms));
      GroupsAsBlocks(ms[..|ms| - 1]);
      assert Groups(ms)[..|ms| - 1] == Groups(ms[..|ms| - 1]);
    }
  }

  /** A repeated or optional field followed by more items. */
  lemma FieldFirst(schema: Schema, f: nat, ps: seq<seq<byte>>, more: seq<Item>)
    requires 0 < f <= |schema| && schema[f - 1].LengthDelimited? && AllFit(schema, more)
    requires forall p :: p in ps ==> |p| < TWO_63
    ensures var all := AsBlocks(f, ps) + more;
            && AllFit(schema, all)
            && EncodeAll(all) == EncodeAll(AsBlocks(f, ps)) + EncodeAll(more)
            && UnknownBytes(all) == UnknownBytes(more)
            && (forall g :: Numbers(all, g) == Numbers(more, g))
            && Blocks(all, f) == ps + Blocks(more, f)
            && (forall g :: g != f ==> Blocks(all, g) == Blocks(more, g))
  {
    var a := AsBlocks(f, ps);
    var all := a + more;
    EncodeAllAppends(a, more);
    UnknownAppends(a, more);
    BlocksOfBlocks(f, ps, f);
    forall g ensures Numbers(all, g) == Numbers(more, g) && (g != f ==> Blocks(all, g) == Blocks(more, g)) {
      BlocksOfBlocks(f, ps, g);
      NumbersAppend(a, more, g);
      BlocksAppend(a, more, g);
    }
    BlocksAppend(a, more, f);
    forall it | it in all ensures Fits(schema, it) {
      if it in a {
        var i :| 0 <= i < |a| && a[i] == it;
        assert ps[i] in ps;
      }
    }
  }

  /** The items of a message's unrecognized bytes. */
  lemma Trailer(schema: Schema, s: seq<byte>) returns (u: seq<Item>)
    requires |s| < TWO_63 && UnknownFields(schema, s)
    ensures AllFit(schema, u) && EncodeAll(u) == s && UnknownBytes(u) == s
    ensures forall f :: Blocks(u, f) == [] && Numbers(u, f) == []
  {
    u := Scan(schema, s).items;
    UnknownIsVerbatim(schema, s);
    forall f ensures Blocks(u, f) == [] && Numbers(u, f) == [] {
      NoBlocksInUnknown(u, f);
    }
  }

  // ---------------------------------------------------------------- round trips

  lemma ContentRoundTrip(m: LogContent)
    requires CompleteContent(m) && |EncodeContent(m)| < TWO_63
    ensures DecodeContent(NO_CONTENT, EncodeContent(m)) == Ok(m)
  {
    hide NextItem, EncodeItem, FinishContent, Scan, Blocks, Numbers, UnknownBytes, EncodeAll, AsBlocks, Fits, AllFit;
    BlockHoldsPayload(1, m.key.value);
    BlockHoldsPayload(2, m.value.value);
    var u := Trailer(CONTENT_SCHEMA, m.unrecognized);
    FieldFirst(CONTENT_SCHEMA, 2, Present(m.value), u);
    var tail := AsBlocks(2, Present(m.value)) + u;
    FieldFirst(CONTENT_SCHEMA, 1, Present(m.key), tail);
    var items := AsBlocks(1, Present(m.key)) + tail;
    PresentAsBlocks(1, m.key);
    PresentAsBlocks(2, m.value);
    assert EncodeAll(items) == EncodeContent(m);
    ScanRoundTrip(CONTENT_SCHEMA, items);
    ContentMeaning(NO_CONTENT, {}, Scanned(items, None));
    assert Blocks(items, 1) == Present(m.key) && Blocks(items, 2) == Present(m.value);
    assert NO_CONTENT.unrecognized + m.unrecognized == m.unrecognized;
  }

  lemma LogRoundTrip(m: Log)
    requires CompleteLog(m) && |EncodeLog(m)| < TWO_63
    ensures DecodeLog(NO_LOG, EncodeLog(m)) == Ok(m)
  {
    hide NextItem, EncodeItem, FinishLog, Scan, Blocks, Numbers, UnknownBytes, EncodeAll, AsBlocks, AllFit,
      EncodeContent, EncodeContents, DecodeContent, Extends;
    var ps := Contents(m.contents);
    forall i | 0 <= i < |ps| ensures |ps[i]| < TWO_63 && ContentOf(ps[i]) == Ok(m.contents[i]) {
      ContentsPrefix(m.contents, i + 1);
      BlockHoldsPayload(2, ps[i]);
      ContentRoundTrip(m.contents[i]);
    }
    var u := Trailer(LOG_SCHEMA, m.unrecognized);
    FieldFirst(LOG_SCHEMA, 2, ps, u);
    var tail := AsBlocks(2, ps) + u;
    var time := Number(1, m.time.value);
    var items := [time] + tail;
    NumberFirst(LOG_SCHEMA, time, tail);
    ContentsAsBlocks(m.contents);
    assert EncodeAll(items) == EncodeLog(m);
    ScanRoundTrip(LOG_SCHEMA, items);
    ExtendsAll(ContentOf, ps, m.contents);
    assert NO_LOG.unrecognized + m.unrecognized == m.unrecognized;
    LogMeaning(NO_LOG, false, Scanned(items, None), m);
  }

  lemma NumberFirst(schema: Schema, it: Item, more: seq<Item>)
    requires it.Number? && Fits(schema, it) && AllFit(schema, more)
    ensures var all := [it] + more;
            && AllFit(schema, all) && EncodeAll(all) == EncodeItem(it) + EncodeAll(more)
            && UnknownBytes(all) == UnknownBytes(more)
            && Numbers(all, it.field) == [it.value] + Numbers(more, it.field)
            && forall g :: Blocks(all, g) == Blocks(more, g)
  {
    var all := [it] + more;
    assert all[1..] == more;
  }

  lemma ExtendsAll<T>(decode: seq<byte> -> Result<T, Error>, ps: seq<seq<byte>>, ms: seq<T>)
    requires AllDecode(decode, ps, ms)
    ensures Extends(decode, ps + [], [], ms)
  {
    assert ps + [] == ps && ms[0..] == ms;
  }

  lemma GroupRoundTrip(m: LogGroup)
    requires CompleteGroup(m) && |EncodeGroup(m)| < TWO_63
    ensures DecodeGroup(NO_GROUP, EncodeGroup(m)) == Ok(m)
  {
    hide NextItem, EncodeItem, FinishGroup, Scan, Blocks, Numbers, UnknownBytes, EncodeAll, AsBlocks, AllFit, Fits,
      EncodeLog, EncodeLogs, DecodeLog, Extends, OptionalBlock, Present;
    var ps := Logs(m.logs);
    forall i | 0 <= i < |ps| ensures |ps[i]| < TWO_63 && LogOf(ps[i]) == Ok(m.logs[i]) {
      LogsPrefix(m.logs, i + 1);
      BlockHoldsPayload(1, ps[i]);
      LogRoundTrip(m.logs[i]);
    }
    PresentIsShort(2, m.reserved);
    PresentIsShort(3, m.topic);
    PresentIsShort(4, m.source);
    var u := Trailer(GROUP_SCHEMA, m.unrecognized);
    FieldFirst(GROUP_SCHEMA, 4, Present(m.source), u);
    var t4 := AsBlocks(4, Present(m.source)) + u;
    FieldFirst(GROUP_SCHEMA, 3, Present(m.topic), t4);
    var t3 := AsBlocks(3, Present(m.topic)) + t4;
    FieldFirst(GROUP_SCHEMA, 2, Present(m.reserved), t3);
    var t2 := AsBlocks(2, Present(m.reserved)) + t3;
    FieldFirst(GROUP_SCHEMA, 1, ps, t2);
    var items := AsBlocks(1, ps) + t2;
    LogsAsBlocks(m.logs);
    PresentAsBlocks(2, m.reserved);
    PresentAsBlocks(3, m.topic);
    PresentAsBlocks(4, m.source);
    assert EncodeAll(items) == EncodeGroup(m);
    ScanRoundTrip(GROUP_SCHEMA, items);
    ExtendsAll(LogOf, ps, m.logs);
    assert NO_GROUP.unrecognized + m.unrecognized == m.unrecognized;
    GroupMeaning(NO_GROUP, Scanned(items, None), m);
  }

  lemma PresentIsShort(f: nat, p: Option<seq<byte>>)
    requires |OptionalBlock(f, p)| < TWO_63
    ensures forall q :: q in Present(p) ==> |q| < TWO_63
  {
    if p.Some? {
      BlockHoldsPayload(f, p.value);
    }
  }

  /** What `Marshal` writes for a complete list, `Unmarshal` into an empty list reads back unchanged,
    * the presence of optional fields included.
    */
  lemma ListRoundTrip(m: LogGroupList)
    requires CompleteList(m) && |EncodeList(m)| < TWO_63
    ensures DecodeList(NO_LIST, EncodeList(m)) == Ok(m)
  {
    hide NextItem, EncodeItem, FinishList, Scan, Blocks, Numbers, UnknownBytes, EncodeAll, AsBlocks, AllFit, Fits,
      EncodeGroup, EncodeGroups, DecodeGroup, Extends;
    var ps := Groups(m.groups);
    forall i | 0 <= i < |ps| ensures |ps[i]| < TWO_63 && GroupOf(ps[i]) == Ok(m.groups[i]) {
      GroupsPrefix(m.groups, i + 1);
      BlockHoldsPayload(1, ps[i]);
      GroupRoundTrip(m.groups[i]);
    }
    var u := Trailer(LIST_SCHEMA, m.unrecognized);
    FieldFirst(LIST_SCHEMA, 1, ps, u);
    var items := AsBlocks(1, ps) + u;
    GroupsAsBlocks(m.groups);
    assert EncodeAll(items) == EncodeList(m);
    ScanRoundTrip(LIST_SCHEMA, items);
    ExtendsAll(GroupOf, ps, m.groups);
    assert NO_LIST.unrecognized + m.unrecognized == m.unrecognized;
    ListMeaning(NO_LIST, Scanned(items, None), m);
  }

  // ---------------------------------------------------------------- stability

  /** The bytes that the items of field `f` encode to. */
  ghost function Cost(items: seq<Item>, f: nat): (n: nat) {
    if items == [] then 0
    else (if !items[0].Unknown? && items[0].field == f then |EncodeItem(items[0])| else 0) + Cost(items[1..], f)
  }

  lemma {:induction false} CostsAddUp(schema: Schema, items: seq<Item>)
    requires AllFit(schema, items) && |schema| <= 4
    ensures |EncodeAll(items)| == |UnknownBytes(items)| + Cost(items, 1) + Cost(items, 2) + Cost(items, 3) + Cost(items, 4)
  {
    hide NextItem, EncodeItem;
    if items != [] {
      assert Fits(schema, items[0]);
      CostsAddUp(schema, items[1..]);
      if items[0].Unknown? {
        RawItem(items[0]);
      }
    }
  }

  lemma {:induction false} LastCosts(items: seq<Item>, f: nat)
    ensures |OptionalBlock(f, Last(None, Blocks(items, f)))| <= Cost(items, f)
    ensures Numbers(items, f) != [] ==> |EncodeItem(Number(f, Last(None, Numbers(items, f)).value))| <= Cost(items, f)
  {
    hide EncodeItem;
    if items != [] {
      LastCosts(items[1..], f);
    }
  }

  /** Repeated messages that encode to no more than they were read from cost no more either. */
  lemma {:induction false} RepeatedCosts(items: seq<Item>, f: nat, qs: seq<seq<byte>>)
    requires |qs| == |Blocks(items, f)| && forall i :: 0 <= i < |qs| ==> |qs[i]| <= |Blocks(items, f)[i]|
    ensures |EncodeAll(AsBlocks(f, qs))| <= Cost(items, f)
  {
    hide EncodeItem, AsBlocks, EncodeAll;
    if items == [] {
      NoCost(f);
    } else if items[0].Block? && items[0].field == f {
      var p := items[0].payload;
      assert Blocks(items, f)[0] == p && Blocks(items, f)[1..] == Blocks(items[1..], f);
      RepeatedCosts(items[1..], f, qs[1..]);
      FirstCosts(f, qs);
      LongerCostsMore(f, qs[0], p);
      assert items[0] == Block(f, p);
    } else {
      RepeatedCosts(items[1..], f, qs);
    }
  }

  lemma NoCost(f: nat)
    ensures EncodeAll(AsBlocks(f, [])) == []
  {
  }

  lemma FirstCosts(f: nat, qs: seq<seq<byte>>)
    requires qs != []
    ensures |EncodeAll(AsBlocks(f, qs))| == |EncodeItem(Block(f, qs[0]))| + |EncodeAll(AsBlocks(f, qs[1..]))|
  {
    hide EncodeItem;
    assert AsBlocks(f, qs)[1..] == AsBlocks(f, qs[1..]);
  }

  lemma LongerCostsMore(f: nat, q: seq<byte>, p: seq<byte>)
    requires |q| <= |p|
    ensures |EncodeItem(Block(f, q))| <= |EncodeItem(Block(f, p))|
  {
    hide EncodeVarint;
    EncodingIsMonotone(|q|, |p|);
  }

  lemma {:induction false} BlocksAreShort(schema: Schema, items: seq<Item>, f: nat)
    requires AllFit(schema, items)
    ensures forall p :: p in Blocks(items, f) ==> |p| < TWO_63
  {
    hide NextItem;
    if items != [] {
      assert Fits(schema, items[0]);
      BlocksAreShort(schema, items[1..], f);
    }
  }

  lemma {:induction false} NumbersAreShort(schema: Schema, items: seq<Item>, f: nat)
    requires AllFit(schema, items)
    ensures forall v :: v in Numbers(items, f) ==> v < TWO_32
  {
    hide NextItem;
    if items != [] {
      assert Fits(schema, items[0]);
      NumbersAreShort(schema, items[1..], f);
    }
  }

  /** What any accepted bytes decode to is complete, and encodes to no more bytes than were accepted. */
  lemma AcceptedContent(s: seq<byte>, m: LogContent)
    requires |s| < TWO_63 && DecodeContent(NO_CONTENT, s) == Ok(m)
    ensures CompleteContent(m) && |EncodeContent(m)| <= |s|
  {
    hide NextItem, EncodeItem, FinishContent, Scan, Blocks, Numbers, UnknownBytes, EncodeAll, AllFit, OptionalBlock,
      UnknownFields;
    var r := Scan(CONTENT_SCHEMA, s);
    ScanFits(CONTENT_SCHEMA, s);
    ContentMeaning(NO_CONTENT, {}, r);
    assert NO_CONTENT.unrecognized + UnknownBytes(r.items) == UnknownBytes(r.items);
    UnknownBytesAreFields(CONTENT_SCHEMA, r.items);
    CostsAddUp(CONTENT_SCHEMA, r.items);
    LastCosts(r.items, 1);
    LastCosts(r.items, 2);
  }

  lemma AcceptedLog(s: seq<byte>, m: Log)
    requires |s| < TWO_63 && DecodeLog(NO_LOG, s) == Ok(m)
    ensures CompleteLog(m) && |EncodeLog(m)| <= |s|
  {
    hide NextItem, EncodeItem, FinishLog, Scan, Blocks, Numbers, UnknownBytes, EncodeAll, AllFit,
      UnknownFields, EncodeContent, EncodeContents, DecodeContent, CompleteContent;
    var r := Scan(LOG_SCHEMA, s);
    ScanFits(LOG_SCHEMA, s);
    LogMeaning(NO_LOG, false, r, m);
    assert NO_LOG.unrecognized + UnknownBytes(r.items) == UnknownBytes(r.items);
    UnknownBytesAreFields(LOG_SCHEMA, r.items);
    CostsAddUp(LOG_SCHEMA, r.items);
    LastCosts(r.items, 1);
    NumbersAreShort(LOG_SCHEMA, r.items, 1);
    assert m.time.value in Numbers(r.items, 1);
    BlocksAreShort(LOG_SCHEMA, r.items, 2);
    var ps := Blocks(r.items, 2);
    assert m.contents[0..] == m.contents;
    forall i | 0 <= i < |ps| ensures CompleteContent(m.contents[i]) && |Contents(m.contents)[i]| <= |ps[i]| {
      assert ps[i] in ps && ContentOf(ps[i]) == Ok(m.contents[i]);
      AcceptedContent(ps[i], m.contents[i]);
    }
    RepeatedCosts(r.items, 2, Contents(m.contents));
    ContentsAsBlocks(m.contents);
  }

  lemma AcceptedGroup(s: seq<byte>, m: LogGroup)
    requires |s| < TWO_63 && DecodeGroup(NO_GROUP, s) == Ok(m)
    ensures CompleteGroup(m) && |EncodeGroup(m)| <= |s|
  {
    hide NextItem, EncodeItem, FinishGroup, Scan, Blocks, Numbers, UnknownBytes, EncodeAll, AllFit,
      UnknownFields, EncodeLog, EncodeLogs, DecodeLog, CompleteLog, OptionalBlock;
    var r := Scan(GROUP_SCHEMA, s);
    ScanFits(GROUP_SCHEMA, s);
    GroupMeaning(NO_GROUP, r, m);
    assert NO_GROUP.unrecognized + UnknownBytes(r.items) == UnknownBytes(r.items);
    UnknownBytesAreFields(GROUP_SCHEMA, r.items);
    CostsAddUp(GROUP_SCHEMA, r.items);
    LastCosts(r.items, 2);
    LastCosts(r.items, 3);
    LastCosts(r.items, 4);
    BlocksAreShort(GROUP_SCHEMA, r.items, 1);
    var ps := Blocks(r.items, 1);
    assert m.logs[0..] == m.logs;
    forall i | 0 <= i < |ps| ensures CompleteLog(m.logs[i]) && |Logs(m.logs)[i]| <= |ps[i]| {
      assert ps[i] in ps && LogOf(ps[i]) == Ok(m.logs[i]);
      AcceptedLog(ps[i], m.logs[i]);
    }
    RepeatedCosts(r.items, 1, Logs(m.logs));
    LogsAsBlocks(m.logs);
  }

  lemma {:induction false} AcceptedList(s: seq<byte>, m: LogGroupList)
    requires |s| < TWO_63 && DecodeList(NO_LIST, s) == Ok(m)
    ensures CompleteList(m) && |EncodeList(m)| <= |s|
    ensures m.unrecognized == UnknownBytes(Scan(LIST_SCHEMA, s).items)
  {
    hide NextItem, EncodeItem, FinishList, Scan, Blocks, Numbers, UnknownBytes, EncodeAll, AllFit,
      UnknownFields, EncodeGroup, EncodeGroups, DecodeGroup, CompleteGroup;
    var r := Scan(LIST_SCHEMA, s);
    ScanFits(LIST_SCHEMA, s);
    ListMeaning(NO_LIST, r, m);
    assert NO_LIST.unrecognized + UnknownBytes(r.items) == UnknownBytes(r.items);
    UnknownBytesAreFields(LIST_SCHEMA, r.items);
    CostsAddUp(LIST_SCHEMA, r.items);
    BlocksAreShort(LIST_SCHEMA, r.items, 1);
    var ps := Blocks(r.items, 1);
    assert m.groups[0..] == m.groups;
    forall i | 0 <= i < |ps| ensures CompleteGroup(m.groups[i]) && |Groups(m.groups)[i]| <= |ps[i]| {
      assert ps[i] in ps && GroupOf(ps[i]) == Ok(m.groups[i]);
      AcceptedGroup(ps[i], m.groups[i]);
    }
    RepeatedCosts(r.items, 1, Groups(m.groups));
    GroupsAsBlocks(m.groups);
  }

  // What the decoder keeps of unknown fields, in the message itself and in every message nested in it: `p` are the
  // bytes `m` was decoded from.

  ghost predicate ContentKeeps(p: seq<byte>, m: LogContent) {
    m.unrecognized == UnknownBytes(Scan(CONTENT_SCHEMA, p).items)
  }

  ghost predicate LogKeeps(p: seq<byte>, m: Log) {
    var items := Scan(LOG_SCHEMA, p).items;
    && m.unrecognized == UnknownBytes(items) && |m.contents| == |Blocks(items, 2)|
    && forall i :: 0 <= i < |m.contents| ==> ContentKeeps(Blocks(items, 2)[i], m.contents[i])
  }

  ghost predicate GroupKeeps(p: seq<byte>, m: LogGroup) {
    var items := Scan(GROUP_SCHEMA, p).items;
    && m.unrecognized == UnknownBytes(items) && |m.logs| == |Blocks(items, 1)|
    && forall i :: 0 <= i < |m.logs| ==> LogKeeps(Blocks(items, 1)[i], m.logs[i])
  }

  ghost predicate ListKeeps(p: seq<byte>, m: LogGroupList) {
    var items := Scan(LIST_SCHEMA, p).items;
    && m.unrecognized == UnknownBytes(items) && |m.groups| == |Blocks(items, 1)|
    && forall i :: 0 <= i < |m.groups| ==> GroupKeeps(Blocks(items, 1)[i], m.groups[i])
  }

  lemma ContentKept(p: seq<byte>, m: LogContent)
    requires |p| < TWO_63 && ContentOf(p) == Ok(m)
    ensures ContentKeeps(p, m)
  {
    hide Scan, FinishContent, Blocks, Numbers, UnknownBytes, AllFit;
    ScanFits(CONTENT_SCHEMA, p);
    ContentMeaning(NO_CONTENT, {}, Scan(CONTENT_SCHEMA, p));
    assert [] + UnknownBytes(Scan(CONTENT_SCHEMA, p).items) == UnknownBytes(Scan(CONTENT_SCHEMA, p).items);
  }

  lemma LogKept(p: seq<byte>, m: Log)
    requires |p| < TWO_63 && LogOf(p) == Ok(m)
    ensures LogKeeps(p, m)
  {
    hide Scan, FinishLog, Blocks, Numbers, UnknownBytes, AllFit, ContentKeeps, ContentOf;
    var r := Scan(LOG_SCHEMA, p);
    ScanFits(LOG_SCHEMA, p);
    LogMeaning(NO_LOG, false, r, m);
    BlocksAreShort(LOG_SCHEMA, r.items, 2);
    assert [] + UnknownBytes(r.items) == UnknownBytes(r.items);
    assert m.contents[0..] == m.contents;
    forall i | 0 <= i < |m.contents| ensures ContentKeeps(Blocks(r.items, 2)[i], m.contents[i]) {
      ContentKept(Blocks(r.items, 2)[i], m.contents[i]);
    }
  }

  lemma GroupKept(p: seq<byte>, m: LogGroup)
    requires |p| < TWO_63 && GroupOf(p) == Ok(m)
    ensures GroupKeeps(p, m)
  {
    hide Scan, FinishGroup, Blocks, Numbers, UnknownBytes, AllFit, LogKeeps, LogOf;
    var r := Scan(GROUP_SCHEMA, p);
    ScanFits(GROUP_SCHEMA, p);
    GroupMeaning(NO_GROUP, r, m);
    BlocksAreShort(GROUP_SCHEMA, r.items, 1);
    assert [] + UnknownBytes(r.items) == UnknownBytes(r.items);
    assert m.logs[0..] == m.logs;
    forall i | 0 <= i < |m.logs| ensures LogKeeps(Blocks(r.items, 1)[i], m.logs[i]) {
      LogKept(Blocks(r.items, 1)[i], m.logs[i]);
    }
  }

  lemma ListKept(p: seq<byte>, m: LogGroupList)
    requires |p| < TWO_63 && DecodeList(NO_LIST, p) == Ok(m)
    ensures ListKeeps(p, m)
  {
    hide Scan, FinishList, Blocks, Numbers, UnknownBytes, AllFit, GroupKeeps, GroupOf;
    var r := Scan(LIST_SCHEMA, p);
    ScanFits(LIST_SCHEMA, p);
    ListMeaning(NO_LIST, r, m);
    BlocksAreShort(LIST_SCHEMA, r.items, 1);
    assert [] + UnknownBytes(r.items) == UnknownBytes(r.items);
    assert m.groups[0..] == m.groups;
    forall i | 0 <= i < |m.groups| ensures GroupKeeps(Blocks(r.items, 1)[i], m.groups[i]) {
      GroupKept(Blocks(r.items, 1)[i], m.groups[i]);
    }
  }

  lemma {:induction false} CompleteContentsMarshal(cs: seq<LogContent>)
    requires forall c :: c in cs ==> CompleteContent(c)
    ensures MissingInContents(cs).None?
  {
    hide UnknownFields;
    if cs != [] {
      assert CompleteContent(cs[|cs| - 1]);
      CompleteContentsMarshal(cs[..|cs| - 1]);
    }
  }

  lemma {:induction false} CompleteLogsMarshal(ls: seq<Log>)
    requires forall l :: l in ls ==> CompleteLog(l)
    ensures MissingInLogs(ls).None?
  {
    hide UnknownFields;
    if ls != [] {
      assert CompleteLog(ls[|ls| - 1]);
      CompleteContentsMarshal(ls[|ls| - 1].contents);
      CompleteLogsMarshal(ls[..|ls| - 1]);
    }
  }

  /** A complete list is one `Marshal` accepts. */
  lemma {:induction false} CompleteGroupsMarshal(gs: seq<LogGroup>)
    requires forall g :: g in gs ==> CompleteGroup(g)
    ensures MissingInGroups(gs).None?
  {
    hide UnknownFields;
    if gs != [] {
      assert CompleteGroup(gs[|gs| - 1]);
      CompleteLogsMarshal(gs[|gs| - 1].logs);
      CompleteGroupsMarshal(gs[..|gs| - 1]);
    }
  }

  /** For every byte string `Unmarshal` accepts: what it decodes to can be marshalled, to no more bytes; decoding
    * that again gives the same message; and unknown fields are kept verbatim and in order by both, at every level
    * of nesting.
    */
  lemma {:induction false} ReencodingIsStable(s: seq<byte>, m: LogGroupList)
    requires |s| < TWO_63 && DecodeList(NO_LIST, s) == Ok(m)
    ensures MissingInGroups(m.groups).None? && |EncodeList(m)| <= |s|
    ensures DecodeList(NO_LIST, EncodeList(m)) == Ok(m)
    ensures ListKeeps(s, m) && ListKeeps(EncodeList(m), m)
  {
    hide DecodeList, EncodeList, ListKeeps, CompleteGroup;
    AcceptedList(s, m);
    CompleteGroupsMarshal(m.groups);
    ListRoundTrip(m);
    ListKept(s, m);
    ListKept(EncodeList(m), m);
  }
}
