/** The encoder and decoder as the program runs them: loops over indices into one shared buffer. */
module Codec {
  import opened Common
  import opened Wire
  import opened Framing
  import opened Messages
  import Skip

  // ---------------------------------------------------------------- sizes

  /** A `Time` is a 32-bit number, as its Go type makes it. */
  predicate Time32(m: Log) {
    m.time.Some? ==> m.time.value < TWO_32
  }

  predicate AllTime32(ms: seq<Log>) {
    forall m :: m in ms ==> Time32(m)
  }

  method SizeOfVarint(v: nat) returns (n: nat)
    requires v < TWO_64
    ensures n == |EncodeVarint(v)|
  {
    n := 0;
    var x := v;
    while true
      invariant n + |EncodeVarint(x)| == |EncodeVarint(v)|
      decreases x
    {
      n := n + 1;
      if x / 128 == 0 {
        return;
      }
      x := x / 128;
    }
  }

  method SizeOfBlock(l: nat) returns (n: nat)
    requires l < TWO_63
    ensures forall f, p :: |p| == l ==> n == |EncodeItem(Block(f, p))|
  {
    var varint := SizeOfVarint(l);
    n := 1 + l + varint;
  }

  method SizeOfOptional(p: Option<seq<byte>>) returns (n: nat)
    requires p.Some? ==> |p.value| < TWO_63
    ensures forall f :: n == |OptionalBlock(f, p)|
  {
    n := 0;
    if p.Some? {
      n := SizeOfBlock(|p.value|);
      assert forall f :: OptionalBlock(f, p) == EncodeItem(Block(f, p.value));
    }
  }

  lemma OptionalHoldsPayload(f: nat, p: Option<seq<byte>>)
    ensures p.Some? ==> |p.value| < |OptionalBlock(f, p)|
  {
  }

  method SizeOfContent(m: LogContent) returns (n: nat)
    requires |EncodeContent(m)| < TWO_63
    ensures n == |EncodeContent(m)|
  {
    hide OptionalBlock;
    OptionalHoldsPayload(1, m.key);
    OptionalHoldsPayload(2, m.value);
    n := SizeOfOptional(m.key);
    var v := SizeOfOptional(m.value);
    n := n + v + |m.unrecognized|;
  }

  method SizeOfTime(t: Option<nat>) returns (n: nat)
    requires t.Some? ==> t.value < TWO_32
    ensures n == |EncodeTime(t)|
  {
    n := 0;
    if t.Some? {
      n := SizeOfVarint(t.value);
      n := n + 1;
    }
  }

  method SizeOfLog(m: Log) returns (n: nat)
    requires |EncodeLog(m)| < TWO_63 && Time32(m)
    ensures n == |EncodeLog(m)|
  {
    hide EncodeContent, EncodeContents, EncodeTime, EncodeItem;
    n := SizeOfTime(m.time);
    NoContents();
    for i := 0 to |m.contents|
      invariant n == |EncodeTime(m.time)| + |EncodeContents(m.contents[..i])|
    {
      ContentsPrefix(m.contents, i + 1);
      BlockHoldsPayload(2, EncodeContent(m.contents[i]));
      var l := SizeOfContent(m.contents[i]);
      var b := SizeOfBlock(l);
      n := n + b;
    }
    assert m.contents[..|m.contents|] == m.contents;
    n := n + |m.unrecognized|;
  }

  method SizeOfGroup(m: LogGroup) returns (n: nat)
    requires |EncodeGroup(m)| < TWO_63 && AllTime32(m.logs)
    ensures n == |EncodeGroup(m)|
  {
    hide EncodeLog, EncodeLogs, OptionalBlock, EncodeItem;
    n := 0;
    NoLogs();
    for i := 0 to |m.logs|
      invariant n == |EncodeLogs(m.logs[..i])|
    {
      LogsPrefix(m.logs, i + 1);
      BlockHoldsPayload(1, EncodeLog(m.logs[i]));
      var l := SizeOfLog(m.logs[i]);
      var b := SizeOfBlock(l);
      n := n + b;
    }
    assert m.logs[..|m.logs|] == m.logs;
    OptionalHoldsPayload(2, m.reserved);
    OptionalHoldsPayload(3, m.topic);
    OptionalHoldsPayload(4, m.source);
    var r := SizeOfOptional(m.reserved);
    var t := SizeOfOptional(m.topic);
    var s := SizeOfOptional(m.source);
    n := n + r + t + s + |m.unrecognized|;
  }

  method SizeOfList(m: LogGroupList) returns (n: nat)
    requires |EncodeList(m)| < TWO_63 && forall g :: g in m.groups ==> AllTime32(g.logs)
    ensures n == |EncodeList(m)|
  {
    hide EncodeGroup, EncodeGroups, EncodeItem;
    n := 0;
    NoGroups();
    for i := 0 to |m.groups|
      invariant n == |EncodeGroups(m.groups[..i])|
    {
      GroupsPrefix(m.groups, i + 1);
      BlockHoldsPayload(1, EncodeGroup(m.groups[i]));
      var l := SizeOfGroup(m.groups[i]);
      var b := SizeOfBlock(l);
      n := n + b;
    }
    assert m.groups[..|m.groups|] == m.groups;
    n := n + |m.unrecognized|;
  }

  // ---------------------------------------------------------------- writing in place
  //
  // Every writer gets the ghost end `last` of the room its caller has set aside, keeps what lies before
  // `at` and from `last` on, and may be given any room that the encoding fits in.

  /** Writes `v` at `at` and returns the index after it. */
  method EncodeVarintLog(data: array<byte>, at: nat, v: nat, ghost last: nat) returns (end: nat)
    requires at + |EncodeVarint(v)| <= last <= data.Length
    modifies data
    ensures end == at + |EncodeVarint(v)|
    ensures data[..end] == old(data[..at]) + EncodeVarint(v)
    ensures data[last..] == old(data[last..])
  {
    var x, i := v, at;
    while x >= 128
      invariant at <= i && i + |EncodeVarint(x)| == at + |EncodeVarint(v)|
      invariant data[..i] + EncodeVarint(x) == old(data[..at]) + EncodeVarint(v)
      invariant data[last..] == old(data[last..])
      decreases x
    {
      data[i] := x % 128 + 128;
      assert data[..i + 1] == data[..i] + [x % 128 + 128];
      assert data[..i + 1] + EncodeVarint(x / 128) == data[..i] + EncodeVarint(x);
      x := x / 128;
      i := i + 1;
    }
    data[i] := x;
    end := i + 1;
    assert data[..end] == data[..i] + [x];
  }

  /** Go's `copy(data[at:], src)` where the source fits. */
  method Copy(data: array<byte>, at: nat, src: seq<byte>, ghost last: nat) returns (end: nat)
    requires at + |src| <= last <= data.Length
    modifies data
    ensures end == at + |src|
    ensures data[..end] == old(data[..at]) + src
    ensures data[last..] == old(data[last..])
  {
    forall k | 0 <= k < |src| {
      data[at + k] := src[k];
    }
    end := at + |src|;
  }

  /** The key and the length in front of a string or a nested message. */
  method WriteHeader(data: array<byte>, at: nat, field: nat, l: nat, ghost last: nat) returns (end: nat)
    requires at + 1 + |EncodeVarint(l)| <= last <= data.Length
    modifies data
    ensures end == at + 1 + |EncodeVarint(l)|
    ensures data[..end] == old(data[..at]) + ([KeyByte(field, 2)] + EncodeVarint(l))
    ensures data[last..] == old(data[last..])
  {
    hide EncodeVarint;
    data[at] := KeyByte(field, 2);
    assert data[..at + 1] == old(data[..at]) + [KeyByte(field, 2)];
    end := EncodeVarintLog(data, at + 1, l, last);
  }

  method WriteString(data: array<byte>, at: nat, field: nat, p: Option<seq<byte>>, ghost last: nat)
    returns (end: nat)
    requires at + |OptionalBlock(field, p)| <= last <= data.Length
    modifies data
    ensures end == at + |OptionalBlock(field, p)|
    ensures data[..end] == old(data[..at]) + OptionalBlock(field, p)
    ensures data[last..] == old(data[last..])
  {
    hide EncodeVarint;
    end := at;
    if p.Some? {
      end := WriteHeader(data, end, field, |p.value|, last);
      end := Copy(data, end, p.value, last);
      assert data[..end] == old(data[..at]) + EncodeItem(Block(field, p.value));
    }
  }

  method WriteTime(data: array<byte>, at: nat, t: nat, ghost last: nat) returns (end: nat)
    requires at + |EncodeTime(Some(t))| <= last <= data.Length
    modifies data
    ensures end == at + |EncodeTime(Some(t))|
    ensures data[..end] == old(data[..at]) + EncodeTime(Some(t))
    ensures data[last..] == old(data[last..])
  {
    hide EncodeVarint;
    data[at] := KeyByte(1, 0);
    assert data[..at + 1] == old(data[..at]) + [KeyByte(1, 0)];
    end := EncodeVarintLog(data, at + 1, t, last);
    Join(old(data[..at]), [KeyByte(1, 0)], EncodeVarint(t));
  }

  lemma Join<T>(a: seq<T>, b: seq<T>, c: seq<T>)
    ensures a + b + c == a + (b + c)
  {
  }

  /** A nested message as it is written: key and length, and then its bytes. */
  lemma BlockParts(f: nat, p: seq<byte>)
    ensures EncodeItem(Block(f, p)) == [KeyByte(f, 2)] + EncodeVarint(|p|) + p
  {
    hide EncodeVarint;
  }

  /** Fills the buffer from `at` with exactly the encoding, or reports the first unset required field. */
  method MarshalContentTo(m: LogContent, data: array<byte>, at: nat, ghost last: nat)
    returns (r: Result<nat, Error>)
    requires at + |EncodeContent(m)| <= last <= data.Length
    modifies data
    ensures r == Written(MissingInContent(m), |EncodeContent(m)|)
    ensures r.Ok? <==> m.key.Some? && m.value.Some?
    ensures m.key.None? ==> r == Err(RequiredNotSet("Key"))
    ensures m.key.Some? && m.value.None? ==> r == Err(RequiredNotSet("Value"))
    ensures r.Ok? ==> data[..at + r.value] == old(data[..at]) + EncodeContent(m)
    ensures data[..at] == old(data[..at]) && data[last..] == old(data[last..])
  {
    hide OptionalBlock;
    if m.key.None? {
      return Err(RequiredNotSet("Key"));
    }
    var i := WriteString(data, at, 1, m.key, last);
    PrefixStays(data[..], old(data[..]), at, i);
    if m.value.None? {
      return Err(RequiredNotSet("Value"));
    }
    i := WriteString(data, i, 2, m.value, last);
    i := Copy(data, i, m.unrecognized, last);
    assert data[..i] == old(data[..at]) + EncodeContent(m);
    PrefixStays(data[..], old(data[..]), at, i);
    r := Ok(i - at);
  }

  /** How `MarshalTo` ends: with its byte count, or with the first required field that is not set. */
  function Written(missing: Option<Error>, n: nat): (r: Result<nat, Error>) {
    if missing.Some? then Err(missing.value) else Ok(n)
  }

  lemma PrefixStays(now: seq<byte>, before: seq<byte>, at: nat, i: nat)
    requires at <= i <= |now| && at <= |before| && before[..at] <= now[..i]
    ensures now[..at] == before[..at]
  {
    assert now[..at] == now[..i][..at];
  }

  /** One round of the loop over a repeated field: key, size and nested message. */
  method MarshalContentBlock(m: LogContent, data: array<byte>, at: nat, ghost last: nat) returns (r: Result<nat, Error>)
    requires at + |EncodeItem(Block(2, EncodeContent(m)))| <= last <= data.Length && |EncodeContent(m)| < TWO_63
    modifies data
    ensures r == Written(MissingInContent(m), |EncodeItem(Block(2, EncodeContent(m)))|)
    ensures r.Ok? ==> data[..at + r.value] == old(data[..at]) + EncodeItem(Block(2, EncodeContent(m)))
    ensures data[..at] == old(data[..at]) && data[last..] == old(data[last..])
  {
    hide EncodeContent, EncodeVarint, EncodeItem;
    BlockParts(2, EncodeContent(m));
    var l := SizeOfContent(m);
    var i := WriteHeader(data, at, 2, l, last);
    PrefixStays(data[..], old(data[..]), at, i);
    var n := MarshalContentTo(m, data, i, last);
    PrefixStays(data[..], old(data[..]), at, i);
    if n.Err? {
      return n;
    }
    r := Ok(i + n.value - at);
    Join(old(data[..at]), [KeyByte(2, 2)] + EncodeVarint(l), EncodeContent(m));
  }

  method MarshalContents(ms: seq<LogContent>, data: array<byte>, at: nat, ghost last: nat) returns (r: Result<nat, Error>)
    requires at + |EncodeContents(ms)| <= last <= data.Length && |EncodeContents(ms)| < TWO_63
    modifies data
    ensures r == Written(MissingInContents(ms), |EncodeContents(ms)|)
    ensures r.Ok? ==> data[..at + r.value] == old(data[..at]) + EncodeContents(ms)
    ensures data[..at] == old(data[..at]) && data[last..] == old(data[last..])
  {
    hide EncodeContent, EncodeContents, EncodeItem, MissingInContents;
    NoContents();
    var i := at;
    for k := 0 to |ms|
      invariant i == at + |EncodeContents(ms[..k])| <= last
      invariant MissingInContents(ms[..k]).None?
      invariant data[..i] == old(data[..at]) + EncodeContents(ms[..k])
      invariant data[last..] == old(data[last..])
    {
      ContentsPrefix(ms, k + 1);
      BlockHoldsPayload(2, EncodeContent(ms[k]));
      var n := MarshalContentBlock(ms[k], data, i, last);
      PrefixStays(data[..], old(data[..]), at, i);
      if n.Err? {
        return n;
      }
      i := i + n.value;
      assert data[..i] == old(data[..at]) + (EncodeContents(ms[..k]) + EncodeItem(Block(2, EncodeContent(ms[k]))));
    }
    assert ms[..|ms|] == ms;
    PrefixStays(data[..], old(data[..]), at, i);
    r := Ok(i - at);
  }

  method MarshalLogTo(m: Log, data: array<byte>, at: nat, ghost last: nat) returns (r: Result<nat, Error>)
    requires at + |EncodeLog(m)| <= last <= data.Length && |EncodeLog(m)| < TWO_63 && Time32(m)
    modifies data
    ensures r == Written(MissingInLog(m), |EncodeLog(m)|)
    ensures r.Ok? <==> m.time.Some? && ContentsSet(m.contents)
    ensures r.Ok? ==> data[..at + r.value] == old(data[..at]) + EncodeLog(m)
    ensures data[..at] == old(data[..at]) && data[last..] == old(data[last..])
  {
    hide EncodeContents, EncodeTime, MissingInContents, ContentsSet;
    MissingContents(m.contents);
    if m.time.None? {
      return Err(RequiredNotSet("Time"));
    }
    var i := WriteTime(data, at, m.time.value, last);
    PrefixStays(data[..], old(data[..]), at, i);
    var n := MarshalContents(m.contents, data, i, last);
    PrefixStays(data[..], old(data[..]), at, i);
    if n.Err? {
      return n;
    }
    i := i + n.value;
    i := Copy(data, i, m.unrecognized, last);
    Join(old(data[..at]), EncodeTime(m.time), EncodeContents(m.contents));
    Join(old(data[..at]), EncodeTime(m.time) + EncodeContents(m.contents), m.unrecognized);
    PrefixStays(data[..], old(data[..]), at, i);
    r := Ok(i - at);
  }

  method MarshalLogBlock(m: Log, data: array<byte>, at: nat, ghost last: nat) returns (r: Result<nat, Error>)
    requires at + |EncodeItem(Block(1, EncodeLog(m)))| <= last <= data.Length && |EncodeLog(m)| < TWO_63 && Time32(m)
    modifies data
    ensures r == Written(MissingInLog(m), |EncodeItem(Block(1, EncodeLog(m)))|)
    ensures r.Ok? ==> data[..at + r.value] == old(data[..at]) + EncodeItem(Block(1, EncodeLog(m)))
    ensures data[..at] == old(data[..at]) && data[last..] == old(data[last..])
  {
    hide EncodeLog, EncodeVarint, EncodeItem;
    BlockParts(1, EncodeLog(m));
    var l := SizeOfLog(m);
    var i := WriteHeader(data, at, 1, l, last);
    PrefixStays(data[..], old(data[..]), at, i);
    var n := MarshalLogTo(m, data, i, last);
    PrefixStays(data[..], old(data[..]), at, i);
    if n.Err? {
      return n;
    }
    r := Ok(i + n.value - at);
    Join(old(data[..at]), [KeyByte(1, 2)] + EncodeVarint(l), EncodeLog(m));
  }

  method MarshalLogs(ms: seq<Log>, data: array<byte>, at: nat, ghost last: nat) returns (r: Result<nat, Error>)
    requires at + |EncodeLogs(ms)| <= last <= data.Length && |EncodeLogs(ms)| < TWO_63 && AllTime32(ms)
    modifies data
    ensures r == Written(MissingInLogs(ms), |EncodeLogs(ms)|)
    ensures r.Ok? ==> data[..at + r.value] == old(data[..at]) + EncodeLogs(ms)
    ensures data[..at] == old(data[..at]) && data[last..] == old(data[last..])
  {
    hide EncodeLog, EncodeLogs, EncodeItem, MissingInLogs;
    NoLogs();
    var i := at;
    for k := 0 to |ms|
      invariant i == at + |EncodeLogs(ms[..k])| <= last
      invariant MissingInLogs(ms[..k]).None?
      invariant data[..i] == old(data[..at]) + EncodeLogs(ms[..k])
      invariant data[last..] == old(data[last..])
    {
      LogsPrefix(ms, k + 1);
      BlockHoldsPayload(1, EncodeLog(ms[k]));
      var n := MarshalLogBlock(ms[k], data, i, last);
      PrefixStays(data[..], old(data[..]), at, i);
      if n.Err? {
        return n;
      }
      i := i + n.value;
      assert data[..i] == old(data[..at]) + (EncodeLogs(ms[..k]) + EncodeItem(Block(1, EncodeLog(ms[k]))));
    }
    assert ms[..|ms|] == ms;
    PrefixStays(data[..], old(data[..]), at, i);
    r := Ok(i - at);
  }

  method MarshalGroupTo(m: LogGroup, data: array<byte>, at: nat, ghost last: nat) returns (r: Result<nat, Error>)
    requires at + |EncodeGroup(m)| <= last <= data.Length && |EncodeGroup(m)| < TWO_63 && AllTime32(m.logs)
    modifies data
    ensures r == Written(MissingInLogs(m.logs), |EncodeGroup(m)|)
    ensures r.Ok? <==> LogsSet(m.logs)
    ensures r.Ok? ==> data[..at + r.value] == old(data[..at]) + EncodeGroup(m)
    ensures data[..at] == old(data[..at]) && data[last..] == old(data[last..])
  {
    hide EncodeLogs, OptionalBlock, MissingInLogs, LogsSet;
    MissingLogs(m.logs);
    var n := MarshalLogs(m.logs, data, at, last);
    if n.Err? {
      return n;
    }
    var i := at + n.value;
    i := WriteString(data, i, 2, m.reserved, last);
    i := WriteString(data, i, 3, m.topic, last);
    i := WriteString(data, i, 4, m.source, last);
    i := Copy(data, i, m.unrecognized, last);
    assert data[..i] == old(data[..at]) + EncodeGroup(m);
    PrefixStays(data[..], old(data[..]), at, i);
    r := Ok(i - at);
  }

  method MarshalGroupBlock(m: LogGroup, data: array<byte>, at: nat, ghost last: nat) returns (r: Result<nat, Error>)
    requires at + |EncodeItem(Block(1, EncodeGroup(m)))| <= last <= data.Length && |EncodeGroup(m)| < TWO_63 && AllTime32(m.logs)
    modifies data
    ensures r == Written(MissingInLogs(m.logs), |EncodeItem(Block(1, EncodeGroup(m)))|)
    ensures r.Ok? ==> data[..at + r.value] == old(data[..at]) + EncodeItem(Block(1, EncodeGroup(m)))
    ensures data[..at] == old(data[..at]) && data[last..] == old(data[last..])
  {
    hide EncodeGroup, EncodeVarint, EncodeItem;
    BlockParts(1, EncodeGroup(m));
    var l := SizeOfGroup(m);
    var i := WriteHeader(data, at, 1, l, last);
    PrefixStays(data[..], old(data[..]), at, i);
    var n := MarshalGroupTo(m, data, i, last);
    PrefixStays(data[..], old(data[..]), at, i);
    if n.Err? {
      return n;
    }
    r := Ok(i + n.value - at);
    Join(old(data[..at]), [KeyByte(1, 2)] + EncodeVarint(l), EncodeGroup(m));
  }

  method MarshalGroups(ms: seq<LogGroup>, data: array<byte>, at: nat, ghost last: nat) returns (r: Result<nat, Error>)
    requires at + |EncodeGroups(ms)| <= last <= data.Length && |EncodeGroups(ms)| < TWO_63
    requires forall g :: g in ms ==> AllTime32(g.logs)
    modifies data
    ensures r == Written(MissingInGroups(ms), |EncodeGroups(ms)|)
    ensures r.Ok? ==> data[..at + r.value] == old(data[..at]) + EncodeGroups(ms)
    ensures data[..at] == old(data[..at]) && data[last..] == old(data[last..])
  {
    hide EncodeGroup, EncodeGroups, EncodeItem, MissingInGroups;
    NoGroups();
    var i := at;
    for k := 0 to |ms|
      invariant i == at + |EncodeGroups(ms[..k])| <= last
      invariant MissingInGroups(ms[..k]).None?
      invariant data[..i] == old(data[..at]) + EncodeGroups(ms[..k])
      invariant data[last..] == old(data[last..])
    {
      GroupsPrefix(ms, k + 1);
      BlockHoldsPayload(1, EncodeGroup(ms[k]));
      var n := MarshalGroupBlock(ms[k], data, i, last);
      PrefixStays(data[..], old(data[..]), at, i);
      if n.Err? {
        return n;
      }
      i := i + n.value;
      assert data[..i] == old(data[..at]) + (EncodeGroups(ms[..k]) + EncodeItem(Block(1, EncodeGroup(ms[k]))));
    }
    assert ms[..|ms|] == ms;
    PrefixStays(data[..], old(data[..]), at, i);
    r := Ok(i - at);
  }

  method MarshalListTo(m: LogGroupList, data: array<byte>, at: nat, ghost last: nat) returns (r: Result<nat, Error>)
    requires at + |EncodeList(m)| <= last <= data.Length && |EncodeList(m)| < TWO_63
    requires forall g :: g in m.groups ==> AllTime32(g.logs)
    modifies data
    ensures r == Written(MissingInGroups(m.groups), |EncodeList(m)|)
    ensures r.Ok? <==> GroupsSet(m.groups)
    ensures r.Ok? ==> data[..at + r.value] == old(data[..at]) + EncodeList(m)
    ensures data[..at] == old(data[..at]) && data[last..] == old(data[last..])
  {
    hide EncodeGroups, MissingInGroups, GroupsSet;
    MissingGroups(m.groups);
    var n := MarshalGroups(m.groups, data, at, last);
    if n.Err? {
      return n;
    }
    var i := Copy(data, at + n.value, m.unrecognized, last);
    assert data[..i] == old(data[..at]) + EncodeList(m);
    PrefixStays(data[..], old(data[..]), at, i);
    r := Ok(i - at);
  }

  /** The whole message in a buffer of exactly its size, or the first required field that is not set. */
  method MarshalList(m: LogGroupList) returns (r: Result<seq<byte>, Error>)
    requires |EncodeList(m)| < TWO_63 && forall g :: g in m.groups ==> AllTime32(g.logs)
    ensures r.Ok? <==> GroupsSet(m.groups)
    ensures r.Ok? ==> r.value == EncodeList(m)
    ensures r.Err? ==> exists n, i, k, name :: UnsetInGroups(m.groups, n, i, k, name) && r.error == RequiredNotSet(name)
  {
    hide EncodeList, MissingInGroups, GroupsSet, UnsetInGroups;
    MissingGroups(m.groups);
    var size := SizeOfList(m);
    var data := new byte[size];
    assert data[..0] == [];
    var n := MarshalListTo(m, data, 0, size);
    if n.Err? {
      return Err(n.error);
    }
    assert data[..0 + n.value] == [] + EncodeList(m) == EncodeList(m);
    r := Ok(data[..n.value]);
  }

  // ---------------------------------------------------------------- reading

  /** One field: the key, and then the value or the skipped bytes, as the body of every loop below reads them. */
  method ReadItem(schema: Schema, data: seq<byte>, start: nat) returns (r: Result<Framed, Error>)
    requires start < |data|
    ensures r == NextItem(schema, data[start..])
  {
    hide DecodeVarint, Skip.FieldLength;
    var i := start;
    var key := ReadVarint(data, i);
    if key.Err? {
      return Err(key.error);
    }
    i := i + key.value.len;
    assert data[start..][key.value.len..] == data[i..];
    var num, wireType := FieldNumber(key.value.value), Skip.WireType(key.value.value);
    if wireType == 4 {
      return Err(EndGroup);
    }
    if num <= 0 {
      return Err(IllegalTag);
    }
    if num > |schema| {
      var n := Skip.SkipLog(data[start..]);
      if n.Err? {
        return Err(n.error);
      }
      if start + n.value > |data| {
        return Err(UnexpectedEOF);
      }
      return Ok(Framed(Unknown(data[start..][..n.value]), n.value));
    }
    if wireType != (if schema[num - 1].Scalar32? then 0 else 2) {
      return Err(WrongWireType(num));
    }
    var v := ReadVarint(data, i);
    if v.Err? {
      return Err(v.error);
    }
    i := i + v.value.len;
    if schema[num - 1].Scalar32? {
      return Ok(Framed(Number(num, v.value.value % TWO_32), i - start));
    }
    var n := Int64(v.value.value);
    if n < 0 {
      return Err(InvalidLength);
    }
    if i + n > |data| {
      return Err(UnexpectedEOF);
    }
    r := Ok(Framed(Block(num, data[start..][i - start..i - start + n]), i + n - start));
  }

  lemma AfterItem(schema: Schema, data: seq<byte>, i: nat)
    requires i < |data|
    ensures var s := Scan(schema, data[i..]);
            match NextItem(schema, data[i..])
            case Err(e) => s == Scanned([], Some(e))
            case Ok(f) =>
              && s.items != [] && s.items[0] == f.item
              && Scanned(s.items[1..], s.error) == Scan(schema, data[i + f.len..])
  {
    hide NextItem;
    if NextItem(schema, data[i..]).Ok? {
      var f := NextItem(schema, data[i..]).value;
      assert data[i..][f.len..] == data[i + f.len..];
      var more := Scan(schema, data[i + f.len..]);
      assert ([f.item] + more.items)[1..] == more.items;
    }
  }

  /** Reads every field of `data` into `m0`; a required field must occur in `data` itself. */
  method UnmarshalContent(m0: LogContent, data: seq<byte>) returns (r: Result<LogContent, Error>)
    ensures r == DecodeContent(m0, data)
  {
    hide Scan, NextItem;
    var m, seen: set<nat>, i := m0, {}, 0;
    assert data[0..] == data;
    while i < |data|
      invariant i <= |data|
      invariant DecodeContent(m0, data) == FinishContent(m, seen, Scan(CONTENT_SCHEMA, data[i..]))
      decreases |data| - i
    {
      AfterItem(CONTENT_SCHEMA, data, i);
      var f := ReadItem(CONTENT_SCHEMA, data, i);
      if f.Err? {
        return Err(f.error);
      }
      match f.value.item {
        case Block(field, p) =>
          if field == 1 {
            m := m.(key := Some(p));
          } else {
            m := m.(value := Some(p));
          }
          seen := seen + {field};
        case Unknown(raw) =>
          m := m.(unrecognized := m.unrecognized + raw);
        case Number(_, _) =>
      }
      i := i + f.value.len;
    }
    ScanNothing(CONTENT_SCHEMA, data[i..]);
    if 1 !in seen {
      return Err(RequiredNotSet("Key"));
    }
    if 2 !in seen {
      return Err(RequiredNotSet("Value"));
    }
    r := Ok(m);
  }

  lemma ScanNothing(schema: Schema, s: seq<byte>)
    requires s == []
    ensures Scan(schema, s) == Scanned([], None)
  {
  }

  method UnmarshalLog(m0: Log, data: seq<byte>) returns (r: Result<Log, Error>)
    ensures r == DecodeLog(m0, data)
  {
    hide Scan, NextItem, DecodeContent;
    var m, seen, i := m0, false, 0;
    assert data[0..] == data;
    while i < |data|
      invariant i <= |data|
      invariant DecodeLog(m0, data) == FinishLog(m, seen, Scan(LOG_SCHEMA, data[i..]))
      decreases |data| - i
    {
      AfterItem(LOG_SCHEMA, data, i);
      var f := ReadItem(LOG_SCHEMA, data, i);
      if f.Err? {
        return Err(f.error);
      }
      match f.value.item {
        case Number(_, v) =>
          m := m.(time := Some(v));
          seen := true;
        case Block(_, p) =>
          var c := UnmarshalContent(NO_CONTENT, p);
          if c.Err? {
            return Err(c.error);
          }
          m := m.(contents := m.contents + [c.value]);
        case Unknown(raw) =>
          m := m.(unrecognized := m.unrecognized + raw);
      }
      i := i + f.value.len;
    }
    ScanNothing(LOG_SCHEMA, data[i..]);
    r := if seen then Ok(m) else Err(RequiredNotSet("Time"));
  }

  method UnmarshalGroup(m0: LogGroup, data: seq<byte>) returns (r: Result<LogGroup, Error>)
    ensures r == DecodeGroup(m0, data)
  {
    hide Scan, NextItem, DecodeLog;
    var m, i := m0, 0;
    assert data[0..] == data;
    while i < |data|
      invariant i <= |data|
      invariant DecodeGroup(m0, data) == FinishGroup(m, Scan(GROUP_SCHEMA, data[i..]))
      decreases |data| - i
    {
      AfterItem(GROUP_SCHEMA, data, i);
      var f := ReadItem(GROUP_SCHEMA, data, i);
      if f.Err? {
        return Err(f.error);
      }
      match f.value.item {
        case Block(field, p) =>
          if field == 1 {
            var l := UnmarshalLog(NO_LOG, p);
            if l.Err? {
              return Err(l.error);
            }
            m := m.(logs := m.logs + [l.value]);
          } else if field == 2 {
            m := m.(reserved := Some(p));
          } else if field == 3 {
            m := m.(topic := Some(p));
          } else {
            m := m.(source := Some(p));
          }
        case Unknown(raw) =>
          m := m.(unrecognized := m.unrecognized + raw);
        case Number(_, _) =>
      }
      i := i + f.value.len;
    }
    ScanNothing(GROUP_SCHEMA, data[i..]);
    r := Ok(m);
  }

  method UnmarshalList(m0: LogGroupList, data: seq<byte>) returns (r: Result<LogGroupList, Error>)
    ensures r == DecodeList(m0, data)
  {
    hide Scan, NextItem, DecodeGroup;
    var m, i := m0, 0;
    assert data[0..] == data;
    while i < |data|
      invariant i <= |data|
      invariant DecodeList(m0, data) == FinishList(m, Scan(LIST_SCHEMA, data[i..]))
      decreases |data| - i
    {
      AfterItem(LIST_SCHEMA, data, i);
      var f := ReadItem(LIST_SCHEMA, data, i);
      if f.Err? {
        return Err(f.error);
      }
      match f.value.item {
        case Block(_, p) =>
          var g := UnmarshalGroup(NO_GROUP, p);
          if g.Err? {
            return Err(g.error);
          }
          m := m.(groups := m.groups + [g.value]);
        case Unknown(raw) =>
          m := m.(unrecognized := m.unrecognized + raw);
        case Number(_, _) =>
      }
      i := i + f.value.len;
    }
    ScanNothing(LIST_SCHEMA, data[i..]);
    r := Ok(m);
  }
}
