/** The four messages of the log service: their bytes, and what any bytes mean. */
module Messages {
  import opened Common
  import opened Wire
  import opened Framing

  datatype LogContent = LogContent(key: Option<seq<byte>>, value: Option<seq<byte>>, unrecognized: seq<byte>)
  datatype Log = Log(time: Option<nat>, contents: seq<LogContent>, unrecognized: seq<byte>)
  datatype LogGroup = LogGroup(logs: seq<Log>, reserved: Option<seq<byte>>, topic: Option<seq<byte>>,
                               source: Option<seq<byte>>, unrecognized: seq<byte>)
  datatype LogGroupList = LogGroupList(groups: seq<LogGroup>, unrecognized: seq<byte>)

  const NO_CONTENT := LogContent(None, None, [])
  const NO_LOG := Log(None, [], [])
  const NO_GROUP := LogGroup([], None, None, None, [])
  const NO_LIST := LogGroupList([], [])

  const CONTENT_SCHEMA: Schema := [LengthDelimited, LengthDelimited]
  const LOG_SCHEMA: Schema := [Scalar32, LengthDelimited]
  const GROUP_SCHEMA: Schema := [LengthDelimited, LengthDelimited, LengthDelimited, LengthDelimited]
  const LIST_SCHEMA: Schema := [LengthDelimited]

  // ---------------------------------------------------------------- encoding

  function OptionalBlock(field: nat, p: Option<seq<byte>>): (s: seq<byte>) {
    if p.None? then [] else EncodeItem(Block(field, p.value))
  }

  function EncodeContent(m: LogContent): (s: seq<byte>) {
    OptionalBlock(1, m.key) + OptionalBlock(2, m.value) + m.unrecognized
  }

  function EncodeContents(cs: seq<LogContent>): (s: seq<byte>) {
    if cs == [] then []
    else EncodeContents(cs[..|cs| - 1]) + EncodeItem(Block(2, EncodeContent(cs[|cs| - 1])))
  }

  function EncodeTime(t: Option<nat>): (s: seq<byte>) {
    if t.None? then [] else EncodeItem(Number(1, t.value))
  }

  function EncodeLog(m: Log): (s: seq<byte>) {
    EncodeTime(m.time) + EncodeContents(m.contents) + m.unrecognized
  }

  function EncodeLogs(ls: seq<Log>): (s: seq<byte>) {
    if ls == [] then []
    else EncodeLogs(ls[..|ls| - 1]) + EncodeItem(Block(1, EncodeLog(ls[|ls| - 1])))
  }

  function EncodeGroup(m: LogGroup): (s: seq<byte>) {
    EncodeLogs(m.logs) + OptionalBlock(2, m.reserved) + OptionalBlock(3, m.topic) + OptionalBlock(4, m.source)
    + m.unrecognized
  }

  function EncodeGroups(gs: seq<LogGroup>): (s: seq<byte>) {
    if gs == [] then []
    else EncodeGroups(gs[..|gs| - 1]) + EncodeItem(Block(1, EncodeGroup(gs[|gs| - 1])))
  }

  function EncodeList(m: LogGroupList): (s: seq<byte>) {
    EncodeGroups(m.groups) + m.unrecognized
  }

  /** The first required field, in encoding order, that is not set. */
  function MissingInContent(m: LogContent): (e: Option<Error>) {
    if m.key.None? then Some(RequiredNotSet("Key"))
    else if m.value.None? then Some(RequiredNotSet("Value"))
    else None
  }

  function MissingInContents(cs: seq<LogContent>): (e: Option<Error>) {
    if cs == [] then None
    else
      var before := MissingInContents(cs[..|cs| - 1]);
      if before.Some? then before else MissingInContent(cs[|cs| - 1])
  }

  function MissingInLog(m: Log): (e: Option<Error>) {
    if m.time.None? then Some(RequiredNotSet("Time")) else MissingInContents(m.contents)
  }

  function MissingInLogs(ls: seq<Log>): (e: Option<Error>) {
    if ls == [] then None
    else
      var before := MissingInLogs(ls[..|ls| - 1]);
      if before.Some? then before else MissingInLog(ls[|ls| - 1])
  }

  function MissingInGroups(gs: seq<LogGroup>): (e: Option<Error>) {
    if gs == [] then None
    else
      var before := MissingInGroups(gs[..|gs| - 1]);
      if before.Some? then before else MissingInLogs(gs[|gs| - 1].logs)
  }

  // ---------------------------------------------------------------- which fields must be set

  predicate ContentsSet(cs: seq<LogContent>) {
    forall c :: c in cs ==> c.key.Some? && c.value.Some?
  }

  predicate LogsSet(ls: seq<Log>) {
    forall l :: l in ls ==> l.time.Some? && ContentsSet(l.contents)
  }

  predicate GroupsSet(gs: seq<LogGroup>) {
    forall g :: g in gs ==> LogsSet(g.logs)
  }

  /** Content `k` is the first one incomplete, and lacks the named field. */
  predicate UnsetInContents(cs: seq<LogContent>, k: nat, name: string) {
    && k < |cs| && ContentsSet(cs[..k])
    && if cs[k].key.None? then name == "Key" else cs[k].value.None? && name == "Value"
  }

  /** Log `i` is the first one incomplete: it has no time, or content `k` is its first incomplete one. */
  predicate UnsetInLogs(ls: seq<Log>, i: nat, k: Option<nat>, name: string) {
    && i < |ls| && LogsSet(ls[..i])
    && if ls[i].time.None? then k == None && name == "Time"
       else k.Some? && UnsetInContents(ls[i].contents, k.value, name)
  }

  predicate UnsetInGroups(gs: seq<LogGroup>, n: nat, i: nat, k: Option<nat>, name: string) {
    n < |gs| && GroupsSet(gs[..n]) && UnsetInLogs(gs[n].logs, i, k, name)
  }

  lemma {:induction false} MissingContents(cs: seq<LogContent>)
    ensures MissingInContents(cs).None? <==> ContentsSet(cs)
    ensures MissingInContents(cs).Some? ==>
              exists k, name :: UnsetInContents(cs, k, name) && MissingInContents(cs) == Some(RequiredNotSet(name))
  {
    if cs != [] {
      var n := |cs| - 1;
      MissingContents(cs[..n]);
      assert cs == cs[..n] + [cs[n]];
      if k: nat, name :| UnsetInContents(cs[..n], k, name) && MissingInContents(cs[..n]) == Some(RequiredNotSet(name)) {
        assert cs[..n][..k] == cs[..k];
        assert UnsetInContents(cs, k, name);
      } else if MissingInContent(cs[n]).Some? {
        assert UnsetInContents(cs, n, if cs[n].key.None? then "Key" else "Value");
      }
    }
  }

  /** The last log of a list whose earlier logs are complete. */
  lemma MissingInLast(ls: seq<Log>, n: nat)
    requires |ls| == n + 1 && LogsSet(ls[..n])
    ensures LogsSet(ls) <==> MissingInLog(ls[n]).None?
    ensures MissingInLog(ls[n]).Some? ==>
              exists k, name :: UnsetInLogs(ls, n, k, name) && MissingInLog(ls[n]) == Some(RequiredNotSet(name))
  {
    hide UnsetInContents, ContentsSet, MissingInContents;
    assert ls == ls[..n] + [ls[n]];
    MissingContents(ls[n].contents);
    if ls[n].time.None? {
      assert UnsetInLogs(ls, n, None, "Time");
    } else if k: nat, name :| UnsetInContents(ls[n].contents, k, name)
                              && MissingInContents(ls[n].contents) == Some(RequiredNotSet(name)) {
      assert UnsetInLogs(ls, n, Some(k), name);
    }
  }

  lemma UnsetInMore(ls: seq<Log>, i: nat, k: Option<nat>, name: string)
    requires ls != [] && UnsetInLogs(ls[..|ls| - 1], i, k, name)
    ensures UnsetInLogs(ls, i, k, name)
  {
    hide UnsetInContents, ContentsSet;
    assert ls[..|ls| - 1][..i] == ls[..i];
  }

  lemma {:induction false} MissingLogs(ls: seq<Log>)
    ensures MissingInLogs(ls).None? <==> LogsSet(ls)
    ensures MissingInLogs(ls).Some? ==>
              exists i, k, name :: UnsetInLogs(ls, i, k, name) && MissingInLogs(ls) == Some(RequiredNotSet(name))
  {
    hide UnsetInLogs, MissingInLog, ContentsSet;
    if ls != [] {
      var n := |ls| - 1;
      MissingLogs(ls[..n]);
      assert ls == ls[..n] + [ls[n]];
      if i: nat, k, name :| UnsetInLogs(ls[..n], i, k, name) && MissingInLogs(ls[..n]) == Some(RequiredNotSet(name)) {
        UnsetInMore(ls, i, k, name);
      } else {
        MissingInLast(ls, n);
      }
    }
  }

  /** Nothing is missing exactly if every log has its time and every content its key and its value; otherwise the
    * field named is unset, and every required field before it in encoding order is set.
    */
  lemma {:induction false} MissingGroups(gs: seq<LogGroup>)
    ensures MissingInGroups(gs).None? <==> GroupsSet(gs)
    ensures MissingInGroups(gs).Some? ==>
              exists n, i, k, name :: UnsetInGroups(gs, n, i, k, name) && MissingInGroups(gs) == Some(RequiredNotSet(name))
  {
    hide UnsetInLogs, LogsSet, MissingInLogs;
    if gs != [] {
      var n := |gs| - 1;
      MissingGroups(gs[..n]);
      assert gs == gs[..n] + [gs[n]];
      if m: nat, i: nat, k, name :| UnsetInGroups(gs[..n], m, i, k, name) && MissingInGroups(gs[..n]) == Some(RequiredNotSet(name)) {
        assert gs[..n][..m] == gs[..m];
        assert UnsetInGroups(gs, m, i, k, name);
      } else {
        MissingLogs(gs[n].logs);
        if i: nat, k, name :| UnsetInLogs(gs[n].logs, i, k, name) && MissingInLogs(gs[n].logs) == Some(RequiredNotSet(name)) {
          assert UnsetInGroups(gs, n, i, k, name);
        }
      }
    }
  }

  // ---------------------------------------------------------------- the encoding byte by byte

  lemma OneField(c: LogContent, l: Log, g: LogGroup)
    ensures EncodeContents([c]) == EncodeItem(Block(2, EncodeContent(c)))
    ensures EncodeLogs([l]) == EncodeItem(Block(1, EncodeLog(l)))
    ensures EncodeGroups([g]) == EncodeItem(Block(1, EncodeGroup(g)))
  {
    hide EncodeItem, EncodeContent, EncodeLog, EncodeGroup;
    assert [c][..0] == [] && [l][..0] == [] && [g][..0] == [];
    assert EncodeContents([]) == [] && EncodeLogs([]) == [] && EncodeGroups([]) == [];
  }

  lemma Same<T>(a: seq<T>, b: seq<T>, a': seq<T>, b': seq<T>)
    requires a == a' && b == b'
    ensures a + b == a' + b'
  {
  }

  function Field(key: byte, p: seq<byte>): (s: seq<byte>) {
    [key] + EncodeVarint(|p|) + p
  }

  lemma FieldBytes(f: nat, key: byte, p: seq<byte>)
    requires 8 * f + 2 == key
    ensures EncodeItem(Block(f, p)) == Field(key, p) && OptionalBlock(f, Some(p)) == Field(key, p)
  {
    hide EncodeVarint;
  }

  /** The keys of the log service as numbers: 0x0A and 0x12 in a content, 0x08 and 0x12 in a log. */
  lemma ContentLayout(key: seq<byte>, value: seq<byte>, unrecognized: seq<byte>)
    ensures EncodeContent(LogContent(Some(key), Some(value), unrecognized)) == Field(0x0A, key) + Field(0x12, value) + unrecognized
  {
    hide OptionalBlock, EncodeItem, Field;
    FieldBytes(1, 0x0A, key);
    FieldBytes(2, 0x12, value);
    Same(OptionalBlock(1, Some(key)), OptionalBlock(2, Some(value)), Field(0x0A, key), Field(0x12, value));
  }

  lemma LogLayout(time: nat, c: LogContent, unrecognized: seq<byte>)
    ensures EncodeLog(Log(Some(time), [c], unrecognized)) ==
            [0x08] + EncodeVarint(time) + Field(0x12, EncodeContent(c)) + unrecognized
  {
    hide EncodeVarint, EncodeContent, EncodeContents, EncodeTime, EncodeItem, Field;
    OneField(c, NO_LOG, NO_GROUP);
    FieldBytes(2, 0x12, EncodeContent(c));
    TimeBytes(time);
    Same(EncodeTime(Some(time)), EncodeContents([c]), [0x08] + EncodeVarint(time), Field(0x12, EncodeContent(c)));
  }

  lemma TimeBytes(time: nat)
    ensures EncodeTime(Some(time)) == [0x08] + EncodeVarint(time)
  {
    hide EncodeVarint;
  }

  /** 0x0A for each log, and then 0x12, 0x1A and 0x22 for the three strings. */
  lemma GroupLayout(l: Log, reserved: seq<byte>, topic: seq<byte>, source: seq<byte>, unrecognized: seq<byte>)
    ensures EncodeGroup(LogGroup([l], Some(reserved), Some(topic), Some(source), unrecognized)) ==
            Field(0x0A, EncodeLog(l)) + Field(0x12, reserved) + Field(0x1A, topic) + Field(0x22, source) + unrecognized
  {
    hide EncodeLog, EncodeLogs, OptionalBlock, EncodeItem, Field;
    OneField(NO_CONTENT, l, NO_GROUP);
    FieldBytes(1, 0x0A, EncodeLog(l));
    FieldBytes(2, 0x12, reserved);
    FieldBytes(3, 0x1A, topic);
    FieldBytes(4, 0x22, source);
    Same(EncodeLogs([l]), OptionalBlock(2, Some(reserved)), Field(0x0A, EncodeLog(l)), Field(0x12, reserved));
  }

  lemma ListLayout(g: LogGroup, unrecognized: seq<byte>)
    ensures EncodeList(LogGroupList([g], unrecognized)) == Field(0x0A, EncodeGroup(g)) + unrecognized
  {
    hide EncodeGroup, EncodeGroups, EncodeItem, Field;
    OneField(NO_CONTENT, NO_LOG, g);
    FieldBytes(1, 0x0A, EncodeGroup(g));
  }

  lemma BlockHoldsPayload(f: nat, p: seq<byte>)
    ensures |p| < |EncodeItem(Block(f, p))|
  {
  }

  lemma NoContents() ensures EncodeContents([]) == [] && MissingInContents([]).None? {}
  lemma NoLogs() ensures EncodeLogs([]) == [] && MissingInLogs([]).None? {}
  lemma NoGroups() ensures EncodeGroups([]) == [] && MissingInGroups([]).None? {}

  /** A prefix of a repeated field encodes to a prefix, so no part is longer than the whole. */
  lemma {:induction false} ContentsPrefix(cs: seq<LogContent>, n: nat)
    requires 0 < n <= |cs|
    ensures |EncodeItem(Block(2, EncodeContent(cs[n - 1])))| <= |EncodeContents(cs[..n])| <= |EncodeContents(cs)|
    ensures EncodeContents(cs[..n]) == EncodeContents(cs[..n - 1]) + EncodeItem(Block(2, EncodeContent(cs[n - 1])))
    ensures MissingInContents(cs[..n - 1]).None? && MissingInContent(cs[n - 1]).None? ==> MissingInContents(cs[..n]).None?
    ensures MissingInContents(cs[..n - 1]).None? && MissingInContent(cs[n - 1]).Some? ==>
              MissingInContents(cs) == MissingInContent(cs[n - 1])
    decreases |cs|
  {
    hide EncodeItem, EncodeContent, MissingInContent;
    assert cs[..n][..n - 1] == cs[..n - 1];
    if n < |cs| {
      ContentsPrefix(cs[..|cs| - 1], n);
      assert cs[..|cs| - 1][..n] == cs[..n] && cs[..|cs| - 1][..n - 1] == cs[..n - 1];
    } else {
      assert cs[..n] == cs;
    }
  }

  lemma {:induction false} LogsPrefix(ls: seq<Log>, n: nat)
    requires 0 < n <= |ls|
    ensures |EncodeItem(Block(1, EncodeLog(ls[n - 1])))| <= |EncodeLogs(ls[..n])| <= |EncodeLogs(ls)|
    ensures EncodeLogs(ls[..n]) == EncodeLogs(ls[..n - 1]) + EncodeItem(Block(1, EncodeLog(ls[n - 1])))
    ensures MissingInLogs(ls[..n - 1]).None? && MissingInLog(ls[n - 1]).None? ==> MissingInLogs(ls[..n]).None?
    ensures MissingInLogs(ls[..n - 1]).None? && MissingInLog(ls[n - 1]).Some? ==> MissingInLogs(ls) == MissingInLog(ls[n - 1])
    decreases |ls|
  {
    hide EncodeItem, EncodeLog, MissingInLog;
    assert ls[..n][..n - 1] == ls[..n - 1];
    if n < |ls| {
      LogsPrefix(ls[..|ls| - 1], n);
      assert ls[..|ls| - 1][..n] == ls[..n] && ls[..|ls| - 1][..n - 1] == ls[..n - 1];
    } else {
      assert ls[..n] == ls;
    }
  }

  lemma {:induction false} GroupsPrefix(gs: seq<LogGroup>, n: nat)
    requires 0 < n <= |gs|
    ensures |EncodeItem(Block(1, EncodeGroup(gs[n - 1])))| <= |EncodeGroups(gs[..n])| <= |EncodeGroups(gs)|
    ensures EncodeGroups(gs[..n]) == EncodeGroups(gs[..n - 1]) + EncodeItem(Block(1, EncodeGroup(gs[n - 1])))
    ensures var missing := MissingInLogs(gs[n - 1].logs);
            MissingInGroups(gs[..n - 1]).None? ==>
              if missing.None? then MissingInGroups(gs[..n]).None? else MissingInGroups(gs) == missing
    decreases |gs|
  {
    hide EncodeItem, EncodeGroup, MissingInLogs;
    assert gs[..n][..n - 1] == gs[..n - 1];
    if n < |gs| {
      GroupsPrefix(gs[..|gs| - 1], n);
      assert gs[..|gs| - 1][..n] == gs[..n] && gs[..|gs| - 1][..n - 1] == gs[..n - 1];
    } else {
      assert gs[..n] == gs;
    }
  }

  // ---------------------------------------------------------------- decoding

  /** `seen` holds the fields set by this call; what the receiver held before does not count. */
  function FinishContent(m: LogContent, seen: set<nat>, r: Scanned): (d: Result<LogContent, Error>)
    decreases |r.items|
  {
    if r.items == [] then
      if r.error.Some? then Err(r.error.value)
      else if 1 !in seen then Err(RequiredNotSet("Key"))
      else if 2 !in seen then Err(RequiredNotSet("Value"))
      else Ok(m)
    else
      var rest := Scanned(r.items[1..], r.error);
      match r.items[0]
      case Block(f, p) =>
        FinishContent(if f == 1 then m.(key := Some(p)) else m.(value := Some(p)), seen + {f}, rest)
      case Unknown(raw) => FinishContent(m.(unrecognized := m.unrecognized + raw), seen, rest)
      case Number(_, _) => FinishContent(m, seen, rest)
  }

  function DecodeContent(m: LogContent, s: seq<byte>): (d: Result<LogContent, Error>) {
    FinishContent(m, {}, Scan(CONTENT_SCHEMA, s))
  }

  function FinishLog(m: Log, seen: bool, r: Scanned): (d: Result<Log, Error>)
    decreases |r.items|
  {
    if r.items == [] then
      if r.error.Some? then Err(r.error.value)
      else if !seen then Err(RequiredNotSet("Time"))
      else Ok(m)
    else
      var rest := Scanned(r.items[1..], r.error);
      match r.items[0]
      case Number(f, v) => FinishLog(m.(time := Some(v)), true, rest)
      case Block(f, p) =>
        var c :- DecodeContent(NO_CONTENT, p);
        FinishLog(m.(contents := m.contents + [c]), seen, rest)
      case Unknown(raw) => FinishLog(m.(unrecognized := m.unrecognized + raw), seen, rest)
  }

  function DecodeLog(m: Log, s: seq<byte>): (d: Result<Log, Error>) {
    FinishLog(m, false, Scan(LOG_SCHEMA, s))
  }

  function FinishGroup(m: LogGroup, r: Scanned): (d: Result<LogGroup, Error>)
    decreases |r.items|
  {
    if r.items == [] then
      if r.error.Some? then Err(r.error.value) else Ok(m)
    else
      var rest := Scanned(r.items[1..], r.error);
      match r.items[0]
      case Block(f, p) =>
        if f == 1 then
          var l :- DecodeLog(NO_LOG, p);
          FinishGroup(m.(logs := m.logs + [l]), rest)
        else FinishGroup(SetString(m, f, p), rest)
      case Unknown(raw) => FinishGroup(m.(unrecognized := m.unrecognized + raw), rest)
      case Number(_, _) => FinishGroup(m, rest)
  }

  function SetString(m: LogGroup, field: nat, p: seq<byte>): (m': LogGroup) {
    if field == 2 then m.(reserved := Some(p))
    else if field == 3 then m.(topic := Some(p))
    else m.(source := Some(p))
  }

  function DecodeGroup(m: LogGroup, s: seq<byte>): (d: Result<LogGroup, Error>) {
    FinishGroup(m, Scan(GROUP_SCHEMA, s))
  }

  function FinishList(m: LogGroupList, r: Scanned): (d: Result<LogGroupList, Error>)
    decreases |r.items|
  {
    if r.items == [] then
      if r.error.Some? then Err(r.error.value) else Ok(m)
    else
      var rest := Scanned(r.items[1..], r.error);
      match r.items[0]
      case Block(f, p) =>
        var g :- DecodeGroup(NO_GROUP, p);
        FinishList(m.(groups := m.groups + [g]), rest)
      case Unknown(raw) => FinishList(m.(unrecognized := m.unrecognized + raw), rest)
      case Number(_, _) => FinishList(m, rest)
  }

  function DecodeList(m: LogGroupList, s: seq<byte>): (d: Result<LogGroupList, Error>) {
    FinishList(m, Scan(LIST_SCHEMA, s))
  }
}
