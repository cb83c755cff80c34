/** What a message's bytes mean, independently of the order the decoder works in. */
module Meaning {
  import opened Common
  import opened Wire
  import opened Framing
  import opened Messages

  // ---------------------------------------------------------------- lists of blocks

  ghost function AsBlocks(f: nat, ps: seq<seq<byte>>): (items: seq<Item>) {
    seq(|ps|, i requires 0 <= i < |ps| => Block(f, ps[i]))
  }

  lemma {:induction false} BlocksAppend(a: seq<Item>, b: seq<Item>, f: nat)
    ensures Blocks(a + b, f) == Blocks(a, f) + Blocks(b, f)
  {
    if a == [] {
      assert a + b == b;
    } else {
      var c := a[1..] + b;
      assert a + b == [a[0]] + c && (a + b)[1..] == c;
      BlocksAppend(a[1..], b, f);
      Associate(if a[0].Block? && a[0].field == f then [a[0].payload] else [], Blocks(a[1..], f), Blocks(b, f));
    }
  }

  lemma Associate<T>(x: seq<T>, y: seq<T>, z: seq<T>)
    ensures x + (y + z) == (x + y) + z
  {
  }

  lemma {:induction false} NumbersAppend(a: seq<Item>, b: seq<Item>, f: nat)
    ensures Numbers(a + b, f) == Numbers(a, f) + Numbers(b, f)
  {
    if a == [] {
      assert a + b == b;
    } else {
      var c := a[1..] + b;
      assert a + b == [a[0]] + c && (a + b)[1..] == c;
      NumbersAppend(a[1..], b, f);
      Associate(if a[0].Number? && a[0].field == f then [a[0].value] else [], Numbers(a[1..], f), Numbers(b, f));
    }
  }

  lemma {:induction false} UnknownAppends(a: seq<Item>, b: seq<Item>)
    ensures UnknownBytes(a + b) == UnknownBytes(a) + UnknownBytes(b)
  {
    if a == [] {
      assert a + b == b;
    } else {
      UnknownAppends(a[1..], b);
      assert (a + b)[1..] == a[1..] + b;
      if a[0].Unknown? {
        assert UnknownBytes(a + b) == a[0].raw + (UnknownBytes(a[1..]) + UnknownBytes(b));
      }
    }
  }

  lemma {:induction false} BlocksOfBlocks(f: nat, ps: seq<seq<byte>>, g: nat)
    ensures Blocks(AsBlocks(f, ps), g) == if f == g then ps else []
    ensures Numbers(AsBlocks(f, ps), g) == [] && UnknownBytes(AsBlocks(f, ps)) == []
  {
    if ps != [] {
      BlocksOfBlocks(f, ps[1..], g);
      assert AsBlocks(f, ps)[1..] == AsBlocks(f, ps[1..]);
    }
  }

  lemma {:induction false} NoBlocksInUnknown(items: seq<Item>, f: nat)
    requires OnlyUnknown(items)
    ensures Blocks(items, f) == [] && Numbers(items, f) == []
  {
    if items != [] {
      assert items[0] in items;
      NoBlocksInUnknown(items[1..], f);
    }
  }

  lemma EncodeAllSnoc(items: seq<Item>, it: Item)
    ensures EncodeAll(items + [it]) == EncodeAll(items) + EncodeItem(it)
  {
    EncodeAllAppends(items, [it]);
    assert EncodeAll([it]) == EncodeItem(it);
  }

  // ---------------------------------------------------------------- meaning

  lemma {:induction false} ContentMeaning(m: LogContent, seen: set<nat>, r: Scanned)
    requires AllFit(CONTENT_SCHEMA, r.items)
    ensures var ks, vs := Blocks(r.items, 1), Blocks(r.items, 2);
            FinishContent(m, seen, r) ==
            if r.error.Some? then Err(r.error.value)
            else if 1 !in seen && ks == [] then Err(RequiredNotSet("Key"))
            else if 2 !in seen && vs == [] then Err(RequiredNotSet("Value"))
            else Ok(LogContent(Last(m.key, ks), Last(m.value, vs), m.unrecognized + UnknownBytes(r.items)))
    decreases |r.items|
  {
    hide NextItem;
    if r.items == [] {
      assert m.unrecognized + [] == m.unrecognized;
    } else {
      var it, rest := r.items[0], Scanned(r.items[1..], r.error);
      assert Fits(CONTENT_SCHEMA, it);
      match it
      case Block(f, p) =>
        ContentMeaning(if f == 1 then m.(key := Some(p)) else m.(value := Some(p)), seen + {f}, rest);
      case Unknown(raw) =>
        ContentMeaning(m.(unrecognized := m.unrecognized + raw), seen, rest);
        assert m.unrecognized + raw + UnknownBytes(rest.items) == m.unrecognized + (raw + UnknownBytes(rest.items));
    }
  }

  function ContentOf(p: seq<byte>): (d: Result<LogContent, Error>) { DecodeContent(NO_CONTENT, p) }
  function LogOf(p: seq<byte>): (d: Result<Log, Error>) { DecodeLog(NO_LOG, p) }
  function GroupOf(p: seq<byte>): (d: Result<LogGroup, Error>) { DecodeGroup(NO_GROUP, p) }

  /** Each payload decodes to the message in its place. */
  ghost predicate AllDecode<T>(decode: seq<byte> -> Result<T, Error>, ps: seq<seq<byte>>, ms: seq<T>) {
    |ps| == |ms| && forall i :: 0 <= i < |ps| ==> decode(ps[i]) == Ok(ms[i])
  }

  /** The elements appended to `before`. */
  ghost predicate Extends<T>(decode: seq<byte> -> Result<T, Error>, ps: seq<seq<byte>>, before: seq<T>, after: seq<T>) {
    before <= after && AllDecode(decode, ps, after[|before|..])
  }

  lemma ExtendsNothing<T>(decode: seq<byte> -> Result<T, Error>, before: seq<T>, after: seq<T>)
    ensures Extends(decode, [], before, after) <==> after == before
  {
    if before <= after {
      assert after == before + after[|before|..];
    }
  }

  lemma ExtendsCons<T>(decode: seq<byte> -> Result<T, Error>, p: seq<byte>, ps: seq<seq<byte>>,
                       before: seq<T>, after: seq<T>)
    ensures Extends(decode, [p] + ps, before, after) <==>
            decode(p).Ok? && Extends(decode, ps, before + [decode(p).value], after)
  {
    if before < after {
      var t := after[|before|];
      assert before + [t] == after[..|before| + 1] && after[|before|..] == [t] + after[|before| + 1..];
      DecodeCons(decode, p, ps, t, after[|before| + 1..]);
    } else if before == after {
      assert after[|before|..] == [];
    }
    if decode(p).Ok? && before + [decode(p).value] <= after {
      assert (before + [decode(p).value])[..|before|] == before == after[..|before|];
      assert after[|before|] == (before + [decode(p).value])[|before|];
    }
  }

  lemma DecodeCons<T>(decode: seq<byte> -> Result<T, Error>, p: seq<byte>, ps: seq<seq<byte>>, t: T, ts: seq<T>)
    ensures AllDecode(decode, [p] + ps, [t] + ts) <==> decode(p) == Ok(t) && AllDecode(decode, ps, ts)
  {
    var qs, us := [p] + ps, [t] + ts;
    assert qs[0] == p && us[0] == t && qs[1..] == ps && us[1..] == ts;
    if AllDecode(decode, qs, us) {
      forall i | 0 <= i < |ps| ensures decode(ps[i]) == Ok(ts[i]) {
        assert decode(qs[i + 1]) == Ok(us[i + 1]);
      }
    }
  }

  ghost predicate LogMeans(m: Log, seen: bool, r: Scanned, m': Log) {
    && r.error.None?
    && (seen || Numbers(r.items, 1) != [])
    && m'.time == Last(m.time, Numbers(r.items, 1))
    && m'.unrecognized == m.unrecognized + UnknownBytes(r.items)
    && Extends(ContentOf, Blocks(r.items, 2), m.contents, m'.contents)
  }

  lemma {:induction false} LogMeaning(m: Log, seen: bool, r: Scanned, m': Log)
    requires AllFit(LOG_SCHEMA, r.items)
    ensures FinishLog(m, seen, r) == Ok(m') <==> LogMeans(m, seen, r, m')
    decreases |r.items|
  {
    hide NextItem, DecodeContent, Extends;
    if r.items == [] {
      ExtendsNothing(ContentOf, m.contents, m'.contents);
      assert m.unrecognized + [] == m.unrecognized;
    } else {
      var it, rest := r.items[0], Scanned(r.items[1..], r.error);
      assert Fits(LOG_SCHEMA, it);
      match it
      case Number(f, v) => LogMeaning(m.(time := Some(v)), true, rest, m');
      case Block(f, p) =>
        ExtendsCons(ContentOf, p, Blocks(rest.items, 2), m.contents, m'.contents);
        if ContentOf(p).Ok? {
          LogMeaning(m.(contents := m.contents + [ContentOf(p).value]), seen, rest, m');
        }
      case Unknown(raw) =>
        LogMeaning(m.(unrecognized := m.unrecognized + raw), seen, rest, m');
        assert m.unrecognized + raw + UnknownBytes(rest.items) == m.unrecognized + (raw + UnknownBytes(rest.items));
    }
  }

  ghost predicate GroupMeans(m: LogGroup, r: Scanned, m': LogGroup) {
    && r.error.None?
    && m'.reserved == Last(m.reserved, Blocks(r.items, 2))
    && m'.topic == Last(m.topic, Blocks(r.items, 3))
    && m'.source == Last(m.source, Blocks(r.items, 4))
    && m'.unrecognized == m.unrecognized + UnknownBytes(r.items)
    && Extends(LogOf, Blocks(r.items, 1), m.logs, m'.logs)
  }

  lemma {:induction false} GroupMeaning(m: LogGroup, r: Scanned, m': LogGroup)
    requires AllFit(GROUP_SCHEMA, r.items)
    ensures FinishGroup(m, r) == Ok(m') <==> GroupMeans(m, r, m')
    decreases |r.items|
  {
    hide NextItem, DecodeLog, Extends;
    if r.items == [] {
      ExtendsNothing(LogOf, m.logs, m'.logs);
      assert m.unrecognized + [] == m.unrecognized;
    } else {
      var it, rest := r.items[0], Scanned(r.items[1..], r.error);
      assert Fits(GROUP_SCHEMA, it);
      match it
      case Block(f, p) =>
        if f == 1 {
          ExtendsCons(LogOf, p, Blocks(rest.items, 1), m.logs, m'.logs);
          if LogOf(p).Ok? {
            GroupMeaning(m.(logs := m.logs + [LogOf(p).value]), rest, m');
          }
        } else {
          GroupMeaning(SetString(m, f, p), rest, m');
        }
      case Unknown(raw) =>
        GroupMeaning(m.(unrecognized := m.unrecognized + raw), rest, m');
        assert m.unrecognized + raw + UnknownBytes(rest.items) == m.unrecognized + (raw + UnknownBytes(rest.items));
    }
  }

  ghost predicate ListMeans(m: LogGroupList, r: Scanned, m': LogGroupList) {
    && r.error.None?
    && m'.unrecognized == m.unrecognized + UnknownBytes(r.items)
    && Extends(GroupOf, Blocks(r.items, 1), m.groups, m'.groups)
  }

  lemma {:induction false} ListMeaning(m: LogGroupList, r: Scanned, m': LogGroupList)
    requires AllFit(LIST_SCHEMA, r.items)
    ensures FinishList(m, r) == Ok(m') <==> ListMeans(m, r, m')
    decreases |r.items|
  {
    hide NextItem, DecodeGroup, Extends;
    if r.items == [] {
      ExtendsNothing(GroupOf, m.groups, m'.groups);
      assert m.unrecognized + [] == m.unrecognized;
    } else {
      var it, rest := r.items[0], Scanned(r.items[1..], r.error);
      assert Fits(LIST_SCHEMA, it);
      match it
      case Block(f, p) =>
        ExtendsCons(GroupOf, p, Blocks(rest.items, 1), m.groups, m'.groups);
        if GroupOf(p).Ok? {
          ListMeaning(m.(groups := m.groups + [GroupOf(p).value]), rest, m');
        }
      case Unknown(raw) =>
        ListMeaning(m.(unrecognized := m.unrecognized + raw), rest, m');
        assert m.unrecognized + raw + UnknownBytes(rest.items) == m.unrecognized + (raw + UnknownBytes(rest.items));
    }
  }

  // ---------------------------------------------------------------- which error

  /** The first payload that does not decode fails with `e`. */
  ghost predicate FailsFirst<T>(decode: seq<byte> -> Result<T, Error>, ps: seq<seq<byte>>, e: Error) {
    exists i :: 0 <= i < |ps| && decode(ps[i]) == Err(e) && forall j :: 0 <= j < i ==> decode(ps[j]).Ok?
  }

  ghost predicate NoneFails<T>(decode: seq<byte> -> Result<T, Error>, ps: seq<seq<byte>>) {
    forall i :: 0 <= i < |ps| ==> decode(ps[i]).Ok?
  }

  lemma FailsTail<T>(decode: seq<byte> -> Result<T, Error>, p: seq<byte>, ps: seq<seq<byte>>, e: Error)
    requires FailsFirst(decode, [p] + ps, e) && decode(p).Ok?
    ensures FailsFirst(decode, ps, e)
  {
    var qs := [p] + ps;
    var i :| 0 <= i < |qs| && decode(qs[i]) == Err(e) && forall j :: 0 <= j < i ==> decode(qs[j]).Ok?;
    assert decode(ps[i - 1]) == Err(e);
    forall j | 0 <= j < i - 1 ensures decode(ps[j]).Ok? {
      assert decode(qs[j + 1]).Ok?;
    }
  }

  lemma FailsLater<T>(decode: seq<byte> -> Result<T, Error>, p: seq<byte>, ps: seq<seq<byte>>, e: Error)
    requires decode(p).Ok? && FailsFirst(decode, ps, e)
    ensures FailsFirst(decode, [p] + ps, e)
  {
    var qs := [p] + ps;
    var i :| 0 <= i < |ps| && decode(ps[i]) == Err(e) && forall j :: 0 <= j < i ==> decode(ps[j]).Ok?;
    assert decode(qs[i + 1]) == Err(e);
    forall j | 0 <= j < i + 1 ensures decode(qs[j]).Ok? {
      assert j > 0 ==> decode(ps[j - 1]).Ok?;
    }
  }

  lemma FailsNow<T>(decode: seq<byte> -> Result<T, Error>, p: seq<byte>, ps: seq<seq<byte>>, e: Error)
    requires decode(p).Err?
    ensures FailsFirst(decode, [p] + ps, e) <==> decode(p) == Err(e)
  {
    var qs := [p] + ps;
    assert decode(qs[0]) == decode(p);
  }

  lemma NoneFailsCons<T>(decode: seq<byte> -> Result<T, Error>, p: seq<byte>, ps: seq<seq<byte>>)
    ensures NoneFails(decode, [p] + ps) <==> decode(p).Ok? && NoneFails(decode, ps)
  {
    var qs := [p] + ps;
    if NoneFails(decode, qs) {
      assert decode(qs[0]).Ok?;
      forall i | 0 <= i < |ps| ensures decode(ps[i]).Ok? {
        assert decode(qs[i + 1]).Ok?;
      }
    }
  }

  lemma FailsCons<T>(decode: seq<byte> -> Result<T, Error>, p: seq<byte>, ps: seq<seq<byte>>, e: Error)
    ensures FailsFirst(decode, [p] + ps, e) <==> decode(p) == Err(e) || (decode(p).Ok? && FailsFirst(decode, ps, e))
    ensures NoneFails(decode, [p] + ps) <==> decode(p).Ok? && NoneFails(decode, ps)
  {
    hide FailsFirst, NoneFails;
    NoneFailsCons(decode, p, ps);
    if decode(p).Err? {
      FailsNow(decode, p, ps, e);
    } else if FailsFirst(decode, [p] + ps, e) {
      FailsTail(decode, p, ps, e);
    } else if FailsFirst(decode, ps, e) {
      FailsLater(decode, p, ps, e);
    }
  }

  /** The error of the first payload that does not decode, or else that of the framing. */
  ghost predicate FailsWith<T>(decode: seq<byte> -> Result<T, Error>, ps: seq<seq<byte>>, error: Option<Error>, e: Error) {
    FailsFirst(decode, ps, e) || (NoneFails(decode, ps) && error == Some(e))
  }

  lemma FailsWithCons<T>(decode: seq<byte> -> Result<T, Error>, p: seq<byte>, ps: seq<seq<byte>>, error: Option<Error>,
                         e: Error)
    ensures FailsWith(decode, [p] + ps, error, e) <==>
            decode(p) == Err(e) || (decode(p).Ok? && FailsWith(decode, ps, error, e))
  {
    hide FailsFirst, NoneFails;
    FailsCons(decode, p, ps, e);
    if decode(p) == Err(e) {
      assert FailsFirst(decode, [p] + ps, e);
    }
  }

  /** A log is refused with the first error in the order of its bytes; the missing time is found last. */
  lemma {:induction false} LogErrors(m: Log, seen: bool, r: Scanned, e: Error)
    requires AllFit(LOG_SCHEMA, r.items)
    ensures FinishLog(m, seen, r) == Err(e) <==>
            var ps := Blocks(r.items, 2);
            || FailsWith(ContentOf, ps, r.error, e)
            || (NoneFails(ContentOf, ps) && r.error.None? && !seen && Numbers(r.items, 1) == [] && e == RequiredNotSet("Time"))
    decreases |r.items|
  {
    hide NextItem, DecodeContent, FailsWith, NoneFails;
    if r.items == [] {
      NothingFails(ContentOf, r.error, e);
    } else {
      var it, rest := r.items[0], Scanned(r.items[1..], r.error);
      assert Fits(LOG_SCHEMA, it);
      match it
      case Number(f, v) => LogErrors(m.(time := Some(v)), true, rest, e);
      case Block(f, p) =>
        FailsWithCons(ContentOf, p, Blocks(rest.items, 2), r.error, e);
        FailsCons(ContentOf, p, Blocks(rest.items, 2), e);
        if ContentOf(p).Ok? {
          LogErrors(m.(contents := m.contents + [ContentOf(p).value]), seen, rest, e);
        }
      case Unknown(raw) => LogErrors(m.(unrecognized := m.unrecognized + raw), seen, rest, e);
    }
  }

  lemma NothingFails<T>(decode: seq<byte> -> Result<T, Error>, error: Option<Error>, e: Error)
    ensures NoneFails(decode, []) && (FailsWith(decode, [], error, e) <==> error == Some(e))
  {
  }

  /** A group is refused with the first error in the order of its bytes. */
  lemma {:induction false} GroupErrors(m: LogGroup, r: Scanned, e: Error)
    requires AllFit(GROUP_SCHEMA, r.items)
    ensures FinishGroup(m, r) == Err(e) <==> FailsWith(LogOf, Blocks(r.items, 1), r.error, e)
    decreases |r.items|
  {
    hide NextItem, DecodeLog, FailsWith;
    if r.items == [] {
      NothingFails(LogOf, r.error, e);
    } else {
      var it, rest := r.items[0], Scanned(r.items[1..], r.error);
      assert Fits(GROUP_SCHEMA, it);
      match it
      case Block(f, p) =>
        if f == 1 {
          FailsWithCons(LogOf, p, Blocks(rest.items, 1), r.error, e);
          if LogOf(p).Ok? {
            GroupErrors(m.(logs := m.logs + [LogOf(p).value]), rest, e);
          }
        } else {
          GroupErrors(SetString(m, f, p), rest, e);
        }
      case Unknown(raw) => GroupErrors(m.(unrecognized := m.unrecognized + raw), rest, e);
    }
  }

  lemma {:induction false} ListErrors(m: LogGroupList, r: Scanned, e: Error)
    requires AllFit(LIST_SCHEMA, r.items)
    ensures FinishList(m, r) == Err(e) <==> FailsWith(GroupOf, Blocks(r.items, 1), r.error, e)
    decreases |r.items|
  {
    hide NextItem, DecodeGroup, FailsWith;
    if r.items == [] {
      NothingFails(GroupOf, r.error, e);
    } else {
      var it, rest := r.items[0], Scanned(r.items[1..], r.error);
      assert Fits(LIST_SCHEMA, it);
      match it
      case Block(f, p) =>
        FailsWithCons(GroupOf, p, Blocks(rest.items, 1), r.error, e);
        if GroupOf(p).Ok? {
          ListErrors(m.(groups := m.groups + [GroupOf(p).value]), rest, e);
        }
      case Unknown(raw) => ListErrors(m.(unrecognized := m.unrecognized + raw), rest, e);
    }
  }
}
