/** How a message's bytes divide into items: known fields and runs of unknown bytes. */
module Framing {
  import opened Common
  import opened Wire
  import Skip

  /** What a known field holds: a 32-bit number, or bytes (a string or a nested message). */
  datatype Kind = Scalar32 | LengthDelimited

  /** Field `n` of a message has kind `schema[n - 1]`. */
  type Schema = s: seq<Kind> | |s| < 16 witness []

  datatype Item =
    | Number(field: nat, value: nat)
    | Block(field: nat, payload: seq<byte>)
    | Unknown(raw: seq<byte>)

  datatype Framed = Framed(item: Item, len: nat)

  /** The item at the front of `s`: one round of the loop in every `Unmarshal`. */
  function NextItem(schema: Schema, s: seq<byte>): (r: Result<Framed, Error>)
    requires s != []
    ensures r.Ok? ==> 1 <= r.value.len <= |s|
  {
    var key :- DecodeVarint(s);
    var num, wireType := FieldNumber(key.value), Skip.WireType(key.value);
    if wireType == 4 then Err(EndGroup)
    else if num <= 0 then Err(IllegalTag)
    else if num > |schema| then
      var n :- Skip.FieldLength(s);
      if n > |s| then Err(UnexpectedEOF) else Ok(Framed(Unknown(s[..n]), n))
    else if schema[num - 1].Scalar32? then
      if wireType != 0 then Err(WrongWireType(num))
      else
        var v :- DecodeVarint(s[key.len..]);
        Ok(Framed(Number(num, v.value % TWO_32), key.len + v.len))
    else if wireType != 2 then Err(WrongWireType(num))
    else
      var v :- DecodeVarint(s[key.len..]);
      var i, n := key.len + v.len, Int64(v.value);
      if n < 0 then Err(InvalidLength)
      else if i + n > |s| then Err(UnexpectedEOF)
      else Ok(Framed(Block(num, s[i..i + n]), i + n))
  }

  /** All items of `s`, up to the first framing error. */
  datatype Scanned = Scanned(items: seq<Item>, error: Option<Error>)

  function Scan(schema: Schema, s: seq<byte>): (r: Scanned)
    decreases |s|
  {
    if s == [] then Scanned([], None)
    else
      match NextItem(schema, s)
      case Err(e) => Scanned([], Some(e))
      case Ok(f) =>
        var more := Scan(schema, s[f.len..]);
        Scanned([f.item] + more.items, more.error)
  }

  /** The bytes the encoder writes for one item. */
  function EncodeItem(it: Item): (s: seq<byte>) {
    match it
    case Number(f, v) => [KeyByte(f, 0)] + EncodeVarint(v)
    case Block(f, p) => [KeyByte(f, 2)] + EncodeVarint(|p|) + p
    case Unknown(raw) => raw
  }

  /** The key of a field below 16, which fits in one byte. */
  function KeyByte(field: nat, wireType: nat): (b: byte) {
    (8 * field + wireType) % 256
  }

  /** An item the decoder can produce under `schema`. */
  predicate Fits(schema: Schema, it: Item) {
    match it
    case Number(f, v) => 0 < f <= |schema| && schema[f - 1].Scalar32? && v < TWO_32
    case Block(f, p) => 0 < f <= |schema| && schema[f - 1].LengthDelimited? && |p| < TWO_63
    case Unknown(raw) => raw != [] && NextItem(schema, raw) == Ok(Framed(it, |raw|))
  }

  predicate AllFit(schema: Schema, items: seq<Item>) {
    forall it :: it in items ==> Fits(schema, it)
  }

  function EncodeAll(items: seq<Item>): (s: seq<byte>) {
    if items == [] then [] else EncodeItem(items[0]) + EncodeAll(items[1..])
  }

  lemma {:induction false} EncodeAllAppends(a: seq<Item>, b: seq<Item>)
    ensures EncodeAll(a + b) == EncodeAll(a) + EncodeAll(b)
  {
    hide EncodeItem;
    if a == [] {
      assert a + b == b;
    } else {
      EncodeAllAppends(a[1..], b);
      assert (a + b)[1..] == a[1..] + b;
      assert EncodeAll(a + b) == EncodeItem(a[0]) + (EncodeAll(a[1..]) + EncodeAll(b));
    }
  }

  lemma OneByteKey(k: byte, rest: seq<byte>)
    requires k < 128
    ensures DecodeVarint([k] + rest) == Ok(Varint(k, 1))
    ensures FieldNumber(k) == k / 8 && Skip.WireType(k) == k % 8
    ensures ([k] + rest)[1..] == rest
  {
    var s := [k] + rest;
    assert s[0] == k;
  }

  /** What the encoder writes for an item, the decoder reads back, whatever follows. */
  lemma ItemRoundTrip(schema: Schema, it: Item, rest: seq<byte>)
    requires Fits(schema, it)
    ensures |EncodeItem(it)| > 0 && NextItem(schema, EncodeItem(it) + rest) == Ok(Framed(it, |EncodeItem(it)|))
  {
    match it
    case Number(f, v) => NumberRoundTrip(schema, f, v, rest);
    case Block(f, p) => BlockRoundTrip(schema, f, p, rest);
    case Unknown(raw) =>
      hide DecodeVarint, Skip.FieldLength;
      assert raw[..|raw|] == raw;
      Skip.SkipIsLocal(raw, rest);
      assert (raw + rest)[..|raw|] == raw;
  }

  lemma NumberRoundTrip(schema: Schema, f: nat, v: nat, rest: seq<byte>)
    requires Fits(schema, Number(f, v))
    ensures var s := EncodeItem(Number(f, v)); NextItem(schema, s + rest) == Ok(Framed(Number(f, v), |s|))
  {
    hide DecodeVarint, Skip.FieldLength;
    var tail := EncodeVarint(v) + rest;
    OneByteKey(8 * f, tail);
    DecodeOfEncoding(v, rest);
    assert EncodeItem(Number(f, v)) + rest == [KeyByte(f, 0)] + tail;
  }

  lemma BlockRoundTrip(schema: Schema, f: nat, p: seq<byte>, rest: seq<byte>)
    requires Fits(schema, Block(f, p))
    ensures var s := EncodeItem(Block(f, p)); NextItem(schema, s + rest) == Ok(Framed(Block(f, p), |s|))
  {
    hide DecodeVarint, EncodeVarint, Skip.FieldLength, NextItem;
    var tail := EncodeVarint(|p|) + (p + rest);
    OneByteKey(8 * f + 2, tail);
    DecodeOfEncoding(|p|, p + rest);
    var s := EncodeItem(Block(f, p)) + rest;
    var i := 1 + |EncodeVarint(|p|)|;
    assert s == [KeyByte(f, 2)] + tail;
    assert s[i..i + |p|] == p;
    NextIsBlock(schema, f, s, Varint(8 * f + 2, 1), Varint(|p|, |EncodeVarint(|p|)|));
  }

  lemma NextIsBlock(schema: Schema, f: nat, s: seq<byte>, key: Varint, v: Varint)
    requires 0 < f <= |schema| && schema[f - 1].LengthDelimited? && s != []
    requires DecodeVarint(s) == Ok(key) && FieldNumber(key.value) == f && Skip.WireType(key.value) == 2
    requires DecodeVarint(s[key.len..]) == Ok(v) && v.value < TWO_63 && key.len + v.len + v.value <= |s|
    ensures var i := key.len + v.len; NextItem(schema, s) == Ok(Framed(Block(f, s[i..i + v.value]), i + v.value))
  {
    hide DecodeVarint, Skip.FieldLength, FieldNumber, Skip.WireType;
  }

  /** A framed item fits the schema and encodes to no more bytes than it was read from. */
  lemma FramedItemFits(schema: Schema, s: seq<byte>)
    requires s != [] && |s| < TWO_63 && NextItem(schema, s).Ok?
    ensures var f := NextItem(schema, s).value;
            && Fits(schema, f.item) && |EncodeItem(f.item)| <= f.len
            && (f.item.Unknown? ==> f.item.raw == s[..f.len])
  {
    hide DecodeVarint, Skip.FieldLength;
    var f := NextItem(schema, s).value;
    var key := DecodeVarint(s).value;
    match f.item
    case Unknown(raw) =>
      Skip.SkipIsLocal(s, []);
      assert raw + [] == raw && raw[..|raw|] == raw;
    case Number(n, v) =>
      ShortestNumber(s[key.len..]);
    case Block(n, p) =>
      ShortestNumber(s[key.len..]);
  }

  lemma ShortestNumber(s: seq<byte>)
    requires DecodeVarint(s).Ok?
    ensures var v := DecodeVarint(s).value;
            |EncodeVarint(v.value)| <= v.len && |EncodeVarint(v.value % TWO_32)| <= v.len
  {
    var raw := RawVarint(s, 10).value.value;
    EncodingIsShortest(s, 10);
    EncodingIsMonotone(raw % TWO_64, raw);
    EncodingIsMonotone(raw % TWO_64 % TWO_32, raw % TWO_64);
  }

  /** Scanning what the encoder wrote for a list of items gives the list back. */
  lemma {:induction false} ScanRoundTrip(schema: Schema, items: seq<Item>)
    requires AllFit(schema, items)
    ensures Scan(schema, EncodeAll(items)) == Scanned(items, None)
  {
    if items != [] {
      var rest := EncodeAll(items[1..]);
      ItemRoundTrip(schema, items[0], rest);
      ScanRoundTrip(schema, items[1..]);
      assert (EncodeItem(items[0]) + rest)[|EncodeItem(items[0])|..] == rest;
    }
  }

  /** Every scan yields items that fit, and encoding them takes no more bytes than were scanned. */
  lemma {:induction false} ScanFits(schema: Schema, s: seq<byte>)
    requires |s| < TWO_63
    ensures AllFit(schema, Scan(schema, s).items)
    ensures |EncodeAll(Scan(schema, s).items)| <= |s|
    decreases |s|
  {
    if s != [] && NextItem(schema, s).Ok? {
      var f := NextItem(schema, s).value;
      FramedItemFits(schema, s);
      ScanFits(schema, s[f.len..]);
      var more := Scan(schema, s[f.len..]).items;
      assert ([f.item] + more)[1..] == more;
    }
  }

  // ---------------------------------------------------------------- what a list of items means

  predicate OnlyUnknown(items: seq<Item>) {
    forall it :: it in items ==> it.Unknown?
  }

  /** `s` is a sequence of complete fields of numbers outside the schema. */
  predicate UnknownFields(schema: Schema, s: seq<byte>) {
    var r := Scan(schema, s);
    r.error.None? && OnlyUnknown(r.items)
  }

  /** The unknown fields of a message, verbatim and in order. */
  function UnknownBytes(items: seq<Item>): (s: seq<byte>) {
    if items == [] then []
    else if items[0].Unknown? then items[0].raw + UnknownBytes(items[1..])
    else UnknownBytes(items[1..])
  }

  /** The payloads of the length-delimited field `f`, in order. */
  function Blocks(items: seq<Item>, f: nat): (ps: seq<seq<byte>>) {
    if items == [] then []
    else if items[0].Block? && items[0].field == f then [items[0].payload] + Blocks(items[1..], f)
    else Blocks(items[1..], f)
  }

  function Numbers(items: seq<Item>, f: nat): (vs: seq<nat>) {
    if items == [] then []
    else if items[0].Number? && items[0].field == f then [items[0].value] + Numbers(items[1..], f)
    else Numbers(items[1..], f)
  }

  /** A repeated singular field keeps its last value; an absent one keeps what the receiver held. */
  function Last<T>(before: Option<T>, vs: seq<T>): (r: Option<T>) {
    if vs == [] then before else Some(vs[|vs| - 1])
  }

  lemma RawItem(it: Item)
    requires it.Unknown?
    ensures EncodeItem(it) == it.raw
  {
  }

  lemma ScanCons(schema: Schema, s: seq<byte>)
    requires s != [] && NextItem(schema, s).Ok?
    ensures var f := NextItem(schema, s).value; var more := Scan(schema, s[f.len..]);
            Scan(schema, s) == Scanned([f.item] + more.items, more.error)
  {
    hide NextItem;
  }

  lemma UnknownCons(it: Item, more: seq<Item>)
    requires it.Unknown?
    ensures EncodeAll([it] + more) == it.raw + EncodeAll(more) && UnknownBytes([it] + more) == it.raw + UnknownBytes(more)
  {
    assert ([it] + more)[1..] == more;
    RawItem(it);
  }

  /** The first field of a run of unknown fields, and the run after it. */
  lemma UnknownHead(schema: Schema, s: seq<byte>) returns (f: Framed, more: seq<Item>)
    requires s != [] && |s| < TWO_63 && UnknownFields(schema, s)
    ensures f.item.Unknown? && 1 <= f.len <= |s| && f.item.raw == s[..f.len]
    ensures Scan(schema, s).items == [f.item] + more && more == Scan(schema, s[f.len..]).items
    ensures UnknownFields(schema, s[f.len..])
  {
    hide NextItem, Fits;
    f := NextItem(schema, s).value;
    more := Scan(schema, s[f.len..]).items;
    ScanCons(schema, s);
    FramedItemFits(schema, s);
    assert f.item in Scan(schema, s).items;
    assert forall it :: it in more ==> it in Scan(schema, s).items;
  }

  lemma NothingToScan(schema: Schema)
    ensures Scan(schema, []).items == [] && EncodeAll([]) == [] && UnknownBytes([]) == []
  {
  }

  /** A run of unknown fields is its own encoding. */
  lemma {:induction false} UnknownIsVerbatim(schema: Schema, s: seq<byte>)
    requires |s| < TWO_63 && UnknownFields(schema, s)
    ensures AllFit(schema, Scan(schema, s).items)
    ensures EncodeAll(Scan(schema, s).items) == s
    ensures UnknownBytes(Scan(schema, s).items) == s
    decreases |s|
  {
    hide Scan, EncodeAll, UnknownBytes, UnknownFields, AllFit;
    NothingToScan(schema);
    ScanFits(schema, s);
    if s != [] {
      var f, more := UnknownHead(schema, s);
      UnknownIsVerbatim(schema, s[f.len..]);
      UnknownCons(f.item, more);
      assert s[..f.len] + s[f.len..] == s;
    }
  }

  /** The unknown items of any scan are, put together, unknown fields again. */
  lemma {:induction false} UnknownBytesAreFields(schema: Schema, items: seq<Item>)
    requires AllFit(schema, items)
    ensures UnknownFields(schema, UnknownBytes(items))
    ensures |UnknownBytes(items)| <= |EncodeAll(items)|
  {
    hide NextItem;
    if items != [] {
      var rest := UnknownBytes(items[1..]);
      UnknownBytesAreFields(schema, items[1..]);
      if items[0].Unknown? {
        var raw := items[0].raw;
        ItemRoundTrip(schema, items[0], rest);
        assert (raw + rest)[|raw|..] == rest;
        assert Scan(schema, raw + rest).items == [items[0]] + Scan(schema, rest).items;
      }
    }
  }
}
