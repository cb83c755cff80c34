/** The byte strings a message type accepts, as a grammar over fields; keys and lengths need not be minimal. */
module Grammar {
  import opened Common
  import opened Wire
  import opened Framing
  import Skip

  /** One field, down to the bytes of its key: a number or a block of the message type, or an unknown field. */
  datatype Form =
    | NumberForm(key: seq<byte>, value: seq<byte>)
    | BlockForm(key: seq<byte>, length: seq<byte>, payload: seq<byte>)
    | UnknownForm(field: Skip.Field)

  ghost function Value(s: seq<byte>): (v: nat) {
    if DecodeVarint(s).Ok? then DecodeVarint(s).value.value else 0
  }

  ghost function NumberOf(key: seq<byte>): (n: int) {
    FieldNumber(Value(key))
  }

  /** The key of a field of the message type, of that kind. */
  ghost predicate IsKnown(schema: Schema, key: seq<byte>, kind: Kind) {
    0 < NumberOf(key) <= |schema| && schema[NumberOf(key) - 1] == kind
  }

  /** Numbers have wire type 0 and blocks wire type 2; unknown fields may have any that can be skipped. */
  ghost predicate Legal(schema: Schema, f: Form) {
    match f
    case NumberForm(key, value) => Skip.IsKey(key, 0) && Skip.IsVarint(value) && IsKnown(schema, key, Scalar32)
    case BlockForm(key, length, payload) =>
      && Skip.IsKey(key, 2) && IsKnown(schema, key, LengthDelimited)
      && Skip.IsVarint(length) && Value(length) == |payload| < TWO_63
    case UnknownForm(field) => Skip.WellFormed(field) && NumberOf(field.key) > |schema|
  }

  ghost function BytesOf(f: Form): (s: seq<byte>) {
    match f
    case NumberForm(key, value) => key + value
    case BlockForm(key, length, payload) => key + length + payload
    case UnknownForm(field) => Skip.Bytes(field)
  }

  /** Numbers are cut to 32 bits. */
  ghost function ItemOf(f: Form): (it: Item) {
    match f
    case NumberForm(key, value) => Number(Positive(NumberOf(key)), Value(value) % TWO_32)
    case BlockForm(key, _, payload) => Block(Positive(NumberOf(key)), payload)
    case UnknownForm(field) => Unknown(Skip.Bytes(field))
  }

  function Positive(n: int): (p: nat) {
    if n > 0 then n else 0
  }

  lemma KeyAtFront(key: seq<byte>, tail: seq<byte>)
    requires Skip.IsVarint(key)
    ensures key != [] && DecodeVarint(key + tail) == DecodeVarint(key) && (key + tail)[|key|..] == tail
    ensures DecodeVarint(key + tail).value.len == |key|
  {
    Skip.VarintAtFront(key, tail);
  }

  lemma NumberIsFramed(schema: Schema, key: seq<byte>, value: seq<byte>, rest: seq<byte>)
    requires Legal(schema, NumberForm(key, value))
    ensures NextItem(schema, key + (value + rest)) == Ok(Framed(ItemOf(NumberForm(key, value)), |key| + |value|))
  {
    hide DecodeVarint, FieldNumber, Skip.WireType, Skip.FieldLength;
    KeyAtFront(key, value + rest);
    KeyAtFront(value, rest);
  }

  lemma BlockIsFramed(schema: Schema, key: seq<byte>, length: seq<byte>, payload: seq<byte>, rest: seq<byte>)
    requires Legal(schema, BlockForm(key, length, payload))
    ensures NextItem(schema, key + (length + (payload + rest)))
            == Ok(Framed(ItemOf(BlockForm(key, length, payload)), |key| + |length| + |payload|))
  {
    hide DecodeVarint, FieldNumber, Skip.WireType, Skip.FieldLength, NextItem;
    KeyAtFront(key, length + (payload + rest));
    KeyAtFront(length, payload + rest);
    var s, i := key + (length + (payload + rest)), |key| + |length|;
    assert s[i..i + |payload|] == payload;
    NextIsBlock(schema, NumberOf(key), s, DecodeVarint(key).value, DecodeVarint(length).value);
  }

  /** Every legal field is framed as what it stands for, whatever follows. */
  lemma LegalIsFramed(schema: Schema, f: Form, rest: seq<byte>)
    requires Legal(schema, f)
    ensures BytesOf(f) != [] && NextItem(schema, BytesOf(f) + rest) == Ok(Framed(ItemOf(f), |BytesOf(f)|))
  {
    hide NextItem, ItemOf, Skip.Bytes, IsKnown, Skip.IsVarint, Skip.IsKey, Skip.WellFormed, NumberOf, Value;
    match f
    case NumberForm(key, value) =>
      KeyIsThere(schema, f);
      NumberIsFramed(schema, key, value, rest);
      Joined(key, value, rest);
    case BlockForm(key, length, payload) =>
      KeyIsThere(schema, f);
      BlockIsFramed(schema, key, length, payload, rest);
      Joined(key + length, payload, rest);
      Joined(key, length, payload + rest);
    case UnknownForm(field) =>
      UnknownIsFramed(schema, field, rest);
      UnknownItem(field);
  }

  lemma KeyIsThere(schema: Schema, f: Form)
    requires Legal(schema, f) && !f.UnknownForm?
    ensures f.key != [] && BytesOf(f) != []
  {
    KeyAtFront(f.key, []);
  }

  lemma Joined<T>(a: seq<T>, b: seq<T>, c: seq<T>)
    ensures a + b + c == a + (b + c)
  {
  }

  lemma UnknownItem(field: Skip.Field)
    ensures ItemOf(UnknownForm(field)) == Unknown(Skip.Bytes(field))
  {
  }

  lemma UnknownIsFramed(schema: Schema, field: Skip.Field, rest: seq<byte>)
    requires Legal(schema, UnknownForm(field))
    ensures var s := Skip.Bytes(field); s != [] && NextItem(schema, s + rest) == Ok(Framed(Unknown(s), |s|))
  {
    hide DecodeVarint, FieldNumber, Skip.WireType, Skip.FieldLength;
    Skip.SkipsOneField(field, rest);
    Skip.KeyOfField(field, rest);
    var tail := Skip.Bytes(field)[|field.key|..] + rest;
    assert Skip.Bytes(field) + rest == field.key + tail;
    KeyAtFront(field.key, tail);
    assert (Skip.Bytes(field) + rest)[..|Skip.Bytes(field)|] == Skip.Bytes(field);
  }

  /** Conversely, whatever is framed is a legal field. */
  lemma FramedIsLegal(schema: Schema, s: seq<byte>) returns (f: Form)
    requires s != [] && NextItem(schema, s).Ok?
    ensures Legal(schema, f) && BytesOf(f) == s[..NextItem(schema, s).value.len] && ItemOf(f) == NextItem(schema, s).value.item
  {
    hide DecodeVarint, FieldNumber, Skip.WireType, Skip.FieldLength;
    var framed, k := NextItem(schema, s).value, DecodeVarint(s).value.len;
    var key, rest := s[..k], s[k..];
    DecodeIsLocal(s, key);
    match framed.item
    case Number(n, v) =>
      var l := DecodeVarint(rest).value.len;
      DecodeIsLocal(rest, rest[..l]);
      f := NumberForm(key, rest[..l]);
      assert s[..k + l] == key + rest[..l];
    case Block(n, p) =>
      var l := DecodeVarint(rest).value.len;
      DecodeIsLocal(rest, rest[..l]);
      f := BlockForm(key, rest[..l], p);
      assert s[..k + l + |p|] == key + rest[..l] + p;
    case Unknown(raw) =>
      var field := SkippedUnknown(schema, s);
      f := UnknownForm(field);
  }

  lemma SkippedUnknown(schema: Schema, s: seq<byte>) returns (field: Skip.Field)
    requires s != [] && NextItem(schema, s).Ok? && NextItem(schema, s).value.item.Unknown?
    ensures Legal(schema, UnknownForm(field)) && Skip.Bytes(field) == s[..NextItem(schema, s).value.len]
  {
    hide DecodeVarint, FieldNumber, Skip.WireType, Skip.FieldLength;
    field := Skip.SkippedIsField(s);
    var n := NextItem(schema, s).value.len;
    var tail := Skip.Bytes(field)[|field.key|..] + s[n..];
    assert Skip.Bytes(field) + s[n..] == s;
    assert field.key + tail == s;
    Skip.KeyOfField(field, s[n..]);
    KeyAtFront(field.key, tail);
  }

  // ---------------------------------------------------------------- whole messages

  ghost predicate AllLegal(schema: Schema, fs: seq<Form>) {
    forall f :: f in fs ==> Legal(schema, f)
  }

  ghost function BytesOfAll(fs: seq<Form>): (s: seq<byte>) {
    if fs == [] then [] else BytesOf(fs[0]) + BytesOfAll(fs[1..])
  }

  ghost function ItemsOf(fs: seq<Form>): (items: seq<Item>) {
    seq(|fs|, i requires 0 <= i < |fs| => ItemOf(fs[i]))
  }

  lemma {:induction false} LegalIsScanned(schema: Schema, fs: seq<Form>)
    requires AllLegal(schema, fs)
    ensures Scan(schema, BytesOfAll(fs)) == Scanned(ItemsOf(fs), None)
  {
    hide NextItem, Legal, BytesOf, ItemOf;
    if fs != [] {
      var rest := BytesOfAll(fs[1..]);
      LegalIsScanned(schema, fs[1..]);
      LegalIsFramed(schema, fs[0], rest);
      assert (BytesOf(fs[0]) + rest)[|BytesOf(fs[0])|..] == rest;
      assert ItemsOf(fs) == [ItemOf(fs[0])] + ItemsOf(fs[1..]);
    }
  }

  lemma {:induction false} ScannedIsLegal(schema: Schema, s: seq<byte>) returns (fs: seq<Form>)
    requires Scan(schema, s).error.None?
    ensures AllLegal(schema, fs) && BytesOfAll(fs) == s
    decreases |s|
  {
    hide NextItem, Legal, BytesOf, ItemOf;
    if s == [] {
      return [];
    }
    ScanCons(schema, s);
    var n := NextItem(schema, s).value.len;
    var first := FramedIsLegal(schema, s);
    var more := ScannedIsLegal(schema, s[n..]);
    fs := [first] + more;
    assert fs[1..] == more && s[..n] + s[n..] == s;
  }

  /** A byte string has the framing of a message type exactly if it is a sequence of legal fields. */
  lemma FramingIsExactly(schema: Schema, s: seq<byte>)
    ensures Scan(schema, s).error.None? <==> exists fs :: AllLegal(schema, fs) && BytesOfAll(fs) == s
  {
    hide AllLegal, BytesOfAll, Scan;
    if Scan(schema, s).error.None? {
      var fs := ScannedIsLegal(schema, s);
    }
    if fs :| AllLegal(schema, fs) && BytesOfAll(fs) == s {
      LegalIsScanned(schema, fs);
    }
  }

  // ---------------------------------------------------------------- what is refused, and how

  /** What is refused by the key alone. */
  lemma RefusedKeys(schema: Schema, key: seq<byte>, rest: seq<byte>)
    requires Skip.IsVarint(key)
    ensures var n, w, r := NumberOf(key), Skip.WireType(DecodeVarint(key).value.value), NextItem(schema, key + rest);
            && (w == 4 ==> r == Err(EndGroup))
            && (w != 4 && n <= 0 ==> r == Err(IllegalTag))
            && (w != 4 && 0 < n <= |schema| && w != (if schema[n - 1] == Scalar32 then 0 else 2) ==> r == Err(WrongWireType(n)))
  {
    hide DecodeVarint, FieldNumber, Skip.WireType, Skip.FieldLength;
    KeyAtFront(key, rest);
  }

  /** A block cut short, and a length beyond the signed numbers. */
  lemma RefusedBlocks(schema: Schema, key: seq<byte>, length: seq<byte>, rest: seq<byte>)
    requires Skip.IsKey(key, 2) && IsKnown(schema, key, LengthDelimited) && Skip.IsVarint(length)
    ensures var n, r := DecodeVarint(length).value.value, NextItem(schema, key + (length + rest));
            && (|rest| < n < TWO_63 ==> r == Err(UnexpectedEOF))
            && (n >= TWO_63 ==> r == Err(InvalidLength))
  {
    hide DecodeVarint, FieldNumber, Skip.WireType, Skip.FieldLength;
    KeyAtFront(key, length + rest);
    KeyAtFront(length, rest);
  }

  /** An unknown field fails as the skipper does, and if it is cut short. */
  lemma RefusedUnknown(schema: Schema, key: seq<byte>, rest: seq<byte>)
    requires Skip.IsVarint(key) && NumberOf(key) > |schema| && !Skip.IsKey(key, 4) && key != []
    ensures var n, r := Skip.FieldLength(key + rest), NextItem(schema, key + rest);
            && (n.Err? ==> r == Err(n.error))
            && (n.Ok? && n.value > |key + rest| ==> r == Err(UnexpectedEOF))
  {
    hide DecodeVarint, FieldNumber, Skip.WireType, Skip.FieldLength;
    KeyAtFront(key, rest);
  }
}
