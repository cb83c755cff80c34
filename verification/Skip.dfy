/** Skipping one field of unknown number (`skipLog`), and the grammar of what it skips. */
module Skip {
  import opened Common
  import opened Wire

  function WireType(key: nat): (t: nat)
    ensures t < 8
  {
    key % 8
  }

  /** How many bytes the field at the front of `s` takes. The answer may exceed `|s|`: the caller checks. */
  function FieldLength(s: seq<byte>): (r: Result<nat, Error>)
    requires s != []
    ensures r.Ok? ==> r.value >= 1
    decreases |s|, 0
  {
    var key :- DecodeVarint(s);
    var rest := s[key.len..];
    match WireType(key.value)
    case 0 => var v :- DecodeVarint(rest); Ok(key.len + v.len)
    case 1 => Ok(key.len + 8)
    case 2 =>
      var v :- DecodeVarint(rest);
      if Int64(v.value) < 0 then Err(InvalidLength) else Ok(key.len + v.len + v.value)
    case 3 => var n :- GroupLength(rest); Ok(key.len + n)
    case 4 => Ok(key.len)
    case 5 => Ok(key.len + 4)
    case _ => Err(IllegalWireType)
  }

  /** How many bytes a group takes from just after its start key, end key included. */
  function GroupLength(s: seq<byte>): (r: Result<nat, Error>)
    ensures r.Ok? ==> 1 <= r.value <= |s|
    decreases |s|, 1
  {
    var key :- DecodeVarint(s);
    if WireType(key.value) == 4 then Ok(key.len)
    else
      var n :- FieldLength(s);
      if n > |s| then Err(UnexpectedEOF)
      else
        var m :- GroupLength(s[n..]);
        Ok(n + m)
  }

  /** Terminates on every non-empty input without reading outside it. The program's loop over the
    * input returns in its first round, so its `panic("unreachable")` is reached on empty input only.
    */
  method SkipLog(data: seq<byte>) returns (r: Result<nat, Error>)
    requires data != []
    ensures r == FieldLength(data)
    decreases |data|, 1
  {
    hide DecodeVarint, WireType, GroupLength;
    var i := 0;
    var key := ReadVarint(data, i);
    assert data[0..] == data;
    if key.Err? {
      return Err(key.error);
    }
    i := i + key.value.len;
    match WireType(key.value.value)
    case 0 =>
      var v := ReadVarint(data, i);
      return if v.Err? then Err(v.error) else Ok(i + v.value.len);
    case 1 =>
      return Ok(i + 8);
    case 2 =>
      var v := ReadVarint(data, i);
      if v.Err? {
        return Err(v.error);
      }
      var length := Int64(v.value.value);
      if length < 0 {
        return Err(InvalidLength);
      }
      return Ok(i + v.value.len + length);
    case 3 =>
      r := SkipGroup(data, i);
    case 4 =>
      return Ok(i);
    case 5 =>
      return Ok(i + 4);
    case _ =>
      return Err(IllegalWireType);
  }

  /** The inner loop: fields up to the end key of the group that begins at `begin`. */
  method SkipGroup(data: seq<byte>, begin: nat) returns (r: Result<nat, Error>)
    requires 0 < begin <= |data|
    ensures r == Shifted(begin, GroupLength(data[begin..]))
    decreases |data|, 0
  {
    hide DecodeVarint, WireType, FieldLength;
    var i := begin;
    while true
      invariant begin <= i
      invariant GroupLength(data[begin..]) ==
                if i <= |data| then Shifted(i - begin, GroupLength(data[i..])) else Err(UnexpectedEOF)
      decreases |data| - i
    {
      if i >= |data| {
        GroupOfNothing();
        assert i == |data| ==> data[i..] == [];
        return Err(UnexpectedEOF);
      }
      var inner := ReadVarint(data, i);
      if inner.Err? {
        return Err(inner.error);
      }
      if WireType(inner.value.value) == 4 {
        return Ok(i + inner.value.len);
      }
      var next := SkipLog(data[i..]);
      if next.Err? {
        return Err(next.error);
      }
      AfterField(data, i, next.value);
      i := i + next.value;
    }
  }

  /** What a group comes to after its first field. */
  lemma AfterField(data: seq<byte>, i: nat, n: nat)
    requires i < |data| && n > 0 && FieldLength(data[i..]) == Ok(n)
    requires DecodeVarint(data[i..]).Ok? && WireType(DecodeVarint(data[i..]).value.value) != 4
    ensures GroupLength(data[i..]) ==
            if i + n <= |data| then Shifted(n, GroupLength(data[i + n..])) else Err(UnexpectedEOF)
  {
    hide DecodeVarint, WireType, FieldLength;
    if i + n <= |data| {
      assert data[i..][n..] == data[i + n..];
    }
  }

  lemma GroupOfNothing()
    ensures GroupLength([]) == Err(UnexpectedEOF)
  {
    NothingToDecode();
  }

  ghost function Shifted(n: nat, r: Result<nat, Error>): (r': Result<nat, Error>) {
    if r.Err? then r else Ok(n + r.value)
  }

  // ---------------------------------------------------------------- the grammar of a field

  /** A complete field, down to the bytes of its keys and lengths (which need not be minimal). */
  datatype Field =
    | Scalar(key: seq<byte>, value: seq<byte>)
    | Fixed64(key: seq<byte>, payload: seq<byte>)
    | Delimited(key: seq<byte>, length: seq<byte>, payload: seq<byte>)
    | Group(key: seq<byte>, body: seq<Field>, end: seq<byte>)
    | Fixed32(key: seq<byte>, payload: seq<byte>)

  ghost predicate IsVarint(s: seq<byte>) {
    DecodeVarint(s).Ok? && DecodeVarint(s).value.len == |s|
  }

  ghost predicate IsKey(s: seq<byte>, wireType: nat) {
    IsVarint(s) && WireType(DecodeVarint(s).value.value) == wireType
  }

  ghost predicate WellFormed(f: Field)
    decreases f
  {
    match f
    case Scalar(key, value) => IsKey(key, 0) && IsVarint(value)
    case Fixed64(key, payload) => IsKey(key, 1) && |payload| == 8
    case Delimited(key, length, payload) =>
      IsKey(key, 2) && IsVarint(length) && DecodeVarint(length).value.value == |payload| < TWO_63
    case Group(key, body, end) =>
      IsKey(key, 3) && IsKey(end, 4) && forall f :: f in body ==> WellFormed(f)
    case Fixed32(key, payload) => IsKey(key, 5) && |payload| == 4
  }

  ghost function Bytes(f: Field): (s: seq<byte>)
    decreases f, 1
  {
    match f
    case Scalar(key, value) => key + value
    case Fixed64(key, payload) => key + payload
    case Delimited(key, length, payload) => key + length + payload
    case Group(key, body, end) => key + BytesOfAll(body) + end
    case Fixed32(key, payload) => key + payload
  }

  ghost function BytesOfAll(fs: seq<Field>): (s: seq<byte>)
    decreases fs, 0
  {
    if fs == [] then [] else Bytes(fs[0]) + BytesOfAll(fs[1..])
  }

  lemma NothingToDecode()
    ensures DecodeVarint([]) == Err(UnexpectedEOF)
  {
  }

  lemma VarintAtFront(s: seq<byte>, rest: seq<byte>)
    requires IsVarint(s)
    ensures DecodeVarint(s + rest) == DecodeVarint(s)
    ensures (s + rest)[|s|..] == rest
  {
    assert (s + rest)[..|s|] == s[..|s|];
    DecodeIsLocal(s, s + rest);
  }

  lemma SkipsDelimited(key: seq<byte>, length: seq<byte>, payload: seq<byte>, rest: seq<byte>)
    requires WellFormed(Delimited(key, length, payload))
    ensures FieldLength(key + (length + (payload + rest))) == Ok(|key + length + payload|)
  {
    hide DecodeVarint, WireType;
    VarintAtFront(key, length + (payload + rest));
    VarintAtFront(length, payload + rest);
  }

  lemma SkipsScalar(key: seq<byte>, value: seq<byte>, rest: seq<byte>)
    requires WellFormed(Scalar(key, value))
    ensures FieldLength(key + (value + rest)) == Ok(|key + value|)
  {
    hide DecodeVarint, WireType;
    VarintAtFront(key, value + rest);
    VarintAtFront(value, rest);
  }

  lemma SkipsFixed(f: Field, rest: seq<byte>)
    requires WellFormed(f) && (f.Fixed64? || f.Fixed32?)
    ensures FieldLength(f.key + (f.payload + rest)) == Ok(|f.key + f.payload|)
  {
    hide DecodeVarint, WireType;
    VarintAtFront(f.key, f.payload + rest);
  }

  /** Whatever follows, the skipper steps over exactly one complete field. */
  lemma {:induction false} SkipsOneField(f: Field, rest: seq<byte>)
    requires WellFormed(f)
    ensures Bytes(f) != [] && FieldLength(Bytes(f) + rest) == Ok(|Bytes(f)|)
    decreases f, 1
  {
    hide DecodeVarint, WireType, FieldLength;
    match f
    case Scalar(key, value) =>
      SkipsScalar(key, value, rest);
      assert Bytes(f) + rest == key + (value + rest);
    case Delimited(key, length, payload) =>
      SkipsDelimited(key, length, payload, rest);
      assert Bytes(f) + rest == key + (length + (payload + rest));
    case Group(key, body, end) =>
      SkipsGroup(body, end, rest);
      AfterGroupKey(key, BytesOfAll(body) + end, rest);
      assert Bytes(f) + rest == key + (BytesOfAll(body) + end + rest);
    case _ =>
      SkipsFixed(f, rest);
      assert Bytes(f) + rest == f.key + (f.payload + rest);
  }

  lemma AfterGroupKey(key: seq<byte>, group: seq<byte>, rest: seq<byte>)
    requires IsKey(key, 3) && GroupLength(group + rest) == Ok(|group|)
    ensures FieldLength(key + (group + rest)) == Ok(|key + group|)
  {
    hide DecodeVarint, WireType, GroupLength;
    VarintAtFront(key, group + rest);
  }

  lemma {:induction false} SkipsGroup(body: seq<Field>, end: seq<byte>, rest: seq<byte>)
    requires IsKey(end, 4) && forall f :: f in body ==> WellFormed(f)
    ensures GroupLength(BytesOfAll(body) + end + rest) == Ok(|BytesOfAll(body) + end|)
    decreases body, 0
  {
    hide DecodeVarint, WireType;
    var s := BytesOfAll(body) + end + rest;
    if body == [] {
      VarintAtFront(end, rest);
      assert s == end + rest;
    } else {
      var more := BytesOfAll(body[1..]) + end + rest;
      assert body[0] in body;
      SkipsOneField(body[0], more);
      SkipsGroup(body[1..], end, rest);
      assert s == Bytes(body[0]) + more;
      KeyOfField(body[0], more);
      assert s[|Bytes(body[0])|..] == more;
    }
  }

  lemma KeyOfField(f: Field, rest: seq<byte>)
    requires WellFormed(f)
    ensures DecodeVarint(Bytes(f) + rest).Ok?
    ensures WireType(DecodeVarint(Bytes(f) + rest).value.value) != 4
  {
    hide DecodeVarint, WireType;
    var tail := Bytes(f)[|f.key|..] + rest;
    assert Bytes(f) + rest == f.key + tail;
    VarintAtFront(f.key, tail);
  }

  /** Conversely, what the skipper accepts inside its input is one complete field. */
  lemma {:induction false} SkippedIsField(s: seq<byte>) returns (f: Field)
    requires s != [] && FieldLength(s).Ok? && FieldLength(s).value <= |s|
    requires WireType(DecodeVarint(s).value.value) != 4
    ensures WellFormed(f) && Bytes(f) == s[..FieldLength(s).value]
    decreases |s|, 0
  {
    hide DecodeVarint, WireType;
    var n, k := FieldLength(s).value, DecodeVarint(s).value.len;
    var key, rest := s[..k], s[k..];
    DecodeIsLocal(s, key);
    assert key + rest[..n - k] == s[..n];
    match WireType(DecodeVarint(s).value.value)
    case 0 =>
      DecodeIsLocal(rest, rest[..n - k]);
      f := Scalar(key, rest[..n - k]);
    case 1 =>
      f := Fixed64(key, rest[..8]);
    case 2 =>
      f := SkippedIsDelimited(key, rest, n - k);
      assert rest[..n - k] == f.length + f.payload;
    case 3 =>
      var body, end := SkippedIsGroup(rest);
      f := Group(key, body, end);
      assert Bytes(f) == key + (BytesOfAll(body) + end);
    case 5 =>
      f := Fixed32(key, rest[..4]);
  }

  lemma SkippedIsDelimited(key: seq<byte>, rest: seq<byte>, n: nat) returns (f: Field)
    requires IsKey(key, 2) && DecodeVarint(rest).Ok? && n <= |rest|
    requires var v := DecodeVarint(rest).value; v.value < TWO_63 && n == v.len + v.value
    ensures f.Delimited? && WellFormed(f) && f.key == key && f.length + f.payload == rest[..n]
  {
    hide DecodeVarint, WireType;
    var l := DecodeVarint(rest).value.len;
    DecodeIsLocal(rest, rest[..l]);
    f := Delimited(key, rest[..l], rest[l..n]);
  }

  lemma {:induction false} SkippedIsGroup(s: seq<byte>) returns (body: seq<Field>, end: seq<byte>)
    requires GroupLength(s).Ok?
    ensures IsKey(end, 4) && forall f :: f in body ==> WellFormed(f)
    ensures BytesOfAll(body) + end == s[..GroupLength(s).value]
    decreases |s|, 1
  {
    hide DecodeVarint, WireType, FieldLength, WellFormed, Bytes;
    var key := DecodeVarint(s).value;
    if WireType(key.value) == 4 {
      DecodeIsLocal(s, s[..key.len]);
      body, end := [], s[..key.len];
    } else {
      var n := FieldLength(s).value;
      var first := SkippedIsField(s);
      var others, e := SkippedIsGroup(s[n..]);
      body, end := [first] + others, e;
      assert body[1..] == others && forall g :: g in body ==> g == first || g in others;
      assert s[..GroupLength(s).value] == s[..n] + s[n..][..GroupLength(s[n..]).value];
    }
  }

  /** The skipper accepts `n` bytes of `s` exactly when they are one complete field. */
  lemma SkipsExactlyTheFields(s: seq<byte>, n: nat)
    requires 0 < n <= |s|
    ensures (DecodeVarint(s).Ok? && WireType(DecodeVarint(s).value.value) != 4 && FieldLength(s) == Ok(n)) <==>
            exists f :: WellFormed(f) && Bytes(f) == s[..n]
  {
    hide DecodeVarint, WireType;
    if DecodeVarint(s).Ok? && WireType(DecodeVarint(s).value.value) != 4 && FieldLength(s) == Ok(n) {
      var f := SkippedIsField(s);
    }
    if f :| WellFormed(f) && Bytes(f) == s[..n] {
      SkipsOneField(f, s[n..]);
      KeyOfField(f, s[n..]);
      assert Bytes(f) + s[n..] == s;
    }
  }

  /** Only the bytes of the field itself decide how it is skipped. */
  lemma SkipIsLocal(s: seq<byte>, rest: seq<byte>)
    requires s != [] && FieldLength(s).Ok? && FieldLength(s).value <= |s|
    requires WireType(DecodeVarint(s).value.value) != 4
    ensures FieldLength(s[..FieldLength(s).value] + rest) == FieldLength(s)
    ensures DecodeVarint(s[..FieldLength(s).value] + rest) == DecodeVarint(s)
  {
    hide DecodeVarint, WireType;
    var n := FieldLength(s).value;
    var f := SkippedIsField(s);
    SkipsOneField(f, rest);
    var k := DecodeVarint(s).value.len;
    assert s[..n] + s[n..] == s;
    KeyOfField(f, s[n..]);
    VarintAtFront(f.key, Bytes(f)[|f.key|..] + s[n..]);
    VarintAtFront(f.key, Bytes(f)[|f.key|..] + rest);
    assert f.key + (Bytes(f)[|f.key|..] + s[n..]) == s;
    assert f.key + (Bytes(f)[|f.key|..] + rest) == s[..n] + rest;
  }

  // ---------------------------------------------------------------- what is refused, and how

  /** After a key, wire types 6 and 7 are refused, and so is what fails to be the value, length or group it calls for. */
  lemma SkipRefuses(key: seq<byte>, rest: seq<byte>)
    requires IsVarint(key)
    ensures key != []
    ensures var w, r, v := WireType(DecodeVarint(key).value.value), FieldLength(key + rest), DecodeVarint(rest);
            && (w > 5 ==> r == Err(IllegalWireType))
            && ((w == 0 || w == 2) && v.Err? ==> r == Err(v.error))
            && (w == 2 && v.Ok? && v.value.value >= TWO_63 ==> r == Err(InvalidLength))
            && (w == 3 && GroupLength(rest).Err? ==> r == Err(GroupLength(rest).error))
  {
    hide DecodeVarint, WireType;
    NothingToDecode();
    VarintAtFront(key, rest);
  }

  /** A group fails as what follows its complete fields does, at the latest at the end of the input. */
  lemma {:induction false} GroupGoesOn(body: seq<Field>, tail: seq<byte>)
    requires forall f :: f in body ==> WellFormed(f)
    ensures GroupLength(BytesOfAll(body) + tail) == Shifted(|BytesOfAll(body)|, GroupLength(tail))
    ensures GroupLength([]) == Err(UnexpectedEOF)
    decreases |body|
  {
    hide DecodeVarint, WireType, FieldLength, WellFormed, Bytes;
    GroupOfNothing();
    if body == [] {
      assert BytesOfAll(body) + tail == tail;
    } else {
      var more := BytesOfAll(body[1..]) + tail;
      var s := BytesOfAll(body) + tail;
      assert body[0] in body;
      SkipsOneField(body[0], more);
      GroupGoesOn(body[1..], tail);
      KeyOfField(body[0], more);
      assert s == Bytes(body[0]) + more;
      AfterField(s, 0, |Bytes(body[0])|);
      assert s[0..] == s && s[|Bytes(body[0])|..] == more;
    }
  }
}
