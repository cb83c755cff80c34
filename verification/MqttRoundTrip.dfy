/** When a written pack is read back unchanged, whatever follows it in the stream: exactly when `Readable` holds. */
module MqttRoundTrip {
  import opened Common
  import opened Wire
  import opened Mqtt

  // ---------------------------------------------------------------- reading back the parts

  lemma IntRoundTrip(i: int, rest: seq<byte>)
    ensures GetInt(PutInt(i) + rest) == Got(i % TWO_16, rest)
  {
    var s := PutInt(i) + rest;
    assert s[..2] == PutInt(i) && s[2..] == rest;
    TwoBytes(i);
  }

  lemma TwoBytes(i: int)
    ensures 256 * (i / 256 % 256) + i % 256 == i % TWO_16
  {
    var h := i / 256;
    assert i == 256 * h + i % 256 && h == 256 * (h / 256) + h % 256;
    assert i == TWO_16 * (h / 256) + (256 * (h % 256) + i % 256);
  }

  lemma BytesRoundTrip(v: seq<byte>, rest: seq<byte>)
    ensures GetBytes(v + rest, |v|) == Got(v, rest)
  {
    assert (v + rest)[..|v|] == v && (v + rest)[|v|..] == rest;
  }

  lemma StringRoundTrip(v: seq<byte>, rest: seq<byte>)
    requires |v| < TWO_16
    ensures GetString(PutString(v) + rest) == Got(v, rest)
  {
    hide GetInt, GetBytes, PutInt;
    IntRoundTrip(|v|, v + rest);
    BytesRoundTrip(v, rest);
    assert PutString(v) + rest == PutInt(|v|) + (v + rest);
  }

  /** The reader understands lengths of up to three bytes, and nothing larger. */
  lemma {:induction false} LengthRoundTrip(n: nat, left: nat, rest: seq<byte>)
    requires 0 < left && n < Pow2(7 * left)
    ensures GetLength(EncodeVarint(n) + rest, left) == Got(n, rest)
    decreases left
  {
    hide Pow2;
    var s := EncodeVarint(n) + rest;
    if n < 128 {
      assert s[0] == n && s[1..] == rest;
    } else {
      PowerOfNone();
      Pow2Septet(7 * (left - 1));
      assert left > 1;
      QuotientBelow(n, Pow2(7 * (left - 1)));
      LengthRoundTrip(n / 128, left - 1, rest);
      assert s[0] == n % 128 + 128 && s[1..] == EncodeVarint(n / 128) + rest;
    }
  }

  lemma PowerOfNone()
    ensures Pow2(0) == 1
  {
  }

  lemma QuotientBelow(n: nat, p: nat)
    requires n < 128 * p
    ensures n / 128 < p
  {
  }

  lemma {:induction false} LengthIsBounded(s: seq<byte>, left: nat)
    requires left > 0 && GetLength(s, left).Got?
    ensures GetLength(s, left).value < Pow2(7 * left)
    ensures |s| - |GetLength(s, left).rest| <= left
    ensures |s| - |GetLength(s, left).rest| > 1 <==> s[0] >= 128 && left > 1
    decreases left
  {
    Pow2Septet(7 * (left - 1));
    if s[0] >= 128 && left > 1 {
      LengthIsBounded(s[1..], left - 1);
    }
  }

  lemma ThreeBytes()
    ensures Pow2(21) == MAX_READ_LENGTH + 1
  {
    Pow2Septet(0);
    Pow2Septet(7);
    Pow2Septet(14);
  }

  // ---------------------------------------------------------------- topic lists

  function WithoutQos(topics: seq<Topic>): (ts: seq<Topic>)
    ensures |ts| == |topics|
  {
    if topics == [] then [] else [Topic(topics[0].name, 0)] + WithoutQos(topics[1..])
  }

  function TopicsAsRead(topics: seq<Topic>, withQos: bool): (ts: seq<Topic>) {
    if withQos then topics else WithoutQos(topics)
  }

  /** The size below which the reader's loop no longer looks for a topic. */
  predicate LastTopicSeen(topics: seq<Topic>, withQos: bool) {
    topics != [] ==> |topics[|topics| - 1].name| >= if withQos then 1 else 2
  }

  lemma {:induction false} TopicsRoundTrip(topics: seq<Topic>, withQos: bool, rest: seq<byte>)
    requires LastTopicSeen(topics, withQos) && forall t :: t in topics ==> |t.name| < TWO_16
    ensures GetTopics(PutTopics(topics, withQos) + rest, TopicsSize(topics, withQos), withQos) ==
            (TopicsAsRead(topics, withQos), rest)
  {
    hide GetTopics, PutString;
    NoTopics(rest, withQos);
    if topics == [] {
      assert [] + rest == rest;
    } else {
      var tail := PutTopics(topics[1..], withQos) + rest;
      if |topics| > 1 {
        assert topics[1..][|topics| - 2] == topics[|topics| - 1];
        assert TopicsSize(topics[1..], withQos) >= 2 + (if withQos then 1 else 0);
      }
      FirstTopic(topics[0], withQos, tail, TopicsSize(topics, withQos));
      assert PutTopics(topics, withQos) + rest == PutTopic(topics[0], withQos) + tail;
      TopicsRoundTrip(topics[1..], withQos, rest);
      assert topics == [topics[0]] + topics[1..];
    }
  }

  lemma NoTopics(s: seq<byte>, withQos: bool)
    ensures GetTopics(s, 0, withQos) == ([], s)
  {
  }

  function PutTopic(t: Topic, withQos: bool): (s: seq<byte>) {
    PutString(t.name) + (if withQos then [t.qos] else [])
  }

  lemma FirstTopic(t: Topic, withQos: bool, tail: seq<byte>, left: int)
    requires left > 3 && |t.name| < TWO_16
    ensures var more := GetTopics(tail, left - |PutTopic(t, withQos)|, withQos);
            GetTopics(PutTopic(t, withQos) + tail, left, withQos) ==
            ([if withQos then t else Topic(t.name, 0)] + more.0, more.1)
  {
    hide GetInt, PutInt;
    var s1 := t.name + (if withQos then [t.qos] else []) + tail;
    assert PutTopic(t, withQos) + tail == PutInt(|t.name|) + s1;
    IntRoundTrip(|t.name|, s1);
    assert s1[..|t.name|] == t.name;
    assert s1[|t.name|..] == (if withQos then [t.qos] else []) + tail;
    assert withQos ==> s1[|t.name|..][1..] == tail;
  }

  /** A topic list that did not run into the end of the stream accounts for the bytes it took,
    * and every topic in it was looked for with more than three bytes left.
    */
  lemma {:induction false} TopicsAccount(s: seq<byte>, left: int, withQos: bool)
    requires GetTopics(s, left, withQos).1 != []
    ensures var (ts, rest) := GetTopics(s, left, withQos);
            && |s| == TopicsSize(ts, withQos) + |rest|
            && (ts != [] ==> left - TopicsSize(ts[..|ts| - 1], withQos) > 3)
    decreases left
  {
    hide GetInt, Padded, After, TopicsSize;
    NoSize(withQos);
    if left > 3 && GetInt(s).Got? {
      var n, s1 := GetInt(s).value, GetInt(s).rest;
      var s2 := After(s1, n);
      if s2 == [] {
        NothingLeft(s2, left - 2 - n, withQos);
      } else {
        var (next, left') := if withQos then (s2[1..], left - 3 - n) else (s2, left - 2 - n);
        TopicsAccount(next, left', withQos);
        var name, qos, more := Padded(s1, n), if withQos then s2[0] else 0, GetTopics(next, left', withQos).0;
        ConsAccount(name, qos, more, withQos);
        assert GetTopics(s, left, withQos).0 == [Topic(name, qos)] + more;
      }
    }
  }

  lemma NoSize(withQos: bool)
    ensures TopicsSize([], withQos) == 0
  {
  }

  lemma ConsAccount(name: seq<byte>, qos: byte, more: seq<Topic>, withQos: bool)
    ensures var ts := [Topic(name, qos)] + more; var size := 2 + |name| + (if withQos then 1 else 0);
            && TopicsSize(ts, withQos) == size + TopicsSize(more, withQos)
            && (more != [] ==>
                TopicsSize(ts[..|ts| - 1], withQos) == size + TopicsSize(more[..|more| - 1], withQos))
            && (more == [] ==> TopicsSize(ts[..|ts| - 1], withQos) == 0)
  {
    var ts := [Topic(name, qos)] + more;
    assert ts[1..] == more;
    if more != [] {
      assert ts[..|ts| - 1][1..] == more[..|more| - 1];
    }
  }

  lemma NothingLeft(s: seq<byte>, left: int, withQos: bool)
    requires s == []
    ensures GetTopics(s, left, withQos).1 == []
  {
  }

  // ---------------------------------------------------------------- packs

  /** The pack the reader builds from a written one: retain is never written, nor the id of a QoS 0 PUBLISH. */
  function AsRead(p: Pack): (r: Pack) {
    var variable := match p.variable
      case Publish(topic, mid, msg) => if p.qos > 0 then p.variable else Publish(topic, 0, msg)
      case Unsubscribe(mid, topics) => Unsubscribe(mid, WithoutQos(topics))
      case v => v;
    Pack(p.msgType, p.dup, p.qos, 0, DeclaredLength(p), variable)
  }

  predicate Id16(mid: int) {
    0 <= mid < TWO_16
  }

  predicate Readable(p: Pack) {
    match p.variable
    case Publish(topic, mid, msg) =>
      && 1 <= |topic| < TWO_16 && DeclaredLength(p) <= MAX_READ_LENGTH
      && if p.qos > 0 then Id16(mid) else |msg| >= 2
    case Puback(mid) => Id16(mid)
    case Suback(mid, _) => Id16(mid)
    case Unsuback(mid) => Id16(mid)
    case Subscribe(mid, topics) => Id16(mid) && DeclaredLength(p) < 128 && LastTopicSeen(topics, true)
    case Unsubscribe(mid, topics) => Id16(mid) && DeclaredLength(p) < 128 && LastTopicSeen(topics, false)
    case Nothing => p.msgType == PINGRESP
    case Connack(_, _) => false
    case Connection(_) => false
  }

  function Complete(p: Pack, d: nat, r: Read<Variable>): (r': Read<Pack>) {
    match r
    case Failed(e, rest) => Failed(e, rest)
    case Got(v, rest) => Got(Pack(p.msgType, p.dup, p.qos, 0, d, v), rest)
  }

  lemma HeaderRoundTrip(p: Pack, d: nat, tail: seq<byte>)
    requires Matches(p) && d <= MAX_READ_LENGTH
    ensures Parse([FixedHeader(p)] + EncodeVarint(d) + tail) == Complete(p, d, GetVariable(tail, p.msgType, p.qos, d))
  {
    hide GetVariable, EncodeVarint, GetLength, Pow2;
    ThreeBytes();
    LengthRoundTrip(d, 3, tail);
    var b, more := FixedHeader(p), EncodeVarint(d) + tail;
    var s := [FixedHeader(p)] + EncodeVarint(d) + tail;
    assert s[0] == b && s[1..] == more;
    HeaderBits(p);
    ParsedAs(s, b, more, d, tail);
  }

  lemma HeaderBits(p: Pack)
    requires Matches(p)
    ensures var b := FixedHeader(p);
            b / 16 == p.msgType && b / 8 % 2 == p.dup && b / 2 % 4 == p.qos && b % 2 == 0
  {
    FixedBits(p.msgType, p.dup, p.qos);
  }

  /** What is made of a first byte, a length and the result of reading the variable part. */
  function Headed(b: byte, d: nat, r: Read<Variable>): (r': Read<Pack>) {
    match r
    case Failed(e, rest) => Failed(e, rest)
    case Got(v, rest) => Got(Pack(b / 16, b / 8 % 2, b / 2 % 4, b % 2, d, v), rest)
  }

  lemma ParsedAs(s: seq<byte>, b: byte, more: seq<byte>, d: nat, tail: seq<byte>)
    requires s == [b] + more && GetLength(more, 3) == Got(d, tail)
    ensures Parse(s) == Headed(b, d, GetVariable(tail, b / 16, b / 2 % 4, d))
  {
    hide GetVariable, GetLength;
    assert s[0] == b && s[1..] == more;
  }

  lemma FixedBits(msgType: nat, dup: nat, qos: nat)
    requires dup < 2 && qos < 4
    ensures var b := 16 * msgType + 8 * dup + 2 * qos;
            b / 16 == msgType && b / 8 % 2 == dup && b / 2 % 4 == qos && b % 2 == 0
  {
    var b := 16 * msgType + 8 * dup + 2 * qos;
    assert b / 8 == 2 * msgType + dup;
    Quarter(2 * msgType + dup, qos);
    assert b / 2 == 4 * (2 * msgType + dup) + qos;
  }

  lemma Quarter(q: nat, r: nat)
    requires r < 4
    ensures (4 * q + r) % 4 == r
  {
  }

  lemma ShortLength(p: Pack)
    requires DeclaredLength(p) < 128
    ensures EncodeVarint(DeclaredLength(p)) == [EncodeVarint(DeclaredLength(p))[0]]
  {
  }

  lemma PublishRoundTrip(p: Pack, rest: seq<byte>)
    requires Matches(p) && p.variable.Publish? && Readable(p)
    ensures GetVariable(Body(p) + rest, p.msgType, p.qos, DeclaredLength(p)) == Got(AsRead(p).variable, rest)
  {
    hide GetString, GetInt, GetBytes, PutInt, PutString;
    var Publish(topic, mid, msg) := p.variable;
    var id := if p.qos > 0 then PutInt(mid) else [];
    StringRoundTrip(topic, id + (msg + rest));
    IntRoundTrip(mid, msg + rest);
    BytesRoundTrip(msg, rest);
    assert Body(p) + rest == PutString(topic) + (id + (msg + rest));
    assert [] + (msg + rest) == msg + rest;
  }

  lemma TopicPackRoundTrip(p: Pack, rest: seq<byte>)
    requires Matches(p) && (p.variable.Subscribe? || p.variable.Unsubscribe?) && Readable(p)
    ensures GetVariable(Body(p) + rest, p.msgType, p.qos, DeclaredLength(p)) == Got(AsRead(p).variable, rest)
  {
    hide GetInt, PutInt, GetTopics, PutTopics;
    var withQos := p.variable.Subscribe?;
    var mid, topics := p.variable.mid, p.variable.topics;
    var tail := PutTopics(topics, withQos) + rest;
    IntRoundTrip(mid, tail);
    NamesAreShort(topics, withQos);
    TopicsRoundTrip(topics, withQos, rest);
    assert Body(p) + rest == PutInt(mid) + tail;
  }

  lemma {:induction false} NamesAreShort(topics: seq<Topic>, withQos: bool)
    ensures forall t :: t in topics ==> |t.name| < TopicsSize(topics, withQos)
  {
    if topics != [] {
      NamesAreShort(topics[1..], withQos);
      assert forall t :: t in topics ==> t == topics[0] || t in topics[1..];
    }
  }

  lemma SmallPackRoundTrip(p: Pack, rest: seq<byte>)
    requires Matches(p) && Readable(p)
    requires p.variable.Puback? || p.variable.Suback? || p.variable.Unsuback? || p.variable.Nothing?
    ensures GetVariable(Body(p) + rest, p.msgType, p.qos, DeclaredLength(p)) == Got(AsRead(p).variable, rest)
  {
    hide GetInt, PutInt;
    match p.variable
    case Suback(mid, qos) =>
      IntRoundTrip(mid, [qos] + rest);
      assert Body(p) + rest == PutInt(mid) + ([qos] + rest);
      assert ([qos] + rest)[1..] == rest;
    case Nothing =>
      assert Body(p) + rest == rest && rest[..0] == [] && rest[0..] == rest;
    case Puback(mid) => IntRoundTrip(mid, rest);
    case Unsuback(mid) => IntRoundTrip(mid, rest);
  }

  lemma PackRoundTrip(p: Pack, rest: seq<byte>)
    requires Matches(p) && Readable(p)
    ensures Parse(Bytes(p) + rest) == Got(AsRead(p), rest)
  {
    hide GetVariable, Body, EncodeVarint;
    match p.variable {
      case Publish(_, _, _) => PublishRoundTrip(p, rest);
      case Subscribe(_, _) => TopicPackRoundTrip(p, rest);
      case Unsubscribe(_, _) => TopicPackRoundTrip(p, rest);
      case _ => SmallPackRoundTrip(p, rest);
    }
    var d := DeclaredLength(p);
    HeaderRoundTrip(p, d, Body(p) + rest);
    if p.msgType != PUBLISH {
      ShortLength(p);
    }
    assert Bytes(p) + rest == [FixedHeader(p)] + EncodeVarint(d) + (Body(p) + rest);
  }

  // ---------------------------------------------------------------- what the reader can return

  /** Everything that holds of a pack because the reader returned it. */
  ghost predicate Returnable(p: Pack) {
    && p.length <= MAX_READ_LENGTH && !p.variable.Connack?
    && match p.variable
       case Publish(topic, mid, msg) => 1 <= |topic| < TWO_16 && Id16(mid) && p.length - |topic| - 2 >= 2
       case Puback(mid) => Id16(mid)
       case Suback(mid, _) => Id16(mid)
       case Unsuback(mid) => Id16(mid)
       case Subscribe(mid, ts) => Id16(mid)
       case Unsubscribe(mid, ts) => Id16(mid)
       case _ => true
  }

  lemma ReturnedPack(s: seq<byte>)
    requires Parse(s).Got?
    ensures Returnable(Parse(s).value)
  {
    hide GetString, GetInt, GetBytes, GetTopics, GetConnect, GetLength;
    ThreeBytes();
    LengthIsBounded(s[1..], 3);
    var (length, s2) := (GetLength(s[1..], 3).value, GetLength(s[1..], 3).rest);
    ConnectOnly(s2, length);
  }

  lemma ConnectOnly(s: seq<byte>, length: nat)
    ensures GetConnect(s, length).Got? ==> GetConnect(s, length).value.Connection?
  {
    hide GetString, GetInt, GetWill, GetLogin, GetByte, ParseFlags;
  }

  /** A topic pack whose reading stopped short of the end of the stream took exactly its bytes. */
  lemma TopicPackAccount(s: seq<byte>)
    requires Parse(s).Got? && (Parse(s).value.variable.Subscribe? || Parse(s).value.variable.Unsubscribe?)
    requires Parse(s).rest != []
    ensures var p := Parse(s).value; var withQos := p.variable.Subscribe?; var ts := p.variable.topics;
            && |s| >= 4 + TopicsSize(ts, withQos) + |Parse(s).rest|
            && (s[1] >= 128 ==> |s| > 4 + TopicsSize(ts, withQos) + |Parse(s).rest|)
            && (ts != [] ==> p.length - TopicsSize(ts[..|ts| - 1], withQos) > 3)
  {
    hide GetString, GetInt, GetBytes, GetTopics, GetConnect, GetLength, GetPublish;
    var p := Parse(s).value;
    LengthIsBounded(s[1..], 3);
    var (length, s2) := (GetLength(s[1..], 3).value, GetLength(s[1..], 3).rest);
    ConnectOnly(s2, length);
    PublishOnly(s2, length, p.qos);
    TopicsAccount(GetInt(s2).rest, length, p.variable.Subscribe?);
  }

  lemma PublishOnly(s: seq<byte>, length: nat, qos: nat)
    ensures GetPublish(s, length, qos).Got? ==> GetPublish(s, length, qos).value.Publish?
  {
  }

  ghost predicate ReadsBack(p: Pack)
    requires Matches(p)
  {
    forall rest :: Parse(Bytes(p) + rest) == Got(AsRead(p), rest)
  }

  lemma ReadableIsNeeded(p: Pack)
    requires Matches(p) && ReadsBack(p)
    ensures Readable(p)
  {
    hide Parse, GetVariable, EncodeVarint, TopicsSize, PutTopics;
    assert Parse(Bytes(p) + []) == Got(AsRead(p), []);
    ReturnedPack(Bytes(p) + []);
    match p.variable {
      case Nothing =>
        if p.msgType != PINGRESP {
          assert Bytes(p) + [] == [FixedHeader(p)];
          HeaderAlone(FixedHeader(p));
        }
      case Connection(_) =>
        assert Bytes(p) + [] == [FixedHeader(p)];
        HeaderAlone(FixedHeader(p));
      case Subscribe(mid, topics) => TopicPackNeeds(p, mid, topics, topics, true);
      case Unsubscribe(mid, topics) =>
        SameNames(topics);
        TopicPackNeeds(p, mid, topics, WithoutQos(topics), false);
      case _ =>
    }
  }

  lemma HeaderAlone(b: byte)
    ensures Parse([b]).Failed?
  {
    hide GetVariable;
  }

  lemma {:induction false} SameNames(topics: seq<Topic>)
    ensures TopicsSize(WithoutQos(topics), false) == TopicsSize(topics, false)
    ensures topics != [] ==> WithoutQos(topics)[|topics| - 1].name == topics[|topics| - 1].name
  {
    if topics != [] {
      SameNames(topics[1..]);
    }
  }

  lemma TopicPackNeeds(p: Pack, mid: int, topics: seq<Topic>, read: seq<Topic>, withQos: bool)
    requires Matches(p) && ReadsBack(p)
    requires p.variable == if withQos then Subscribe(mid, topics) else Unsubscribe(mid, topics)
    requires AsRead(p).variable == if withQos then Subscribe(mid, read) else Unsubscribe(mid, read)
    requires TopicsSize(read, withQos) == TopicsSize(topics, withQos) && |read| == |topics|
    requires topics != [] ==> read[|topics| - 1].name == topics[|topics| - 1].name
    ensures DeclaredLength(p) < 128 && LastTopicSeen(topics, withQos)
  {
    hide Parse, GetVariable, TopicsSize, Bytes;
    var s := Bytes(p) + [0];
    assert Parse(s) == Got(AsRead(p), [0]);
    TopicPackAccount(s);
    TopicPackBytes(p);
    if topics != [] {
      SizeSnoc(read, withQos);
    }
  }

  lemma TopicPackBytes(p: Pack)
    requires Matches(p) && (p.variable.Subscribe? || p.variable.Unsubscribe?)
    ensures |Bytes(p)| == 4 + DeclaredLength(p) && (Bytes(p)[1] >= 128 <==> DeclaredLength(p) >= 128)
  {
    hide EncodeVarint;
    FirstLengthByte(DeclaredLength(p));
  }

  lemma FirstLengthByte(n: nat)
    ensures EncodeVarint(n)[0] >= 128 <==> n >= 128
  {
  }

  lemma {:induction false} SizeSnoc(ts: seq<Topic>, withQos: bool)
    requires ts != []
    ensures TopicsSize(ts, withQos) ==
            TopicsSize(ts[..|ts| - 1], withQos) + 2 + |ts[|ts| - 1].name| + (if withQos then 1 else 0)
  {
    if |ts| > 1 {
      SizeSnoc(ts[1..], withQos);
      assert ts[1..][..|ts| - 2] == ts[..|ts| - 1][1..];
    }
  }

  /** A written pack is read back, with anything after it, exactly when it is `Readable`. */
  lemma RoundTripExactly(p: Pack)
    requires Matches(p)
    ensures ReadsBack(p) <==> Readable(p)
  {
    if Readable(p) {
      forall rest ensures Parse(Bytes(p) + rest) == Got(AsRead(p), rest) {
        PackRoundTrip(p, rest);
      }
    }
    if ReadsBack(p) {
      ReadableIsNeeded(p);
    }
  }

  // ---------------------------------------------------------------- packs that are not read back

  /** A QoS 0 PUBLISH whose payload is shorter than two bytes is written but refused by the reader, whatever its
    * topic and whatever follows.
    */
  lemma ShortPayloadIsRefused(topic: seq<byte>, msg: seq<byte>, rest: seq<byte>)
    requires 1 <= |topic| < TWO_16 && |msg| < 2
    ensures var p := Pack(PUBLISH, 0, 0, 0, 0, Publish(topic, 0, msg));
            Matches(p) && !Readable(p) && Parse(Bytes(p) + rest) == Failed(LengthError, msg + rest)
  {
    hide EncodeVarint, GetString, PutString, GetVariable;
    var p := Pack(PUBLISH, 0, 0, 0, 0, Publish(topic, 0, msg));
    var d := DeclaredLength(p);
    StringRoundTrip(topic, msg + rest);
    assert Body(p) + rest == PutString(topic) + (msg + rest);
    assert GetPublish(Body(p) + rest, d, 0) == Failed(LengthError, msg + rest);
    VariableOfPublish(Body(p) + rest, d);
    HeaderRoundTrip(p, d, Body(p) + rest);
    assert Bytes(p) + rest == [FixedHeader(p)] + EncodeVarint(d) + (Body(p) + rest);
  }

  lemma VariableOfPublish(s: seq<byte>, length: nat)
    ensures GetVariable(s, PUBLISH, 0, length) == GetPublish(s, length, 0)
  {
    hide GetPublish;
  }

  /** An UNSUBSCRIBE of one topic with a name of one byte is read back as one of no topic, and the topic's bytes
    * are left in the stream for the next pack.
    */
  lemma ShortTopicIsMissed(mid: int, name: byte, rest: seq<byte>)
    requires Id16(mid)
    ensures var p := Pack(UNSUBSCRIBE, 0, 0, 0, 0, Unsubscribe(mid, [Topic([name], 0)]));
            && Matches(p) && !Readable(p)
            && Parse(Bytes(p) + rest) == Got(Pack(UNSUBSCRIBE, 0, 0, 0, 3, Unsubscribe(mid, [])), [0, 1, name] + rest)
  {
    hide EncodeVarint, GetVariable, GetInt, PutInt;
    var topics := [Topic([name], 0)];
    var p := Pack(UNSUBSCRIBE, 0, 0, 0, 0, Unsubscribe(mid, topics));
    TopicOfOneByte(name);
    assert DeclaredLength(p) == 3;
    var tail := [0, 1, name] + rest;
    assert Body(p) + rest == PutInt(mid) + tail;
    IntRoundTrip(mid, tail);
    VariableOfUnsubscribe(mid, tail);
    HeaderRoundTrip(p, 3, Body(p) + rest);
    ShortLength(p);
    assert Bytes(p) + rest == [FixedHeader(p)] + EncodeVarint(3) + (Body(p) + rest);
  }

  lemma TopicOfOneByte(name: byte)
    ensures PutTopics([Topic([name], 0)], false) == [0, 1, name] && TopicsSize([Topic([name], 0)], false) == 3
  {
    var topics := [Topic([name], 0)];
    assert topics[1..] == [] && topics[0].name == [name];
    assert PutInt(1) == [0, 1];
    assert PutTopics([], false) == [] && TopicsSize([], false) == 0;
    assert PutString([name]) == [0, 1, name];
  }

  lemma VariableOfUnsubscribe(mid: int, tail: seq<byte>)
    requires Id16(mid) && GetInt(PutInt(mid) + tail) == Got(mid, tail)
    ensures GetVariable(PutInt(mid) + tail, UNSUBSCRIBE, 0, 3) == Got(Unsubscribe(mid, []), tail)
  {
    hide GetInt, PutInt;
  }

  // ---------------------------------------------------------------- streams

  ghost function StreamBytes(ps: seq<Pack>): (s: seq<byte>)
    requires forall p :: p in ps ==> Matches(p)
  {
    if ps == [] then [] else Bytes(ps[0]) + StreamBytes(ps[1..])
  }

  /** The packs read from `s` until it is used up or a read fails. */
  ghost function ReadStream(s: seq<byte>): (ps: seq<Pack>)
    decreases |s|
  {
    if s == [] then []
    else
      match Parse(s)
      case Failed(_, _) => []
      case Got(p, rest) => if |rest| < |s| then [p] + ReadStream(rest) else [p]
  }

  /** Reading the concatenation of any list of written packs returns the list. */
  lemma {:induction false} StreamRoundTrip(ps: seq<Pack>)
    requires forall p :: p in ps ==> Matches(p) && Readable(p)
    ensures var read := ReadStream(StreamBytes(ps));
            |read| == |ps| && forall i :: 0 <= i < |ps| ==> read[i] == AsRead(ps[i])
  {
    hide Parse, Bytes;
    if ps != [] {
      var rest := StreamBytes(ps[1..]);
      PackRoundTrip(ps[0], rest);
      StreamRoundTrip(ps[1..]);
      BytesNotEmpty(ps[0]);
      assert ReadStream(StreamBytes(ps)) == [AsRead(ps[0])] + ReadStream(rest);
    }
  }

  lemma BytesNotEmpty(p: Pack)
    requires Matches(p)
    ensures Bytes(p) != []
  {
  }
}
