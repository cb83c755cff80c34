/** The reader on arbitrary bytes, and on every CONNECT that section 3.1 of MQTT 3.1.1 allows. */
module MqttFrames {
  import opened Common
  import opened Wire
  import opened Mqtt
  import opened MqttRoundTrip

  /** The types whose reading always takes exactly the declared length. */
  predicate Framed(msgType: nat) {
    msgType !in {CONNECT, SUBSCRIBE, UNSUBSCRIBE, PINGREQ, DISCONNECT}
  }

  /** What is unread is always the end of what there was. */
  ghost predicate Consumed(s: seq<byte>, rest: seq<byte>, n: nat) {
    n + |rest| == |s| && s[n..] == rest
  }

  lemma ConsumedTwice(s: seq<byte>, a: nat, m: seq<byte>, b: nat, rest: seq<byte>)
    requires Consumed(s, m, a) && Consumed(m, rest, b)
    ensures Consumed(s, rest, a + b)
  {
    assert s[a + b..] == s[a..][b..];
  }

  lemma StringConsumes(s: seq<byte>)
    requires GetString(s).Got?
    ensures Consumed(s, GetString(s).rest, 2 + |GetString(s).value|)
  {
    ConsumedTwice(s, 2, GetInt(s).rest, |GetString(s).value|, GetString(s).rest);
  }

  lemma {:induction false} LengthConsumes(s: seq<byte>, left: nat)
    requires left > 0 && GetLength(s, left).Got?
    ensures Consumed(s, GetLength(s, left).rest, |s| - |GetLength(s, left).rest|)
    decreases left
  {
    if s[0] >= 128 && left > 1 {
      LengthConsumes(s[1..], left - 1);
      var rest := GetLength(s, left).rest;
      ConsumedTwice(s, 1, s[1..], |s| - 1 - |rest|, rest);
    }
  }

  /** On arbitrary bytes: a pack of a framed type that was read took exactly its header and declared length. */
  lemma FrameAligned(s: seq<byte>)
    requires Parse(s).Got? && Framed(Parse(s).value.msgType)
    ensures var p, rest := Parse(s).value, Parse(s).rest;
            var header := 1 + (|s| - 1 - |GetLength(s[1..], 3).rest|);
            && 2 <= header <= 4
            && Consumed(s, rest, header + p.length)
  {
    hide GetString, GetInt, GetLength, GetConnect, GetTopics, GetPublish, GetBytes;
    var (p, s1) := (Parse(s).value, s[1..]);
    var s2 := GetLength(s1, 3).rest;
    LengthConsumes(s1, 3);
    LengthIsBounded(s1, 3);
    BodyAligned(s2, p.msgType, p.qos, p.length);
    ConsumedTwice(s, 1, s1, |s1| - |s2|, s2);
    ConsumedTwice(s, 1 + |s1| - |s2|, s2, p.length, Parse(s).rest);
  }

  lemma BodyAligned(s: seq<byte>, msgType: nat, qos: nat, length: nat)
    requires Framed(msgType) && GetVariable(s, msgType, qos, length).Got?
    ensures Consumed(s, GetVariable(s, msgType, qos, length).rest, length)
  {
    hide GetString, GetConnect, GetTopics;
    var rest := GetVariable(s, msgType, qos, length).rest;
    if msgType == PUBLISH {
      PublishAligned(s, length, qos);
    } else if msgType == SUBACK {
      ConsumedTwice(s, 2, GetInt(s).rest, 1, rest);
    }
  }

  lemma PublishAligned(s: seq<byte>, length: nat, qos: nat)
    requires GetPublish(s, length, qos).Got?
    ensures Consumed(s, GetPublish(s, length, qos).rest, length)
  {
    hide GetString;
    var topic, s1 := GetString(s).value, GetString(s).rest;
    var rest := GetPublish(s, length, qos).rest;
    StringConsumes(s);
    if qos > 0 {
      var s2 := GetInt(s1).rest;
      ConsumedTwice(s1, 2, s2, length - |topic| - 4, rest);
    }
    ConsumedTwice(s, 2 + |topic|, s1, length - |topic| - 2, rest);
  }

  // ---------------------------------------------------------------- CONNECT

  function Bit(b: bool): (n: nat)
    ensures n < 2
  {
    if b then 1 else 0
  }

  function FlagByte(f: Flags): (b: byte)
    requires f.willQos < 4
  {
    128 * Bit(f.userName) + 64 * Bit(f.password) + 32 * Bit(f.willRetain) + 8 * f.willQos
    + 4 * Bit(f.willFlag) + 2 * Bit(f.cleanSession) + Bit(f.reserved)
  }

  lemma FlagsRoundTrip(f: Flags)
    requires f.willQos < 4
    ensures ParseFlags(FlagByte(f)) == f
  {
    hide Bit, ParseFlags;
    ParsedBits(Bit(f.userName), Bit(f.password), Bit(f.willRetain), f.willQos,
               Bit(f.willFlag), Bit(f.cleanSession), Bit(f.reserved));
    forall b: bool ensures Bit(b) != 0 <==> b {
      BitIsSet(b);
    }
  }

  lemma ParsedBits(u: nat, p: nat, w: nat, q: nat, l: nat, c: nat, r: nat)
    requires u < 2 && p < 2 && w < 2 && q < 4 && l < 2 && c < 2 && r < 2
    ensures ParseFlags(128 * u + 64 * p + 32 * w + 8 * q + 4 * l + 2 * c + r)
         == Flags(u != 0, p != 0, w != 0, q, l != 0, c != 0, r != 0)
  {
    hide ParseFlags;
    var b5 := 2 * c + r;
    var b4 := 4 * l + b5;
    var b3 := 8 * q + b4;
    var b2 := 32 * w + b3;
    var b1 := 64 * p + b2;
    TopBits(128, u, b1);
    TopBits(64, p, b2);
    TopBits(32, w, b3);
    TopBits(8, q, b4);
    TopBits(4, l, b5);
    TopBits(2, c, r);
    ParsedAs(128 * u + b1, b1, b2, b3, b4, b5, u, p, w, q, l, c, r);
  }

  lemma ParsedAs(b: byte, b1: nat, b2: nat, b3: nat, b4: nat, b5: nat, u: nat, p: nat, w: nat, q: nat, l: nat, c: nat, r: nat)
    requires b / 128 == u && b % 128 == b1 && b1 / 64 == p && b1 % 64 == b2 && b2 / 32 == w && b2 % 32 == b3
    requires b3 / 8 == q && b3 % 8 == b4 && b4 / 4 == l && b4 % 4 == b5 && b5 / 2 == c && b5 % 2 == r
    ensures ParseFlags(b) == Flags(u != 0, p != 0, w != 0, q, l != 0, c != 0, r != 0)
  {
  }

  lemma BitIsSet(b: bool)
    ensures Bit(b) != 0 <==> b
  {
  }

  lemma TopBits(d: nat, x: nat, m: nat)
    requires d in {2, 4, 8, 32, 64, 128} && x < 4 && m < d
    ensures (d * x + m) / d == x && (d * x + m) % d == m
  {
    if x == 0 {
    } else if x == 1 {
    } else if x == 2 {
    } else {
    }
  }

  function PutOptional(v: Option<seq<byte>>): (s: seq<byte>) {
    if v.None? then [] else PutString(v.value)
  }

  /** The variable header and payload of a CONNECT. */
  function PutConnect(c: Connect): (s: seq<byte>)
    requires c.flags.willQos < 4
  {
    PutString(c.protocol) + [c.version, FlagByte(c.flags)] + PutInt(c.keepAlive) + PutString(c.id)
    + (PutOptional(c.willTopic) + PutOptional(c.willMsg)) + (PutOptional(c.uname) + PutOptional(c.upassword))
  }

  predicate Short(v: Option<seq<byte>>, present: bool) {
    v.Some? == present && (present ==> |v.value| < TWO_16)
  }

  /** Every flagged field present, no other, and every string short enough for its length prefix. */
  predicate WellFormedConnect(c: Connect) {
    && c.flags.willQos < 4 && c.keepAlive < TWO_16 && |c.protocol| < TWO_16 && 1 <= |c.id| <= 23
    && Short(c.willTopic, c.flags.willFlag) && Short(c.willMsg, c.flags.willFlag)
    && Short(c.uname, c.flags.userName) && Short(c.upassword, c.flags.password)
  }

  lemma OptionalRoundTrip(v: Option<seq<byte>>, present: bool, rest: seq<byte>)
    requires Short(v, present)
    ensures GetOptional(present, PutOptional(v) + rest) == Got(v, rest)
    ensures |PutOptional(v)| == if present then 2 + SizeOf(v) else 0
  {
    if present {
      StringRoundTrip(v.value, rest);
    } else {
      assert [] + rest == rest;
    }
  }

  lemma PairRoundTrip(v: Option<seq<byte>>, w: Option<seq<byte>>, p: bool, q: bool, rest: seq<byte>)
    requires Short(v, p) && Short(w, q)
    ensures var pair := PutOptional(v) + PutOptional(w);
            && GetOptional(p, pair + rest) == Got(v, PutOptional(w) + rest)
            && GetOptional(q, PutOptional(w) + rest) == Got(w, rest)
            && |pair| == SizeOf(v) + SizeOf(w) + 2 * Bit(p) + 2 * Bit(q)
  {
    hide GetOptional, PutOptional;
    OptionalRoundTrip(v, p, PutOptional(w) + rest);
    OptionalRoundTrip(w, q, rest);
    assert PutOptional(v) + PutOptional(w) + rest == PutOptional(v) + (PutOptional(w) + rest);
  }

  /** Every well-formed CONNECT body is accepted, every field and flag recovered, and nothing more is read. */
  lemma ConnectBodyRoundTrip(c: Connect, rest: seq<byte>)
    requires WellFormedConnect(c)
    ensures GetConnect(PutConnect(c) + rest, |PutConnect(c)|) == Got(Connection(c), rest)
  {
    hide GetString, GetSession, PutString, FlagByte, PutOptional;
    var login := PutOptional(c.uname) + PutOptional(c.upassword);
    var will := PutOptional(c.willTopic) + PutOptional(c.willMsg);
    PairRoundTrip(c.uname, c.upassword, c.flags.userName, c.flags.password, rest);
    PairRoundTrip(c.willTopic, c.willMsg, c.flags.willFlag, c.flags.willFlag, login + rest);
    var t0 := [c.version, FlagByte(c.flags)] + (PutInt(c.keepAlive) + (PutString(c.id) + (will + (login + rest))));
    Regroup(PutString(c.protocol), [c.version, FlagByte(c.flags)], PutInt(c.keepAlive), PutString(c.id), will, login, rest);
    StringRoundTrip(c.protocol, t0);
    SessionRoundTrip(c, rest, |PutConnect(c)| - 2 - |c.protocol|);
  }

  lemma Regroup<T>(a: seq<T>, b: seq<T>, c: seq<T>, d: seq<T>, e: seq<T>, f: seq<T>, g: seq<T>)
    ensures a + b + c + d + e + f + g == a + (b + (c + (d + (e + (f + g)))))
  {
  }

  lemma SessionRoundTrip(c: Connect, rest: seq<byte>, left: int)
    requires WellFormedConnect(c)
    requires left >= 6 + |c.id| + |PutOptional(c.willTopic) + PutOptional(c.willMsg)|
                     + |PutOptional(c.uname) + PutOptional(c.upassword)|
    ensures var will := PutOptional(c.willTopic) + PutOptional(c.willMsg);
            var login := PutOptional(c.uname) + PutOptional(c.upassword);
            var t1 := PutString(c.id) + (will + (login + rest));
            GetSession([c.version, FlagByte(c.flags)] + (PutInt(c.keepAlive) + t1), c.protocol, left)
            == Got(Connection(c), rest)
  {
    hide GetString, GetInt, PutString, PutInt, ParseFlags, FlagByte, GetWill, GetLogin, PutOptional;
    var will := PutOptional(c.willTopic) + PutOptional(c.willMsg);
    var login := PutOptional(c.uname) + PutOptional(c.upassword);
    var t2 := will + (login + rest);
    var t1 := PutString(c.id) + t2;
    var s := [c.version, FlagByte(c.flags)] + (PutInt(c.keepAlive) + t1);
    assert s[1..][1..] == PutInt(c.keepAlive) + t1;
    IntRoundTrip(c.keepAlive, t1);
    FlagsRoundTrip(c.flags);
    StringRoundTrip(c.id, t2);
    PairsRead(c, rest, left - 4 - |c.id|);
  }

  lemma PairsRead(c: Connect, rest: seq<byte>, left: int)
    requires WellFormedConnect(c)
    requires left >= 2 + |PutOptional(c.willTopic) + PutOptional(c.willMsg)|
                     + |PutOptional(c.uname) + PutOptional(c.upassword)|
    ensures var will := PutOptional(c.willTopic) + PutOptional(c.willMsg);
            var login := PutOptional(c.uname) + PutOptional(c.upassword);
            var left1 := left - SizeOf(c.willTopic) - SizeOf(c.willMsg);
            && GetWill(will + (login + rest), c.flags, left)
               == Got(Strings(c.willTopic, c.willMsg, left1), login + rest)
            && GetLogin(login + rest, c.flags, left1)
               == Got(Strings(c.uname, c.upassword, left1 - SizeOf(c.uname) - SizeOf(c.upassword)), rest)
  {
    hide GetOptional, PutOptional;
    var login := PutOptional(c.uname) + PutOptional(c.upassword);
    PairRoundTrip(c.uname, c.upassword, c.flags.userName, c.flags.password, rest);
    PairRoundTrip(c.willTopic, c.willMsg, c.flags.willFlag, c.flags.willFlag, login + rest);
  }

  /** The whole frame, with any fixed-header flags. */
  lemma ConnectRoundTrip(p: Pack, rest: seq<byte>)
    requires p.msgType == CONNECT && p.variable.Connection? && p.dup < 2 && p.qos < 4 && p.retain == 0
    requires WellFormedConnect(p.variable.connect) && p.length == |PutConnect(p.variable.connect)| <= MAX_READ_LENGTH
    ensures Parse([16 + 8 * p.dup + 2 * p.qos] + EncodeVarint(p.length) + PutConnect(p.variable.connect) + rest)
            == Got(p, rest)
  {
    hide PutConnect, EncodeVarint, GetConnect;
    var body := PutConnect(p.variable.connect);
    ConnectBodyRoundTrip(p.variable.connect, rest);
    HeaderRoundTrip(p, p.length, body + rest);
    assert [16 + 8 * p.dup + 2 * p.qos] + EncodeVarint(p.length) + body + rest
        == [FixedHeader(p)] + EncodeVarint(p.length) + (body + rest);
  }

  // ---------------------------------------------------------------- what the reader takes from the header

  /** Any pack that was read has the type, dup, qos and retain of its first byte. */
  lemma HeaderIsRead(s: seq<byte>)
    requires Parse(s).Got?
    ensures var p := Parse(s).value;
            |s| >= 2 && s[0] == 16 * p.msgType + 8 * p.dup + 2 * p.qos + p.retain
            && p.dup < 2 && p.qos < 4 && p.retain < 2 && p.length == GetLength(s[1..], 3).value
  {
    hide GetVariable, GetLength;
    NoLength();
    assert s != [];
    assert s[1..] == [] || |s| > 1;
    HeaderDigits(s[0]);
  }

  lemma NoLength()
    ensures GetLength([], 3).Failed?
  {
  }

  lemma HeaderDigits(b: byte)
    ensures b == 16 * (b / 16) + 8 * (b / 8 % 2) + 2 * (b / 2 % 4) + b % 2
  {
    assert b == 2 * (b / 2) + b % 2 && b / 2 == 4 * (b / 8) + b / 2 % 4 && b / 8 == 2 * (b / 16) + b / 8 % 2;
  }

  /** The low seven bits of `b` and `more` above them. */
  function Digit(b: byte, more: nat): (n: nat) {
    b % 128 + 128 * more
  }

  ghost predicate IsLength(s: seq<byte>, left: nat, value: nat, len: nat)
    requires left > 0
  {
    var r := GetLength(s, left);
    r.Got? && r.value == value && len <= |s| && r.rest == s[len..]
  }

  lemma LastDigit(s: seq<byte>, left: nat)
    requires left > 0 && s != [] && (s[0] < 128 || left == 1)
    ensures IsLength(s, left, Digit(s[0], 0), 1)
  {
  }

  lemma MoreDigits(s: seq<byte>, left: nat, v: nat, n: nat)
    requires left > 1 && s != [] && s[0] >= 128 && IsLength(s[1..], left - 1, v, n)
    ensures IsLength(s, left, Digit(s[0], v), 1 + n)
  {
    assert s[1..][n..] == s[1 + n..];
  }

  lemma MustGoOn(s: seq<byte>, left: nat)
    requires left > 0 && GetLength(s, left).Got?
    ensures s != [] && (s[0] >= 128 && left > 1 ==> GetLength(s[1..], left - 1).Got?)
  {
  }

  /** One, two or three length bytes, minimal or not; the third is the last whatever its top bit. */
  lemma LengthMeans(s: seq<byte>)
    requires GetLength(s, 3).Got?
    ensures s != []
    ensures if s[0] < 128 then IsLength(s, 3, Digit(s[0], 0), 1)
            else |s| > 1 && if s[1] < 128 then IsLength(s, 3, Digit(s[0], Digit(s[1], 0)), 2)
            else |s| > 2 && IsLength(s, 3, Digit(s[0], Digit(s[1], Digit(s[2], 0))), 3)
  {
    hide GetLength, IsLength, Digit;
    MustGoOn(s, 3);
    if s[0] < 128 {
      LastDigit(s, 3);
    } else {
      var t := s[1..];
      MustGoOn(t, 2);
      if t[0] < 128 {
        LastDigit(t, 2);
        MoreDigits(s, 3, Digit(t[0], 0), 1);
      } else {
        var u := t[1..];
        MustGoOn(u, 1);
        LastDigit(u, 1);
        MoreDigits(t, 2, Digit(u[0], 0), 1);
        MoreDigits(s, 3, Digit(t[0], Digit(u[0], 0)), 2);
      }
    }
  }

  /** A header that ends before its last length byte: the stream is used up and the end of it reported. */
  lemma HeaderCutShort(s: seq<byte>)
    requires |s| <= 3 && forall i :: 0 < i < |s| ==> s[i] >= 128
    ensures Parse(s) == Failed(EOF, [])
  {
    hide GetVariable, GetLength;
    if s != [] {
      LengthCutShort(s[1..], 3);
    }
  }

  lemma {:induction false} LengthCutShort(s: seq<byte>, left: nat)
    requires |s| < left && forall i :: 0 <= i < |s| ==> s[i] >= 128
    ensures GetLength(s, left) == Failed(EOF, [])
    decreases left
  {
    if s != [] {
      LengthCutShort(s[1..], left - 1);
    }
  }

  /** A first byte and a length, and then the variable part for that type. */
  lemma HeaderRead(b: byte, n: nat, tail: seq<byte>)
    requires n <= MAX_READ_LENGTH
    ensures Parse([b] + EncodeVarint(n) + tail) == Headed(b, n, GetVariable(tail, b / 16, b / 2 % 4, n))
  {
    hide GetVariable, EncodeVarint, GetLength, Pow2;
    ThreeBytes();
    LengthRoundTrip(n, 3, tail);
    assert [b] + EncodeVarint(n) + tail == [b] + (EncodeVarint(n) + tail);
    MqttRoundTrip.ParsedAs([b] + EncodeVarint(n) + tail, b, EncodeVarint(n) + tail, n, tail);
  }

  /** A heart beat and a DISCONNECT, whatever their flags and length: exactly the header is taken. */
  lemma HeartBeat(b: byte, n: nat, rest: seq<byte>)
    requires b / 16 == 12 || b / 16 == 14
    requires n <= MAX_READ_LENGTH
    ensures Parse([b] + EncodeVarint(n) + rest) == Got(Pack(b / 16, b / 8 % 2, b / 2 % 4, b % 2, n, Nothing), rest)
  {
    hide Parse, EncodeVarint, GetConnect, GetPublish, GetTopics;
    HeaderRead(b, n, rest);
  }

  /** The types without a reader of their own: their declared bytes are passed over, if they are there. */
  lemma OtherTypes(b: byte, payload: seq<byte>, rest: seq<byte>, n: nat)
    requires b / 16 in {0, 2, 13, 15} && n <= MAX_READ_LENGTH
    ensures n == |payload| ==>
              Parse([b] + EncodeVarint(n) + (payload + rest)) == Got(Pack(b / 16, b / 8 % 2, b / 2 % 4, b % 2, n, Nothing), rest)
    ensures n > |payload| ==> Parse([b] + EncodeVarint(n) + payload) == Failed(EOF, [])
  {
    hide Parse, EncodeVarint, GetConnect, GetPublish, GetTopics;
    HeaderRead(b, n, payload + rest);
    HeaderRead(b, n, payload);
    BytesRoundTrip(payload, rest);
  }

  /** Acknowledgements of any other length than their own, and those cut short. */
  lemma AcksRefused(b: byte, n: nat, rest: seq<byte>)
    requires b / 16 in {4, 5, 6, 7, 9, 11} && n <= MAX_READ_LENGTH
    ensures var own, r := if b / 16 == 9 then 3 else 2, Parse([b] + EncodeVarint(n) + rest);
            && (n != own ==> r == Failed(WrongLength, rest))
            && (n == own && |rest| < own ==> r == Failed(EOF, []))
  {
    hide Parse, EncodeVarint, GetConnect, GetPublish, GetTopics;
    HeaderRead(b, n, rest);
  }

  /** A PUBLISH without a topic, or whose length leaves fewer than two bytes after it. */
  lemma PublishRefused(b: byte, n: nat, topic: seq<byte>, rest: seq<byte>)
    requires b / 16 == 3 && n <= MAX_READ_LENGTH && |topic| < TWO_16
    requires topic == [] || n < |topic| + 4
    ensures Parse([b] + EncodeVarint(n) + (PutString(topic) + rest)) == Failed(LengthError, rest)
  {
    hide Parse, EncodeVarint, GetConnect, GetTopics, GetString, PutString;
    HeaderRead(b, n, PutString(topic) + rest);
    StringRoundTrip(topic, rest);
  }

  /** The first topic of a list cut short by the end of the stream: an UNSUBSCRIBE keeps it, filled up with zero
    * bytes, and a SUBSCRIBE drops it; neither reports an error.
    */
  lemma TopicCutShort(n: nat, name: seq<byte>, left: int, withQos: bool)
    requires |name| < n < TWO_16 && left > 3
    ensures GetTopics(PutInt(n) + name, left, withQos) ==
            (if withQos then [] else [Topic(name + seq(n - |name|, _ => 0), 0)], [])
  {
    hide GetInt, PutInt;
    IntRoundTrip(n, name);
    assert n % TWO_16 == n;
    assert Padded(name, n) == name + seq(n - |name|, _ => 0) && After(name, n) == [];
    NothingLeftAtAll(left - 2 - n, withQos);
    assert [Topic(name + seq(n - |name|, _ => 0), 0)] + [] == [Topic(name + seq(n - |name|, _ => 0), 0)];
  }

  lemma NothingLeftAtAll(left: int, withQos: bool)
    ensures GetTopics([], left, withQos) == ([], [])
  {
  }

  // ---------------------------------------------------------------- CONNECT, from the bytes

  lemma FlagsOfByte(b: byte)
    ensures ParseFlags(b).willQos < 4 && FlagByte(ParseFlags(b)) == b
  {
    hide Bit;
    var b1 := b % 128;
    var b2 := b1 % 64;
    var b3 := b2 % 32;
    var b4 := b3 % 8;
    var b5 := b4 % 4;
    OneBit(b / 128);
    OneBit(b1 / 64);
    OneBit(b2 / 32);
    OneBit(b4 / 4);
    OneBit(b5 / 2);
    OneBit(b5 % 2);
  }

  lemma OneBit(x: nat)
    requires x < 2
    ensures Bit(x != 0) == x
  {
  }

  lemma IntOfBytes(s: seq<byte>)
    requires GetInt(s).Got?
    ensures s == PutInt(GetInt(s).value) + GetInt(s).rest
  {
    var n := 256 * (s[0] as int) + s[1];
    assert n / 256 == s[0] && n % 256 == s[1];
    assert s == s[..2] + s[2..] && s[..2] == [s[0], s[1]];
  }

  lemma StringOfBytes(s: seq<byte>)
    requires GetString(s).Got?
    ensures s == PutString(GetString(s).value) + GetString(s).rest
  {
    hide GetInt, PutInt;
    IntOfBytes(s);
    var n, tail := GetInt(s).value, GetInt(s).rest;
    assert tail == tail[..n] + tail[n..];
    assert PutInt(n) + (tail[..n] + tail[n..]) == PutInt(n) + tail[..n] + tail[n..];
  }

  lemma OptionalOfBytes(present: bool, s: seq<byte>)
    requires GetOptional(present, s).Got?
    ensures var r := GetOptional(present, s);
            s == PutOptional(r.value) + r.rest && r.value.Some? == present && (present ==> |r.value.value| < TWO_16)
  {
    hide GetString, PutString;
    if present {
      StringOfBytes(s);
    } else {
      assert [] + s == s;
    }
  }

  lemma WillOfBytes(s: seq<byte>, flags: Flags, left: int)
    requires GetWill(s, flags, left).Got?
    ensures var r := GetWill(s, flags, left);
            && s == PutOptional(r.value.first) + PutOptional(r.value.second) + r.rest
            && Short(r.value.first, flags.willFlag) && Short(r.value.second, flags.willFlag)
  {
    hide GetOptional, PutOptional;
    OptionalOfBytes(flags.willFlag, s);
    var s1 := GetOptional(flags.willFlag, s).rest;
    OptionalOfBytes(flags.willFlag, s1);
  }

  lemma LoginOfBytes(s: seq<byte>, flags: Flags, left: int)
    requires GetLogin(s, flags, left).Got?
    ensures var r := GetLogin(s, flags, left);
            && s == PutOptional(r.value.first) + PutOptional(r.value.second) + r.rest
            && Short(r.value.first, flags.userName && left > 0)
            && Short(r.value.second, flags.password && left > SizeOf(r.value.first))
  {
    hide GetOptional, PutOptional;
    OptionalOfBytes(flags.userName && left > 0, s);
    var uname, s1 := GetOptional(flags.userName && left > 0, s).value, GetOptional(flags.userName && left > 0, s).rest;
    OptionalOfBytes(flags.password && left - SizeOf(uname) > 0, s1);
  }

  /** What holds of a CONNECT that was read, besides where its bytes went. */
  predicate ReadConnect(c: Connect) {
    && c.flags.willQos < 4 && c.keepAlive < TWO_16 && |c.protocol| < TWO_16 && 1 <= |c.id| <= 23
    && Short(c.willTopic, c.flags.willFlag) && Short(c.willMsg, c.flags.willFlag)
    && (c.uname.Some? ==> c.flags.userName) && (c.upassword.Some? ==> c.flags.password)
  }

  /** A CONNECT that is accepted was written as this very one: its fields are those of the bytes in their places, its
    * identifier has 1 to 23 bytes, and the will is there exactly if it is flagged.
    */
  lemma ConnectOfBytes(s: seq<byte>, length: nat)
    requires GetConnect(s, length).Got?
    ensures var r := GetConnect(s, length);
            r.value.Connection? && ReadConnect(r.value.connect) && |r.value.connect.protocol| <= length - 4
            && s == PutConnect(r.value.connect) + r.rest
  {
    hide GetString, PutString, GetSession, PutConnect;
    StringOfBytes(s);
    var protocol, s1 := GetString(s).value, GetString(s).rest;
    SessionOfBytes(s1, protocol, length - 2 - |protocol|);
    ConnectBytes(GetConnect(s, length).value.connect, GetConnect(s, length).rest);
  }

  function PutSession(c: Connect): (s: seq<byte>)
    requires c.flags.willQos < 4
  {
    [c.version, FlagByte(c.flags)] + (PutInt(c.keepAlive) + (PutString(c.id)
    + (PutOptional(c.willTopic) + PutOptional(c.willMsg) + (PutOptional(c.uname) + PutOptional(c.upassword)))))
  }

  lemma ConnectBytes(c: Connect, rest: seq<byte>)
    requires c.flags.willQos < 4
    ensures PutConnect(c) + rest == PutString(c.protocol) + (PutSession(c) + rest)
  {
    hide PutString, PutInt, FlagByte, PutOptional;
    var a, b := PutOptional(c.willTopic) + PutOptional(c.willMsg), PutOptional(c.uname) + PutOptional(c.upassword);
    Grouped(PutString(c.protocol), [c.version, FlagByte(c.flags)], PutInt(c.keepAlive), PutString(c.id), a, b, rest);
  }

  lemma Grouped<T>(p: seq<T>, v: seq<T>, k: seq<T>, i: seq<T>, a: seq<T>, b: seq<T>, rest: seq<T>)
    ensures p + v + k + i + a + b + rest == p + (v + (k + (i + (a + b))) + rest)
  {
    Regroup(p, v, k, i, a, b, rest);
    assert v + (k + (i + (a + b))) + rest == v + (k + (i + (a + (b + rest))));
  }

  lemma SessionOfBytes(s: seq<byte>, protocol: seq<byte>, left: int)
    requires GetSession(s, protocol, left).Got? && |protocol| < TWO_16
    ensures var r := GetSession(s, protocol, left);
            r.value.Connection? && r.value.connect.protocol == protocol && ReadConnect(r.value.connect)
            && s == PutSession(r.value.connect) + r.rest
  {
    hide GetString, GetInt, PutString, PutInt, ParseFlags, FlagByte, GetWill, GetLogin, PutOptional, GetByte;
    TwoHeads(s);
    var s2 := s[1..][1..];
    FlagsOfByte(s[1]);
    IntOfBytes(s2);
    var s3 := GetInt(s2).rest;
    StringOfBytes(s3);
    var id, s4, flags := GetString(s3).value, GetString(s3).rest, ParseFlags(s[1]);
    WillOfBytes(s4, flags, left - 4 - |id|);
    var will := GetWill(s4, flags, left - 4 - |id|);
    LoginOfBytes(will.rest, flags, will.value.left);
    var login := GetLogin(will.rest, flags, will.value.left);
    Nested([s[0], s[1]], PutInt(GetInt(s2).value), PutString(id), PutOptional(will.value.first) + PutOptional(will.value.second),
           PutOptional(login.value.first) + PutOptional(login.value.second), login.rest);
  }

  lemma TwoHeads(s: seq<byte>)
    ensures GetByte(s).Got? ==> s != [] && GetByte(s) == Got(s[0], s[1..])
    ensures GetByte(s).Failed? <==> s == []
    ensures |s| >= 1 ==> (GetByte(s[1..]).Failed? <==> |s| == 1)
    ensures |s| >= 2 ==> GetByte(s[1..]) == Got(s[1], s[1..][1..]) && s == [s[0], s[1]] + s[1..][1..]
  {
  }

  lemma Nested<T>(v: seq<T>, k: seq<T>, i: seq<T>, a: seq<T>, b: seq<T>, rest: seq<T>)
    ensures v + (k + (i + (a + (b + rest)))) == v + (k + (i + (a + b))) + rest
  {
  }

  /** A client identifier that is empty or longer than 23 bytes, and a protocol name that leaves no room. */
  lemma ConnectRefused(protocol: seq<byte>, version: byte, flags: byte, keepAlive: nat, id: seq<byte>, rest: seq<byte>,
                       length: nat)
    requires |protocol| < TWO_16 && |id| < TWO_16
    ensures |protocol| > length - 4 ==> GetConnect(PutString(protocol) + rest, length) == Failed(OutOfRange, rest)
    ensures |protocol| <= length - 4 && (id == [] || |id| > 23) ==>
              GetConnect(PutString(protocol) + ([version, flags] + (PutInt(keepAlive) + (PutString(id) + rest))), length)
              == Failed(IdentifierRejected, rest)
  {
    hide GetString, GetInt, PutString, PutInt, ParseFlags, GetWill, GetLogin;
    StringRoundTrip(protocol, rest);
    var t := PutInt(keepAlive) + (PutString(id) + rest);
    StringRoundTrip(protocol, [version, flags] + t);
    assert ([version, flags] + t)[1..][1..] == t;
    IntRoundTrip(keepAlive, PutString(id) + rest);
    StringRoundTrip(id, rest);
  }

  /** The will is read exactly if it is flagged, and refused exactly if its topic is longer than what the count has
    * left; its message is not held against the count until the login is.
    */
  lemma WillExactly(flags: Flags, topic: Option<seq<byte>>, msg: Option<seq<byte>>, left: int, rest: seq<byte>)
    requires Short(topic, flags.willFlag) && Short(msg, flags.willFlag)
    ensures GetWill(PutOptional(topic) + PutOptional(msg) + rest, flags, left) ==
            if flags.willFlag && left < SizeOf(topic) then Failed(LengthError, PutOptional(msg) + rest)
            else Got(Strings(topic, msg, left - SizeOf(topic) - SizeOf(msg)), rest)
  {
    hide GetOptional, PutOptional;
    PairRoundTrip(topic, msg, flags.willFlag, flags.willFlag, rest);
  }

  /** A flagged name is read exactly if the count has anything left, and refused exactly if it is longer than that. */
  lemma NameExactly(flags: Flags, uname: seq<byte>, left: int, rest: seq<byte>)
    requires flags.userName && !flags.password && |uname| < TWO_16
    ensures GetLogin(PutString(uname) + rest, flags, left) ==
            if left <= 0 then Got(Strings(None, None, left), PutString(uname) + rest)
            else if left < |uname| then Failed(LengthError, rest)
            else Got(Strings(Some(uname), None, left - |uname|), rest)
  {
    hide GetString, PutString;
    StringRoundTrip(uname, rest);
  }

  /** A flagged password likewise, after the name. */
  lemma PasswordExactly(flags: Flags, uname: Option<seq<byte>>, upassword: seq<byte>, left: int, rest: seq<byte>)
    requires flags.password && Short(uname, flags.userName) && |upassword| < TWO_16
    requires flags.userName ==> left > 0 && left >= SizeOf(uname)
    ensures var left' := left - SizeOf(uname);
            GetLogin(PutOptional(uname) + (PutString(upassword) + rest), flags, left) ==
            if left' <= 0 then Got(Strings(uname, None, left'), PutString(upassword) + rest)
            else if left' < |upassword| then Failed(LengthError, rest)
            else Got(Strings(uname, Some(upassword), left' - |upassword|), rest)
  {
    hide GetString, PutString;
    OptionalRoundTrip(uname, flags.userName, PutString(upassword) + rest);
    StringRoundTrip(upassword, rest);
  }

  // ---------------------------------------------------------------- what the writer puts where

  /** The bytes of every small pack by position, CONNACK included, which the reader of this program never reads. */
  lemma SmallPackLayout(p: Pack)
    requires Matches(p)
    ensures var b := 16 * p.msgType + 8 * p.dup + 2 * p.qos;
            match p.variable
            case Connack(reserved, returnCode) => b == 32 + 8 * p.dup + 2 * p.qos && Bytes(p) == [b, 2, reserved, returnCode]
            case Puback(mid) => Bytes(p) == [b, 2, mid / 256 % 256, mid % 256]
            case Suback(mid, qos) => b == 144 + 8 * p.dup + 2 * p.qos && Bytes(p) == [b, 3, mid / 256 % 256, mid % 256, qos]
            case Unsuback(mid) => b == 176 + 8 * p.dup + 2 * p.qos && Bytes(p) == [b, 2, mid / 256 % 256, mid % 256]
            case Nothing => Bytes(p) == if p.msgType == 13 then [b, 0] else [b]
            case Connection(_) => Bytes(p) == [16 + 8 * p.dup + 2 * p.qos]
            case _ => true
  {
    assert EncodeVarint(2) == [2] && EncodeVarint(3) == [3] && EncodeVarint(0) == [0];
  }

  /** Topic, id and payload of a PUBLISH; the id only above QoS 0. */
  lemma PublishLayout(p: Pack)
    requires Matches(p) && p.variable.Publish?
    ensures var Publish(topic, mid, msg) := p.variable;
            var id := if p.qos > 0 then [mid / 256 % 256, mid % 256] else [];
            Bytes(p) == [48 + 8 * p.dup + 2 * p.qos] + EncodeVarint(2 + |topic| + |id| + |msg|)
                        + ([|topic| / 256 % 256, |topic| % 256] + topic + id + msg)
  {
    hide EncodeVarint;
  }

  /** A SUBSCRIBE or UNSUBSCRIBE of one topic; the length written leaves out the two bytes of the id. */
  lemma TopicLayout(p: Pack, t: Topic)
    requires Matches(p) && |t.name| < 120
    requires p.variable.Subscribe? || p.variable.Unsubscribe?
    requires p.variable.topics == [t]
    ensures var b, mid, n := 8 * p.dup + 2 * p.qos, p.variable.mid, |t.name|;
            Bytes(p) == if p.variable.Subscribe? then [128 + b, n + 3, mid / 256 % 256, mid % 256, 0, n] + t.name + [t.qos]
                        else [160 + b, n + 2, mid / 256 % 256, mid % 256, 0, n] + t.name
  {
    hide Body;
    assert EncodeVarint(|t.name| + 3) == [|t.name| + 3] && EncodeVarint(|t.name| + 2) == [|t.name| + 2];
    OneTopic(t);
    TopicBody(p, t);
  }

  lemma OneTopic(t: Topic)
    ensures TopicsSize([t], true) == |t.name| + 3 && TopicsSize([t], false) == |t.name| + 2
    ensures PutTopics([t], true) == PutString(t.name) + [t.qos] && PutTopics([t], false) == PutString(t.name)
  {
    assert [t][1..] == [];
    assert PutString(t.name) + [t.qos] + [] == PutString(t.name) + [t.qos];
    assert PutString(t.name) + [] + [] == PutString(t.name);
    assert PutTopics([], true) == [] == PutTopics([], false);
  }

  lemma TopicBody(p: Pack, t: Topic)
    requires Matches(p) && |t.name| < 120
    requires p.variable.Subscribe? || p.variable.Unsubscribe?
    requires p.variable.topics == [t]
    ensures var mid, n := p.variable.mid, |t.name|;
            Body(p) == if p.variable.Subscribe? then [mid / 256 % 256, mid % 256, 0, n] + t.name + [t.qos]
                       else [mid / 256 % 256, mid % 256, 0, n] + t.name
  {
    hide PutTopics;
    OneTopic(t);
    assert PutInt(|t.name|) == [0, |t.name|];
  }
}
