/** MQTT packs as bytes: what the writer emits and what the reader makes of any bytes. */
module Mqtt {
  import opened Common
  import opened Wire

  const CONNECT := 1
  const CONNACK := 2
  const PUBLISH := 3
  const PUBACK := 4
  const PUBREC := 5
  const PUBREL := 6
  const PUBCOMP := 7
  const SUBSCRIBE := 8
  const SUBACK := 9
  const UNSUBSCRIBE := 10
  const UNSUBACK := 11
  const PINGREQ := 12
  const PINGRESP := 13
  const DISCONNECT := 14

  /** The reader takes at most three length bytes. */
  const MAX_READ_LENGTH: nat := 2_097_151
  /** The writer has room for four. */
  const MAX_WRITE_LENGTH: nat := 268_435_455
  const TWO_16: int := 65536

  datatype Flags = Flags(userName: bool, password: bool, willRetain: bool, willQos: nat, willFlag: bool,
                         cleanSession: bool, reserved: bool)

  datatype Connect = Connect(protocol: seq<byte>, version: byte, flags: Flags, keepAlive: nat, id: seq<byte>,
                             willTopic: Option<seq<byte>>, willMsg: Option<seq<byte>>,
                             uname: Option<seq<byte>>, upassword: Option<seq<byte>>)

  datatype Topic = Topic(name: seq<byte>, qos: byte)

  datatype Variable =
    | Nothing
    | Connection(connect: Connect)
    | Connack(reserved: byte, returnCode: byte)
    | Publish(topic: seq<byte>, mid: int, msg: seq<byte>)
    | Puback(mid: int)
    | Subscribe(mid: int, topics: seq<Topic>)
    | Suback(mid: int, qos: byte)
    | Unsubscribe(mid: int, topics: seq<Topic>)
    | Unsuback(mid: int)

  datatype Pack = Pack(msgType: nat, dup: nat, qos: nat, retain: nat, length: nat, variable: Variable)

  datatype ReadError = EOF | OutOfRange | IdentifierRejected | LengthError | WrongLength

  /** A read from the front of a stream: a value or an error, and what is left unread. */
  datatype Read<+T> = Got(value: T, rest: seq<byte>) | Failed(error: ReadError, rest: seq<byte>) {
    predicate IsFailure() {
      Failed?
    }

    function PropagateFailure<U>(): (r: Read<U>)
      requires Failed?
    {
      Failed(error, rest)
    }

    function Extract(): (t: (T, seq<byte>))
      requires Got?
    {
      (value, rest)
    }
  }

  // ---------------------------------------------------------------- reading

  function GetByte(s: seq<byte>): (r: Read<byte>) {
    if s == [] then Failed(EOF, []) else Got(s[0], s[1..])
  }

  /** `io.ReadFull` into a buffer of `n` bytes. */
  function GetBytes(s: seq<byte>, n: nat): (r: Read<seq<byte>>) {
    if |s| < n then Failed(EOF, []) else Got(s[..n], s[n..])
  }

  /** A big-endian 16-bit number. */
  function GetInt(s: seq<byte>): (r: Read<nat>)
    ensures if r.Got? then r.value < TWO_16 && |s| == 2 + |r.rest| else r.rest == []
  {
    var (b, rest) :- GetBytes(s, 2);
    Got(256 * (b[0] as int) + b[1], rest)
  }

  function GetString(s: seq<byte>): (r: Read<seq<byte>>)
    ensures r.Got? ==> |r.value| < TWO_16
  {
    var (n, rest) :- GetInt(s);
    GetBytes(rest, n)
  }

  /** The Remaining Length field, of at most `left` bytes. */
  function GetLength(s: seq<byte>, left: nat): (r: Read<nat>)
    requires left > 0
    ensures r.Got? ==> |r.rest| < |s|
    decreases left
  {
    var (b, rest) :- GetByte(s);
    if b < 128 || left == 1 then Got(b % 128, rest)
    else
      var (high, rest') :- GetLength(rest, left - 1);
      Got(b % 128 + 128 * high, rest')
  }

  /** The flag bits, from the top; `b & 127` and so on are written as remainders. */
  function ParseFlags(b: byte): (f: Flags) {
    var b1 := b % 128;
    var b2 := b1 % 64;
    var b3 := b2 % 32;
    var b4 := b3 % 8;
    var b5 := b4 % 4;
    Flags(b / 128 != 0, b1 / 64 != 0, b2 / 32 != 0, b3 / 8, b4 / 4 != 0, b5 / 2 != 0, b5 % 2 != 0)
  }

  function GetOptional(present: bool, s: seq<byte>): (r: Read<Option<seq<byte>>>) {
    if !present then Got(None, s)
    else
      var (v, rest) :- GetString(s);
      Got(Some(v), rest)
  }

  function SizeOf(v: Option<seq<byte>>): (n: nat) {
    if v.None? then 0 else |v.value|
  }

  function GetConnect(s: seq<byte>, length: nat): (r: Read<Variable>) {
    var (protocol, s1) :- GetString(s);
    if |protocol| > length - 4 then Failed(OutOfRange, s1)
    else GetSession(s1, protocol, length - 2 - |protocol|)
  }

  /** The rest of a CONNECT, after the protocol name. */
  function GetSession(s: seq<byte>, protocol: seq<byte>, left: int): (r: Read<Variable>) {
    var (version, s1) :- GetByte(s);
    var (flagByte, s2) :- GetByte(s1);
    var (keepAlive, s3) :- GetInt(s2);
    var flags := ParseFlags(flagByte);
    var (id, s4) :- GetString(s3);
    if |id| > 23 || |id| < 1 then Failed(IdentifierRejected, s4)
    else
      var (will, s5) :- GetWill(s4, flags, left - 4 - |id|);
      var (login, s6) :- GetLogin(s5, flags, will.left);
      Got(Connection(Connect(protocol, version, flags, keepAlive, id, will.first, will.second,
                             login.first, login.second)), s6)
  }

  /** Two optional strings and what is left of the payload count, from which the program subtracts the
    * strings but not their two-byte length prefixes.
    */
  datatype Strings = Strings(first: Option<seq<byte>>, second: Option<seq<byte>>, left: int)

  function GetWill(s: seq<byte>, flags: Flags, left: int): (r: Read<Strings>) {
    var (topic, s1) :- GetOptional(flags.willFlag, s);
    var left1 := left - SizeOf(topic);
    if flags.willFlag && left1 < 0 then Failed(LengthError, s1)
    else
      var (msg, s2) :- GetOptional(flags.willFlag, s1);
      Got(Strings(topic, msg, left1 - SizeOf(msg)), s2)
  }

  function GetLogin(s: seq<byte>, flags: Flags, left: int): (r: Read<Strings>) {
    var (uname, s1) :- GetOptional(flags.userName && left > 0, s);
    var left1 := left - SizeOf(uname);
    if uname.Some? && left1 < 0 then Failed(LengthError, s1)
    else
      var (upassword, s2) :- GetOptional(flags.password && left1 > 0, s1);
      var left2 := left1 - SizeOf(upassword);
      if upassword.Some? && left2 < 0 then Failed(LengthError, s2)
      else Got(Strings(uname, upassword, left2), s2)
  }

  function GetPublish(s: seq<byte>, length: nat, qos: nat): (r: Read<Variable>) {
    var (topic, s1) :- GetString(s);
    var left := length - |topic| - 2;
    if |topic| < 1 || left < 2 then Failed(LengthError, s1)
    else if qos > 0 then
      var (mid, s2) :- GetInt(s1);
      var (msg, s3) :- GetBytes(s2, left - 2);
      Got(Publish(topic, mid, msg), s3)
    else
      var (msg, s2) :- GetBytes(s1, left);
      Got(Publish(topic, 0, msg), s2)
  }

  /** A buffer of `n` bytes after a read from `s` whose error is ignored, and what the read left. */
  function Padded(s: seq<byte>, n: nat): (b: seq<byte>)
    ensures |b| == n && (n <= |s| ==> b == s[..n])
  {
    if n <= |s| then s[..n] else s + seq(n - |s|, _ => 0)
  }

  function After(s: seq<byte>, n: nat): (rest: seq<byte>)
    ensures rest != [] ==> |s| == n + |rest|
  {
    if n <= |s| then s[n..] else []
  }

  /** The topics of a SUBSCRIBE (`withQos`) or UNSUBSCRIBE, while more than three of `left` bytes remain.
    * A truncated stream ends the list without an error; a name cut short is filled up with zero bytes,
    * and is then kept only if no QoS byte has to follow it.
    */
  function GetTopics(s: seq<byte>, left: int, withQos: bool): (r: (seq<Topic>, seq<byte>))
    decreases left
  {
    if left <= 3 then ([], s)
    else
      match GetInt(s)
      case Failed(_, rest) => ([], rest)
      case Got(n, s1) =>
        var s2 := After(s1, n);
        if !withQos then
          var more := GetTopics(s2, left - 2 - n, withQos);
          ([Topic(Padded(s1, n), 0)] + more.0, more.1)
        else if s2 == [] then ([], [])
        else
          var more := GetTopics(s2[1..], left - 2 - n - 1, withQos);
          ([Topic(Padded(s1, n), s2[0])] + more.0, more.1)
  }

  function GetVariable(s: seq<byte>, msgType: nat, qos: nat, length: nat): (r: Read<Variable>) {
    if msgType == CONNECT then GetConnect(s, length)
    else if msgType == PUBLISH then GetPublish(s, length, qos)
    else if PUBACK <= msgType <= PUBCOMP || msgType == UNSUBACK then
      if length != 2 then Failed(WrongLength, s)
      else
        var (mid, s1) :- GetInt(s);
        Got(if msgType == UNSUBACK then Unsuback(mid) else Puback(mid), s1)
    else if msgType == SUBACK then
      if length != 3 then Failed(WrongLength, s)
      else
        var (mid, s1) :- GetInt(s);
        var (q, s2) :- GetByte(s1);
        Got(Suback(mid, q), s2)
    else if msgType == SUBSCRIBE || msgType == UNSUBSCRIBE then
      var (mid, s1) :- GetInt(s);
      var (topics, s2) := GetTopics(s1, length, msgType == SUBSCRIBE);
      Got(if msgType == SUBSCRIBE then Subscribe(mid, topics) else Unsubscribe(mid, topics), s2)
    else if msgType == PINGREQ || msgType == DISCONNECT then Got(Nothing, s)
    else
      var (_, s1) :- GetBytes(s, length);
      Got(Nothing, s1)
  }

  /** One pack from the front of `s`. */
  function Parse(s: seq<byte>): (r: Read<Pack>) {
    var (fixed, s1) :- GetByte(s);
    var (length, s2) :- GetLength(s1, 3);
    var msgType, qos := fixed / 16, fixed / 2 % 4;
    var (variable, s3) :- GetVariable(s2, msgType, qos, length);
    Got(Pack(msgType, fixed / 8 % 2, qos, fixed % 2, length, variable), s3)
  }

  // ---------------------------------------------------------------- writing

  /** `writeInt`: the low 16 bits, big-endian. */
  function PutInt(i: int): (s: seq<byte>)
    ensures |s| == 2
  {
    [i / 256 % 256, i % 256]
  }

  function PutString(v: seq<byte>): (s: seq<byte>)
    ensures |s| == 2 + |v|
  {
    PutInt(|v|) + v
  }

  function PutTopics(topics: seq<Topic>, withQos: bool): (s: seq<byte>)
    ensures |s| == TopicsSize(topics, withQos)
  {
    if topics == [] then []
    else
      PutString(topics[0].name) + (if withQos then [topics[0].qos] else []) + PutTopics(topics[1..], withQos)
  }

  function TopicsSize(topics: seq<Topic>, withQos: bool): (n: nat) {
    if topics == [] then 0
    else 2 + |topics[0].name| + (if withQos then 1 else 0) + TopicsSize(topics[1..], withQos)
  }

  /** The type assertion the writer makes on the variable part. */
  predicate Matches(p: Pack) {
    && p.msgType < 16 && p.dup < 2 && p.qos < 4
    && (p.msgType == CONNACK <==> p.variable.Connack?)
    && (p.msgType == PUBLISH <==> p.variable.Publish?)
    && (PUBACK <= p.msgType <= PUBCOMP <==> p.variable.Puback?)
    && (p.msgType == SUBSCRIBE <==> p.variable.Subscribe?)
    && (p.msgType == SUBACK <==> p.variable.Suback?)
    && (p.msgType == UNSUBSCRIBE <==> p.variable.Unsubscribe?)
    && (p.msgType == UNSUBACK <==> p.variable.Unsuback?)
    && (p.msgType == CONNECT <==> p.variable.Connection?)
  }

  /** The length the writer declares. For SUBSCRIBE and UNSUBSCRIBE it leaves out the message id. */
  function DeclaredLength(p: Pack): (n: nat) {
    match p.variable
    case Publish(topic, _, msg) => 2 + |topic| + (if p.qos > 0 then 2 else 0) + |msg|
    case Subscribe(_, topics) => TopicsSize(topics, true)
    case Unsubscribe(_, topics) => TopicsSize(topics, false)
    case Suback(_, _) => 3
    case Nothing => 0
    case Connection(_) => 0
    case _ => 2
  }

  /** What follows the length. */
  function Body(p: Pack): (s: seq<byte>) {
    match p.variable
    case Connack(reserved, returnCode) => [reserved, returnCode]
    case Publish(topic, mid, msg) => PutString(topic) + (if p.qos > 0 then PutInt(mid) else []) + msg
    case Puback(mid) => PutInt(mid)
    case Subscribe(mid, topics) => PutInt(mid) + PutTopics(topics, true)
    case Suback(mid, qos) => PutInt(mid) + [qos]
    case Unsubscribe(mid, topics) => PutInt(mid) + PutTopics(topics, false)
    case Unsuback(mid) => PutInt(mid)
    case Nothing => []
    case Connection(_) => []
  }

  /** All length bytes for PUBLISH; only the first for the others; none for types the writer does not list. */
  function LengthBytes(p: Pack): (s: seq<byte>) {
    if p.msgType == PUBLISH then EncodeVarint(DeclaredLength(p))
    else if CONNACK <= p.msgType <= UNSUBACK || p.msgType == PINGRESP then [EncodeVarint(DeclaredLength(p))[0]]
    else []
  }

  function FixedHeader(p: Pack): (b: byte)
    requires Matches(p)
  {
    16 * p.msgType + 8 * p.dup + 2 * p.qos
  }

  function Bytes(p: Pack): (s: seq<byte>)
    requires Matches(p)
  {
    [FixedHeader(p)] + LengthBytes(p) + Body(p)
  }
}
