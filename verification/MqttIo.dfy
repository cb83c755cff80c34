/** Reading packs from a stream and writing them to a buffer, step by step. */
module MqttIo {
  import opened Common
  import opened Wire
  import opened Mqtt

  /** A `bufio.Reader`: the bytes not read yet. */
  class Reader {
    var unread: seq<byte>

    constructor (s: seq<byte>)
      ensures unread == s
    {
      unread := s;
    }
  }

  /** A `bufio.Writer`: the bytes written so far. Its own I/O errors are not modelled. */
  class Writer {
    var written: seq<byte>

    constructor ()
      ensures written == []
    {
      written := [];
    }

    method Write(b: seq<byte>)
      modifies this
      ensures written == old(written) + b
    {
      written := written + b;
    }
  }

  /** The result of a read together with what it left in the reader. */
  function Outcome<T>(res: Result<T, ReadError>, unread: seq<byte>): (r: Read<T>) {
    match res
    case Ok(v) => Got(v, unread)
    case Err(e) => Failed(e, unread)
  }

  method ReadByte(r: Reader) returns (res: Result<byte, ReadError>)
    modifies r
    ensures Outcome(res, r.unread) == GetByte(old(r.unread))
  {
    if r.unread == [] {
      return Err(EOF);
    }
    res := Ok(r.unread[0]);
    r.unread := r.unread[1..];
  }

  method ReadFull(r: Reader, n: nat) returns (res: Result<seq<byte>, ReadError>)
    modifies r
    ensures Outcome(res, r.unread) == GetBytes(old(r.unread), n)
  {
    if |r.unread| < n {
      r.unread := [];
      return Err(EOF);
    }
    res := Ok(r.unread[..n]);
    r.unread := r.unread[n..];
  }

  /** A read into a zeroed buffer of `n` bytes whose error the caller drops. */
  method ReadPadded(r: Reader, n: nat) returns (buf: seq<byte>)
    modifies r
    ensures buf == Padded(old(r.unread), n) && r.unread == After(old(r.unread), n)
  {
    buf := Padded(r.unread, n);
    r.unread := if n <= |r.unread| then r.unread[n..] else [];
  }

  method ReadInt(r: Reader) returns (res: Result<nat, ReadError>)
    modifies r
    ensures Outcome(res, r.unread) == GetInt(old(r.unread))
  {
    var b := ReadFull(r, 2);
    res := if b.Err? then Err(b.error) else Ok(256 * (b.value[0] as int) + b.value[1]);
  }

  method ReadString(r: Reader) returns (res: Result<seq<byte>, ReadError>)
    modifies r
    ensures Outcome(res, r.unread) == GetString(old(r.unread))
  {
    var n := ReadInt(r);
    if n.Err? {
      return Err(n.error);
    }
    if n.value > 0 {
      res := ReadFull(r, n.value);
    } else {
      assert r.unread[..0] == [] && r.unread[0..] == r.unread;
      res := Ok([]);
    }
  }

  /** The Remaining Length loop over `multiplier` and `count_len`. */
  method ReadLength(r: Reader) returns (res: Result<nat, ReadError>)
    modifies r
    ensures Outcome(res, r.unread) == GetLength(old(r.unread), 3)
  {
    var first := ReadByte(r);
    if first.Err? {
      return Err(first.error);
    }
    var b: byte, length: nat, multiplier: nat, countLen := first.value, 0, 1, 1;
    assert [b] + r.unread == old(r.unread);
    while true
      invariant 1 <= countLen <= 3
      invariant GetLength(old(r.unread), 3) == Scaled(length, multiplier, GetLength([b] + r.unread, 4 - countLen))
      decreases 4 - countLen
    {
      countLen := countLen + 1;
      ScaleStep(length, multiplier, b, r.unread, 5 - countLen);
      length := Add(length, b, multiplier);
      if b / 128 != 0 && countLen < 4 {
        ghost var before := r.unread;
        var next := ReadByte(r);
        if next.Err? {
          return Err(next.error);
        }
        b := next.value;
        assert [b] + r.unread == before;
        multiplier := multiplier * 128;
      } else {
        return Ok(length);
      }
    }
  }

  function Add(length: nat, b: byte, multiplier: nat): (n: nat) {
    length + (b as int) % 128 * multiplier
  }

  /** The whole length once `length` has been accumulated and the rest counts `m` times. */
  ghost function Scaled(length: nat, m: nat, rest: Read<nat>): (r: Read<nat>) {
    match rest
    case Failed(e, s) => Failed(e, s)
    case Got(v, s) => Got(length + m * v, s)
  }

  lemma ScaleStep(length: nat, m: nat, b: byte, s: seq<byte>, left: nat)
    requires left > 0
    ensures Scaled(length, m, GetLength([b] + s, left)) ==
            if b < 128 || left == 1 then Got(Add(length, b, m), s)
            else Scaled(Add(length, b, m), m * 128, GetLength(s, left - 1))
  {
    hide Scaled, Add;
    assert ([b] + s)[1..] == s && ([b] + s)[0] == b;
    if b < 128 || left == 1 {
      assert GetLength([b] + s, left) == Got((b as int) % 128, s);
      ScaledLast(length, m, b, s);
    } else {
      match GetLength(s, left - 1) {
        case Failed(e, rest) =>
          ScaledFails(length, m, e, rest);
          ScaledFails(Add(length, b, m), m * 128, e, rest);
        case Got(v, rest) =>
          assert GetLength([b] + s, left) == Got((b as int) % 128 + 128 * v, rest);
          ScaledMore(length, m, b, v, rest);
      }
    }
  }

  lemma ScaledFails(length: nat, m: nat, e: ReadError, s: seq<byte>)
    ensures Scaled(length, m, Failed(e, s)) == Failed(e, s)
  {
  }

  lemma ScaledLast(length: nat, m: nat, b: byte, s: seq<byte>)
    ensures Scaled(length, m, Got((b as int) % 128, s)) == Got(Add(length, b, m), s)
  {
    Commute(m, (b as int) % 128);
  }

  lemma ScaledMore(length: nat, m: nat, b: byte, v: nat, s: seq<byte>)
    ensures Scaled(length, m, Got((b as int) % 128 + 128 * v, s)) == Scaled(Add(length, b, m), m * 128, Got(v, s))
  {
    Distribute(m, (b as int) % 128, v);
  }

  lemma Commute(m: nat, x: nat)
    ensures m * x == x * m
  {
  }

  lemma Distribute(m: nat, x: nat, v: nat)
    ensures m * (x + 128 * v) == x * m + m * 128 * v
  {
    assert m * (x + 128 * v) == m * x + m * (128 * v);
  }

  method ReadOptional(r: Reader, present: bool) returns (res: Result<Option<seq<byte>>, ReadError>)
    modifies r
    ensures Outcome(res, r.unread) == GetOptional(present, old(r.unread))
  {
    hide GetString;
    if !present {
      return Ok(None);
    }
    var v := ReadString(r);
    res := if v.Err? then Err(v.error) else Ok(Some(v.value));
  }

  method ReadConnect(r: Reader, length: nat) returns (res: Result<Variable, ReadError>)
    modifies r
    ensures Outcome(res, r.unread) == GetConnect(old(r.unread), length)
  {
    hide GetString, GetInt, GetSession;
    var protocol := ReadString(r);
    if protocol.Err? {
      return Err(protocol.error);
    }
    if |protocol.value| > length - 4 {
      return Err(OutOfRange);
    }
    res := ReadSession(r, protocol.value, length - 2 - |protocol.value|);
  }

  method ReadSession(r: Reader, protocol: seq<byte>, left: int) returns (res: Result<Variable, ReadError>)
    modifies r
    ensures Outcome(res, r.unread) == GetSession(old(r.unread), protocol, left)
  {
    hide GetString, GetInt, GetByte, ParseFlags, GetWill, GetLogin;
    var version := ReadByte(r);
    if version.Err? {
      return Err(version.error);
    }
    var flagByte := ReadByte(r);
    if flagByte.Err? {
      return Err(flagByte.error);
    }
    var keepAlive := ReadInt(r);
    if keepAlive.Err? {
      return Err(keepAlive.error);
    }
    var flags := ParseFlags(flagByte.value);
    var id := ReadString(r);
    if id.Err? {
      return Err(id.error);
    }
    var n := |id.value|;
    if n > 23 || n < 1 {
      return Err(IdentifierRejected);
    }
    var will := ReadWill(r, flags, left - 4 - n);
    if will.Err? {
      return Err(will.error);
    }
    var login := ReadLogin(r, flags, will.value.left);
    if login.Err? {
      return Err(login.error);
    }
    res := Ok(Connection(Connect(protocol, version.value, flags, keepAlive.value, id.value,
                                 will.value.first, will.value.second, login.value.first, login.value.second)));
  }

  method ReadWill(r: Reader, flags: Flags, left0: int) returns (res: Result<Strings, ReadError>)
    modifies r
    ensures Outcome(res, r.unread) == GetWill(old(r.unread), flags, left0)
  {
    hide GetOptional;
    var left := left0;
    var topic := ReadOptional(r, flags.willFlag);
    if topic.Err? {
      return Err(topic.error);
    }
    left := left - SizeOf(topic.value);
    if flags.willFlag && left < 0 {
      return Err(LengthError);
    }
    var msg := ReadOptional(r, flags.willFlag);
    if msg.Err? {
      return Err(msg.error);
    }
    res := Ok(Strings(topic.value, msg.value, left - SizeOf(msg.value)));
  }

  method ReadLogin(r: Reader, flags: Flags, left0: int) returns (res: Result<Strings, ReadError>)
    modifies r
    ensures Outcome(res, r.unread) == GetLogin(old(r.unread), flags, left0)
  {
    hide GetOptional;
    var left := left0;
    var uname := ReadOptional(r, flags.userName && left > 0);
    if uname.Err? {
      return Err(uname.error);
    }
    left := left - SizeOf(uname.value);
    if uname.value.Some? && left < 0 {
      return Err(LengthError);
    }
    var upassword := ReadOptional(r, flags.password && left > 0);
    if upassword.Err? {
      return Err(upassword.error);
    }
    left := left - SizeOf(upassword.value);
    res := if upassword.value.Some? && left < 0 then Err(LengthError)
           else Ok(Strings(uname.value, upassword.value, left));
  }

  method ReadPublish(r: Reader, length: nat, qos: nat) returns (res: Result<Variable, ReadError>)
    modifies r
    ensures Outcome(res, r.unread) == GetPublish(old(r.unread), length, qos)
  {
    hide GetString, GetInt, GetBytes;
    var topic := ReadString(r);
    if topic.Err? {
      return Err(topic.error);
    }
    var vlen := length - |topic.value| - 2;
    if |topic.value| < 1 || vlen < 2 {
      return Err(LengthError);
    }
    var mid := 0;
    if qos > 0 {
      var id := ReadInt(r);
      if id.Err? {
        return Err(id.error);
      }
      mid := id.value;
      vlen := vlen - 2;
    }
    var msg := ReadFull(r, vlen);
    res := if msg.Err? then Err(msg.error) else Ok(Publish(topic.value, mid, msg.value));
  }

  /** The SUBSCRIBE (`withQos`) and UNSUBSCRIBE loops; a failing read ends them without an error. */
  method ReadTopics(r: Reader, length: nat, withQos: bool) returns (topics: seq<Topic>)
    modifies r
    ensures (topics, r.unread) == GetTopics(old(r.unread), length, withQos)
  {
    hide GetInt, Padded, After;
    topics := [];
    var vlen: int := length;
    assert [] + GetTopics(r.unread, vlen, withQos).0 == GetTopics(r.unread, vlen, withQos).0;
    while vlen > 3
      invariant GetTopics(old(r.unread), length, withQos) == Prepended(topics, GetTopics(r.unread, vlen, withQos))
      decreases vlen
    {
      var nlen := ReadInt(r);
      if nlen.Err? {
        assert topics + [] == topics;
        return;
      }
      var name := ReadPadded(r, nlen.value);
      var qos: byte := 0;
      if withQos {
        var q := ReadByte(r);
        if q.Err? {
          assert topics + [] == topics;
          return;
        }
        qos := q.value;
      }
      vlen := vlen - 2 - nlen.value - (if withQos then 1 else 0);
      Reassociate(topics, Topic(name, qos), GetTopics(r.unread, vlen, withQos));
      topics := topics + [Topic(name, qos)];
    }
    assert topics + [] == topics;
  }

  ghost function Prepended(ts: seq<Topic>, more: (seq<Topic>, seq<byte>)): (r: (seq<Topic>, seq<byte>)) {
    (ts + more.0, more.1)
  }

  lemma Reassociate(ts: seq<Topic>, t: Topic, more: (seq<Topic>, seq<byte>))
    ensures Prepended(ts, ([t] + more.0, more.1)) == Prepended(ts + [t], more)
  {
    assert ts + ([t] + more.0) == (ts + [t]) + more.0;
  }

  method ReadVariable(r: Reader, msgType: nat, qos: nat, length: nat) returns (res: Result<Variable, ReadError>)
    modifies r
    ensures Outcome(res, r.unread) == GetVariable(old(r.unread), msgType, qos, length)
  {
    hide GetInt, GetBytes, GetTopics, GetConnect, GetPublish;
    if msgType == CONNECT {
      res := ReadConnect(r, length);
    } else if msgType == PUBLISH {
      res := ReadPublish(r, length, qos);
    } else if PUBACK <= msgType <= PUBCOMP || msgType == UNSUBACK {
      if length != 2 {
        return Err(WrongLength);
      }
      var mid := ReadInt(r);
      res := if mid.Err? then Err(mid.error)
             else Ok(if msgType == UNSUBACK then Unsuback(mid.value) else Puback(mid.value));
    } else if msgType == SUBACK {
      if length != 3 {
        return Err(WrongLength);
      }
      var mid := ReadInt(r);
      if mid.Err? {
        return Err(mid.error);
      }
      var q := ReadByte(r);
      res := if q.Err? then Err(q.error) else Ok(Suback(mid.value, q.value));
    } else if msgType == SUBSCRIBE || msgType == UNSUBSCRIBE {
      var mid := ReadInt(r);
      if mid.Err? {
        return Err(mid.error);
      }
      var topics := ReadTopics(r, length, msgType == SUBSCRIBE);
      res := Ok(if msgType == SUBSCRIBE then Subscribe(mid.value, topics) else Unsubscribe(mid.value, topics));
    } else if msgType == PINGREQ || msgType == DISCONNECT {
      res := Ok(Nothing);
    } else {
      var skipped := ReadFull(r, length);
      res := if skipped.Err? then Err(skipped.error) else Ok(Nothing);
    }
  }

  /** Reads one pack. */
  method ReadPack(r: Reader) returns (res: Result<Pack, ReadError>)
    modifies r
    ensures Outcome(res, r.unread) == Parse(old(r.unread))
  {
    hide GetVariable, GetLength;
    var b := ReadByte(r);
    if b.Err? {
      return Err(b.error);
    }
    var fixed := b.value;
    var length := ReadLength(r);
    if length.Err? {
      return Err(length.error);
    }
    var msgType, qos := fixed / 16, fixed / 2 % 4;
    var variable := ReadVariable(r, msgType, qos, length.value);
    res := if variable.Err? then Err(variable.error)
           else Ok(Pack(msgType, fixed / 8 % 2, qos, fixed % 2, length.value, variable.value));
  }

  // ---------------------------------------------------------------- writing

  /** `getRemainingLength`: the digits are put into a four-byte array from the front. */
  method RemainingLength(n: nat) returns (s: seq<byte>)
    requires n <= MAX_WRITE_LENGTH
    ensures s == EncodeVarint(n)
  {
    hide EncodeVarint;
    var b := new byte[4];
    var count, length := 0, n;
    AtMostFour(n);
    while true
      invariant 0 <= length && count + |EncodeVarint(length)| <= 4
      invariant b[..count] + EncodeVarint(length) == EncodeVarint(n)
      decreases length
    {
      var digit := length % 128;
      ghost var before := length;
      NextDigit(before);
      length := length / 128;
      if length > 0 {
        b[count] := digit + 128;
        assert b[..count + 1] == b[..count] + [digit + 128];
      } else {
        b[count] := digit;
        assert b[..count + 1] == b[..count] + [digit];
        break;
      }
      count := count + 1;
    }
    s := b[..count + 1];
  }

  lemma NextDigit(n: nat)
    ensures EncodeVarint(n) == if n / 128 > 0 then [n % 128 + 128] + EncodeVarint(n / 128) else [n % 128]
  {
  }

  lemma AtMostFour(n: nat)
    requires n <= MAX_WRITE_LENGTH
    ensures |EncodeVarint(n)| <= 4
  {
    hide EncodeVarint;
    var n1 := n / 128;
    var n2 := n1 / 128;
    var n3 := n2 / 128;
    assert n3 / 128 == 0;
    NextDigit(n);
    NextDigit(n1);
    NextDigit(n2);
    NextDigit(n3);
  }

  method WriteTopics(w: Writer, topics: seq<Topic>, withQos: bool)
    modifies w
    ensures w.written == old(w.written) + PutTopics(topics, withQos)
  {
    hide PutString;
    assert topics[0..] == topics;
    for i := 0 to |topics|
      invariant w.written + PutTopics(topics[i..], withQos) == old(w.written) + PutTopics(topics, withQos)
    {
      ghost var before, more := w.written, PutTopics(topics[i + 1..], withQos);
      assert topics[i..][1..] == topics[i + 1..];
      WriteTopic(w, topics[i], withQos);
      ghost var t := PutString(topics[i].name) + (if withQos then [topics[i].qos] else []);
      assert before + (t + more) == w.written + more;
    }
  }

  method WriteTopic(w: Writer, t: Topic, withQos: bool)
    modifies w
    ensures w.written == old(w.written) + (PutString(t.name) + (if withQos then [t.qos] else []))
  {
    hide PutInt;
    w.Write(PutInt(|t.name|));
    w.Write(t.name);
    if withQos {
      w.Write([t.qos]);
    }
  }

  /** The declared length of a topic list, added up as the program does. */
  method TopicsLength(topics: seq<Topic>, withQos: bool) returns (n: nat)
    ensures n == TopicsSize(topics, withQos)
  {
    n := 0;
    assert topics[0..] == topics;
    for i := 0 to |topics|
      invariant n + TopicsSize(topics[i..], withQos) == TopicsSize(topics, withQos)
    {
      assert topics[i..][1..] == topics[i + 1..];
      n := n + 2 + |topics[i].name| + (if withQos then 1 else 0);
    }
  }

  /** Writes one pack: the fixed header, the length bytes of its type, and the variable part. */
  method DelayWritePack(p: Pack, w: Writer)
    requires Matches(p) && DeclaredLength(p) <= MAX_WRITE_LENGTH
    modifies w
    ensures w.written == old(w.written) + Bytes(p)
  {
    hide LengthBytes, Body;
    w.Write([FixedHeader(p)]);
    if p.msgType == PUBLISH {
      WritePublish(p, w);
    } else if p.msgType == SUBSCRIBE || p.msgType == UNSUBSCRIBE {
      WriteTopicPack(p, w);
    } else if CONNACK <= p.msgType <= UNSUBACK || p.msgType == PINGRESP {
      WriteSmallPack(p, w);
    } else {
      NothingMore(p);
    }
    assert w.written == old(w.written) + Bytes(p);
  }

  lemma NothingMore(p: Pack)
    requires Matches(p) && (p.msgType < CONNACK || p.msgType > UNSUBACK) && p.msgType != PINGRESP
    ensures LengthBytes(p) == [] && Body(p) == []
  {
  }

  method WriteTopicPack(p: Pack, w: Writer)
    requires Matches(p) && (p.msgType == SUBSCRIBE || p.msgType == UNSUBSCRIBE)
    requires DeclaredLength(p) <= MAX_WRITE_LENGTH
    modifies w
    ensures w.written == old(w.written) + LengthBytes(p) + Body(p)
  {
    hide EncodeVarint, PutInt, PutTopics, TopicsSize;
    var tnum := TopicsLength(p.variable.topics, p.msgType == SUBSCRIBE);
    var length := RemainingLength(tnum);
    w.Write([length[0]]);
    w.Write(PutInt(p.variable.mid));
    WriteTopics(w, p.variable.topics, p.msgType == SUBSCRIBE);
    assert w.written == old(w.written) + LengthBytes(p) + Body(p);
  }

  method WriteSmallPack(p: Pack, w: Writer)
    requires Matches(p) && p.msgType !in {PUBLISH, SUBSCRIBE, UNSUBSCRIBE}
    requires CONNACK <= p.msgType <= UNSUBACK || p.msgType == PINGRESP
    modifies w
    ensures w.written == old(w.written) + LengthBytes(p) + Body(p)
  {
    hide EncodeVarint, PutInt;
    var length := RemainingLength(DeclaredLength(p));
    w.Write([length[0]]);
    ghost var header := w.written;
    match p.variable {
      case Connack(reserved, returnCode) => w.Write([reserved, returnCode]);
      case Puback(mid) => w.Write(PutInt(mid));
      case Suback(mid, qos) =>
        w.Write(PutInt(mid));
        w.Write([qos]);
      case Unsuback(mid) => w.Write(PutInt(mid));
      case Nothing =>
    }
    assert w.written == header + Body(p);
  }

  method WritePublish(p: Pack, w: Writer)
    requires Matches(p) && p.msgType == PUBLISH && DeclaredLength(p) <= MAX_WRITE_LENGTH
    modifies w
    ensures w.written == old(w.written) + LengthBytes(p) + Body(p)
  {
    hide EncodeVarint, PutInt;
    var length := RemainingLength(DeclaredLength(p));
    w.Write(length);
    w.Write(PutInt(|p.variable.topic|));
    w.Write(p.variable.topic);
    if p.qos > 0 {
      w.Write(PutInt(p.variable.mid));
    }
    w.Write(p.variable.msg);
    assert w.written == old(w.written) + LengthBytes(p) + Body(p);
  }
}
