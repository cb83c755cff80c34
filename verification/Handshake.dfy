/** The reply machine of a client (`waitPack`), and two clients running it over a pair of FIFO links. */
module Handshake {
  import opened Common
  import opened Mqtt
  import opened MqttRoundTrip
  import opened MqttFrames

  function Ack(msgType: nat, qos: nat, mid: int): (p: Pack) {
    Pack(msgType, 0, qos, 0, 0, Puback(mid))
  }

  /** One SUBACK for every topic that asks for QoS 2. */
  function SubAcks(mid: int, topics: seq<Topic>): (ps: seq<Pack>) {
    if topics == [] then []
    else
      SubAcks(mid, topics[..|topics| - 1])
      + (if topics[|topics| - 1].qos == 2 then [Pack(SUBACK, 0, 0, 0, 0, Suback(mid, 0))] else [])
  }

  /** What the reply machine asserts of the variable part without looking. */
  predicate Asserted(p: Pack) {
    && (p.msgType == PUBLISH ==> p.variable.Publish?)
    && (p.msgType == PUBREC || p.msgType == PUBREL ==> p.variable.Puback?)
    && (p.msgType == SUBSCRIBE ==> p.variable.Subscribe?)
    && (p.msgType == UNSUBSCRIBE ==> p.variable.Unsubscribe?)
  }

  /** A pack whose variable part has the type that its kind promises, as every pack the reader returns. */
  predicate Typed(p: Pack) {
    Asserted(p) && (p.msgType == CONNECT ==> p.variable.Connection?)
  }

  lemma NoAcks(mid: int, topics: seq<Topic>, before: seq<Pack>)
    ensures SubAcks(mid, topics[..0]) == [] && before + SubAcks(mid, topics[..0]) == before
  {
  }

  lemma NextAck(mid: int, topics: seq<Topic>, i: nat, before: seq<Pack>)
    requires i < |topics|
    ensures var acks, acks' := SubAcks(mid, topics[..i]), SubAcks(mid, topics[..i + 1]);
            if topics[i].qos == 2
            then acks' != [] && before + acks' == before + acks + [Pack(SUBACK, 0, 0, 0, 0, Suback(mid, 0))]
            else acks' == acks
  {
    assert topics[..i + 1][..i] == topics[..i];
    var acks, ack := SubAcks(mid, topics[..i]), Pack(SUBACK, 0, 0, 0, 0, Suback(mid, 0));
    assert acks + [] == acks && before + (acks + [ack]) == before + acks + [ack];
  }

  /** What a client sends back for a pack it received. */
  function Replies(p: Pack): (ps: seq<Pack>)
    requires Asserted(p)
  {
    if p.msgType == CONNECT then
      if p.variable.Connection? then [Pack(CONNACK, 0, 0, 0, 0, Connack(0, 0))] else []
    else if p.msgType == PUBLISH then
      if p.qos == 1 then [Ack(PUBACK, 0, p.variable.mid)]
      else if p.qos == 2 then [Ack(PUBREC, 0, p.variable.mid)]
      else []
    else if p.msgType == PUBREC then [Ack(PUBREL, 1, p.variable.mid)]
    else if p.msgType == PUBREL then [Ack(PUBCOMP, 0, p.variable.mid)]
    else if p.msgType == SUBSCRIBE then SubAcks(p.variable.mid, p.variable.topics)
    else if p.msgType == UNSUBSCRIBE then [Pack(UNSUBACK, 0, 0, 0, 0, Unsuback(p.variable.mid))]
    else if p.msgType == PINGREQ then [Pack(PINGRESP, p.dup, 1, 0, 0, Nothing)]
    else []
  }

  /** Whether the pack is handed on to the layer above. */
  predicate Recovered(p: Pack) {
    p.msgType in {PUBLISH, SUBSCRIBE, UNSUBSCRIBE, PINGREQ}
  }

  function HandedUp(p: Pack): (ps: seq<Pack>) {
    if Recovered(p) then [p] else []
  }

  datatype WaitError = NotAConnect | WriteFailed

  class Client {
    /** The packs put into the write queue, and whether the queue has recorded a write error. */
    var outgoing: seq<Pack>
    var writeError: bool
    var recovered: seq<Pack>
    var currId: nat
    var isStop: bool

    constructor ()
      ensures outgoing == [] && !writeError && recovered == [] && currId == 0 && !isStop
    {
      outgoing, writeError, recovered, currId, isStop := [], false, [], 0, false;
    }

    method WritePack(p: Pack) returns (failed: bool)
      modifies this`outgoing
      ensures failed == writeError
      ensures outgoing == if writeError then old(outgoing) else old(outgoing) + [p]
    {
      failed := writeError;
      if !failed {
        outgoing := outgoing + [p];
      }
    }

    /** Reacts to one pack read without error. */
    method WaitPack(p: Pack) returns (err: Option<WaitError>)
      requires Asserted(p)
      modifies this`outgoing, this`recovered
      ensures outgoing == if writeError then old(outgoing) else old(outgoing) + Replies(p)
      ensures recovered == old(recovered) + HandedUp(p)
      ensures err == if p.msgType == CONNECT && !p.variable.Connection? then Some(NotAConnect)
                     else if writeError && Replies(p) != [] then Some(WriteFailed)
                     else None
    {
      var failed := false;
      if p.msgType == CONNECT {
        if !p.variable.Connection? {
          assert old(recovered) + [] == old(recovered) && old(outgoing) + [] == old(outgoing);
          return Some(NotAConnect);
        }
        failed := WritePack(Pack(CONNACK, 0, 0, 0, 0, Connack(0, 0)));
      } else if p.msgType == PUBLISH {
        if p.qos == 1 {
          failed := WritePack(Ack(PUBACK, 0, p.variable.mid));
        } else if p.qos == 2 {
          failed := WritePack(Ack(PUBREC, 0, p.variable.mid));
        }
        recovered := recovered + [p];
      } else if p.msgType == PUBREC {
        failed := WritePack(Ack(PUBREL, 1, p.variable.mid));
      } else if p.msgType == PUBREL {
        failed := WritePack(Ack(PUBCOMP, 0, p.variable.mid));
      } else if p.msgType == SUBSCRIBE {
        failed := AckTopics(p.variable.mid, p.variable.topics);
        recovered := recovered + [p];
      } else if p.msgType == UNSUBSCRIBE {
        failed := WritePack(Pack(UNSUBACK, 0, 0, 0, 0, Unsuback(p.variable.mid)));
        recovered := recovered + [p];
      } else if p.msgType == PINGREQ {
        failed := WritePack(Pack(PINGRESP, p.dup, 1, 0, 0, Nothing));
        recovered := recovered + [p];
      }
      assert old(recovered) + [] == old(recovered) && old(outgoing) + [] == old(outgoing);
      err := if failed then Some(WriteFailed) else None;
    }

    /** The SUBSCRIBE loop: each round overwrites the error of the one before. */
    method AckTopics(mid: int, topics: seq<Topic>) returns (failed: bool)
      modifies this`outgoing
      ensures outgoing == if writeError then old(outgoing) else old(outgoing) + SubAcks(mid, topics)
      ensures failed == (writeError && SubAcks(mid, topics) != [])
    {
      hide SubAcks;
      failed := false;
      NoAcks(mid, topics, outgoing);
      for i := 0 to |topics|
        invariant outgoing == if writeError then old(outgoing) else old(outgoing) + SubAcks(mid, topics[..i])
        invariant failed == (writeError && SubAcks(mid, topics[..i]) != [])
      {
        NextAck(mid, topics, i, old(outgoing));
        if topics[i].qos == 2 {
          failed := WritePack(Pack(SUBACK, 0, 0, 0, 0, Suback(mid, 0)));
        }
      }
      assert topics[..|topics|] == topics;
    }

    /** One round of the loop; `breaks` tells that the write queue records an error before it. */
    method Round(p: Pack, breaks: bool) returns (err: Option<WaitError>)
      requires Asserted(p)
      modifies this`outgoing, this`recovered, this`writeError
      ensures writeError == (old(writeError) || breaks)
      ensures err == Some(NotAConnect) <==> p.msgType == CONNECT && !p.variable.Connection?
      ensures err == Some(NotAConnect) ==> outgoing == old(outgoing) && recovered == old(recovered)
      ensures err != Some(NotAConnect) ==> recovered == old(recovered) + HandedUp(p)
      ensures err != Some(NotAConnect) && !writeError ==> outgoing == old(outgoing) + Replies(p)
      ensures writeError ==> outgoing == old(outgoing)
      ensures err == Some(WriteFailed) <==> writeError && Replies(p) != []
    {
      hide Replies;
      NoReplies(p);
      if breaks {
        writeError := true;
      }
      assert outgoing + [] == outgoing && recovered + [] == recovered;
      err := WaitPack(p);
    }

    /** `Listen_loop` on what comes out of the read channel until that is closed; `quit` is the round, if any, in
      * which the select picks the close channel, and `breaks` the one before which the write queue records an
      * error. Every pack up to that round is answered, in order, none from it on, and the loop ends with the first
      * pack that cannot be; what is handed up is everything received up to there.
      */
    method ListenLoop(inbox: seq<Result<Pack, ReadError>>, quit: Option<nat>, breaks: Option<nat>)
        returns (handled: nat, err: Option<WaitError>)
      requires forall i :: 0 <= i < |inbox| && inbox[i].Ok? ==> Asserted(inbox[i].value)
      modifies this`outgoing, this`recovered, this`isStop, this`writeError
      ensures isStop && handled <= |inbox| && forall i :: 0 <= i < handled ==> inbox[i].Ok?
      ensures outgoing == Answered(old(outgoing), inbox[..Until(handled, old(writeError), breaks)])
      ensures forall i :: Until(handled, old(writeError), breaks) <= i < handled ==> Replies(inbox[i].value) == []
      ensures err != Some(WriteFailed) ==> recovered == Handed(old(recovered), inbox[..handled])
      ensures match err
              case None => handled == |inbox| || quit == Some(handled) || inbox[handled].Err?
              case Some(NotAConnect) =>
                handled < |inbox| && inbox[handled].Ok? && inbox[handled].value.msgType == CONNECT
                && !inbox[handled].value.variable.Connection?
              case Some(WriteFailed) =>
                && handled < |inbox| && inbox[handled].Ok? && Replies(inbox[handled].value) != []
                && Broken(handled, old(writeError), breaks)
                && recovered == Handed(old(recovered), inbox[..handled + 1])
    {
      hide Replies, HandedUp, Answered, Handed, Until, Broken, Asserted;
      handled, err := 0, None;
      ghost var was := writeError;
      NoRounds(outgoing, recovered, inbox, was, breaks);
      while handled < |inbox| && quit != Some(handled)
        invariant handled <= |inbox| && forall i :: 0 <= i < handled ==> inbox[i].Ok?
        invariant outgoing == Answered(old(outgoing), inbox[..Until(handled, was, breaks)])
        invariant forall i :: Until(handled, was, breaks) <= i < handled ==> Replies(inbox[i].value) == []
        invariant recovered == Handed(old(recovered), inbox[..handled])
        invariant (writeError || breaks == Some(handled)) == Broken(handled, was, breaks) && err == None
      {
        if inbox[handled].Err? {
          break;
        }
        err := Round(inbox[handled].value, breaks == Some(handled));
        if err == Some(NotAConnect) {
          break;
        }
        NextRound(old(outgoing), old(recovered), inbox, handled, was, breaks);
        if err.Some? {
          assert err.value.NotAConnect? || err.value.WriteFailed?;
          break;
        }
        handled := handled + 1;
      }
      isStop := true;
    }

    /** The id of the next PUBLISH: it counts from 1 and wraps from 65535 to 1. */
    method OnlineMsgId() returns (id: nat)
      modifies this`currId
      ensures id == currId == IdAfter(old(currId))
    {
      if currId == 65535 {
        currId := 1;
      } else {
        currId := currId + 1;
      }
      id := currId;
    }
  }

  /** Whether the write queue has recorded an error by round `i`. */
  predicate Broken(i: nat, already: bool, breaks: Option<nat>) {
    already || (breaks.Some? && breaks.value <= i)
  }

  /** How many of the first `handled` rounds found the queue in order. */
  function Until(handled: nat, already: bool, breaks: Option<nat>): (n: nat)
    ensures n <= handled
    ensures forall i :: 0 <= i < handled ==> (i < n <==> !Broken(i, already, breaks))
  {
    if already then 0 else if breaks.Some? && breaks.value < handled then breaks.value else handled
  }

  lemma NoRounds(outgoing: seq<Pack>, recovered: seq<Pack>, inbox: seq<Result<Pack, ReadError>>, already: bool,
                 breaks: Option<nat>)
    ensures Until(0, already, breaks) == 0
    ensures Answered(outgoing, inbox[..0]) == outgoing && Handed(recovered, inbox[..0]) == recovered
    ensures Broken(0, already, breaks) == (already || breaks == Some(0))
  {
  }

  /** What one more round adds. */
  lemma NextRound(outgoing: seq<Pack>, recovered: seq<Pack>, inbox: seq<Result<Pack, ReadError>>, i: nat, already: bool,
                  breaks: Option<nat>)
    requires i < |inbox| && inbox[i].Ok? && forall j :: 0 <= j < |inbox| && inbox[j].Ok? ==> Asserted(inbox[j].value)
    ensures Answered(outgoing, inbox[..i + 1]) == Answered(outgoing, inbox[..i]) + Replies(inbox[i].value)
    ensures Handed(recovered, inbox[..i + 1]) == Handed(recovered, inbox[..i]) + HandedUp(inbox[i].value)
    ensures Until(i + 1, already, breaks) == if Broken(i, already, breaks) then Until(i, already, breaks) else i + 1
    ensures !Broken(i, already, breaks) ==> Until(i, already, breaks) == i
    ensures Broken(i + 1, already, breaks) == (Broken(i, already, breaks) || breaks == Some(i + 1))
  {
    hide Replies, HandedUp, Asserted;
    assert inbox[..i + 1][..i] == inbox[..i];
  }

  lemma NoReplies(p: Pack)
    requires Asserted(p)
    ensures p.msgType == CONNECT && !p.variable.Connection? ==> Replies(p) == [] && !Recovered(p)
  {
  }

  /** What has been sent once the packs of an inbox have been answered, in order. */
  function Answered(outgoing: seq<Pack>, inbox: seq<Result<Pack, ReadError>>): (ps: seq<Pack>)
    requires forall i :: 0 <= i < |inbox| && inbox[i].Ok? ==> Asserted(inbox[i].value)
  {
    if inbox == [] then outgoing
    else
      var before := Answered(outgoing, inbox[..|inbox| - 1]);
      if inbox[|inbox| - 1].Ok? then before + Replies(inbox[|inbox| - 1].value) else before
  }

  /** What has been handed up once they have been received. */
  function Handed(recovered: seq<Pack>, inbox: seq<Result<Pack, ReadError>>): (ps: seq<Pack>) {
    if inbox == [] then recovered
    else
      var before := Handed(recovered, inbox[..|inbox| - 1]);
      if inbox[|inbox| - 1].Ok? then before + HandedUp(inbox[|inbox| - 1].value) else before
  }

  function IdAfter(id: nat): (next: nat) {
    if id == 65535 then 1 else id + 1
  }

  /** The id given out by the `k`-th call on a fresh client. */
  function NthId(k: nat): (id: nat) {
    if k == 0 then 0 else IdAfter(NthId(k - 1))
  }

  lemma {:induction false} NthIdIs(k: nat)
    ensures k > 0 ==> NthId(k) == (k - 1) % 65535 + 1
  {
    if k > 1 {
      NthIdIs(k - 1);
    }
  }

  /** Ids are non-zero 16-bit numbers, and no id is given out twice within 65535 calls. */
  lemma IdsAreFresh(j: nat, k: nat)
    requires 0 < j < k
    ensures 1 <= NthId(k) <= 65535
    ensures k - j < 65535 ==> NthId(j) != NthId(k)
  {
    NthIdIs(j);
    NthIdIs(k);
    if NthId(j) == NthId(k) {
      assert (k - 1) - (j - 1) == 65535 * ((k - 1) / 65535 - (j - 1) / 65535);
    }
  }

  // ---------------------------------------------------------------- two peers

  datatype Side = Left | Right

  function Other(s: Side): (o: Side) {
    if s.Left? then Right else Left
  }

  /** Where a pack stands in an exchange: a request, an answer to one, or a step of QoS 2 in between. */
  datatype Stage =
    | Publish1 | PubAck
    | Publish2 | PubRec | PubRel | PubComp
    | Connects | Connacks
    | Unsubscribes | Unsubacks
    | Pings | Pongs
    | Subacks
    | NoStage

  function StageOf(p: Pack): (s: Stage) {
    if p.msgType == PUBLISH && p.qos == 1 then Publish1
    else if p.msgType == PUBACK then PubAck
    else if p.msgType == PUBLISH && p.qos == 2 then Publish2
    else if p.msgType == PUBREC then PubRec
    else if p.msgType == PUBREL then PubRel
    else if p.msgType == PUBCOMP then PubComp
    else if p.msgType == CONNECT then Connects
    else if p.msgType == CONNACK then Connacks
    else if p.msgType == UNSUBSCRIBE then Unsubscribes
    else if p.msgType == UNSUBACK then Unsubacks
    else if p.msgType == PINGREQ then Pings
    else if p.msgType == PINGRESP then Pongs
    else if p.msgType == SUBACK then Subacks
    else NoStage
  }

  /** The id of the exchange; pings and connects have none. */
  function IdOf(p: Pack): (mid: int) {
    if p.msgType in {CONNECT, CONNACK, PINGREQ, PINGRESP} then 0 else VariableId(p.variable)
  }

  function VariableId(v: Variable): (mid: int) {
    match v
    case Publish(_, mid, _) => mid
    case Puback(mid) => mid
    case Subscribe(mid, _) => mid
    case Suback(mid, _) => mid
    case Unsubscribe(mid, _) => mid
    case Unsuback(mid) => mid
    case _ => 0
  }

  /** The topics of QoS 2, each of which calls for a SUBACK. */
  function Due(topics: seq<Topic>): (n: nat) {
    |set j | 0 <= j < |topics| && topics[j].qos == 2|
  }

  lemma DueSnoc(topics: seq<Topic>)
    requires topics != []
    ensures Due(topics) == Due(topics[..|topics| - 1]) + (if topics[|topics| - 1].qos == 2 then 1 else 0)
  {
    var n := |topics| - 1;
    var before := set j | 0 <= j < |topics[..n]| && topics[..n][j].qos == 2;
    assert (set j | 0 <= j < |topics| && topics[j].qos == 2) == before + (if topics[n].qos == 2 then {n} else {});
  }

  function OwedFor(p: Pack, mid: int): (n: nat) {
    if p.msgType == SUBSCRIBE && p.variable.Subscribe? && p.variable.mid == mid then Due(p.variable.topics) else 0
  }

  /** How many SUBACKs the SUBSCRIBEs among `ps` with id `mid` call for. */
  function Owed(ps: seq<Pack>, mid: int): (n: nat) {
    if ps == [] then 0 else Owed(ps[..|ps| - 1], mid) + OwedFor(ps[|ps| - 1], mid)
  }

  lemma {:induction false} OwedAppends(a: seq<Pack>, b: seq<Pack>, mid: int)
    ensures Owed(a + b, mid) == Owed(a, mid) + Owed(b, mid)
  {
    if b == [] {
      assert a + b == a;
    } else {
      OwedAppends(a, b[..|b| - 1], mid);
      assert (a + b)[..|a + b| - 1] == a + b[..|b| - 1];
    }
  }

  lemma OwedOne(p: Pack, mid: int)
    ensures Owed([p], mid) == OwedFor(p, mid)
  {
    assert [p][..0] == [];
  }

  /** The packs meant for the layer above, by the numbers of their types: PUBLISH, SUBSCRIBE, UNSUBSCRIBE, PINGREQ. */
  function Passed(ps: seq<Pack>): (up: seq<Pack>) {
    if ps == [] then []
    else Passed(ps[..|ps| - 1]) + if ps[|ps| - 1].msgType in {3, 8, 10, 12} then [ps[|ps| - 1]] else []
  }

  lemma {:induction false} PassedAppends(a: seq<Pack>, b: seq<Pack>)
    ensures Passed(a + b) == Passed(a) + Passed(b)
  {
    if b == [] {
      assert a + b == a;
    } else {
      PassedAppends(a, b[..|b| - 1]);
      assert (a + b)[..|a + b| - 1] == a + b[..|b| - 1];
    }
  }

  lemma PassedOne(p: Pack)
    ensures Passed([p]) == HandedUp(p)
  {
    assert [p][..0] == [];
  }

  /** How many packs of `ps` are at stage `st` of the exchange with id `mid`. */
  function Count(ps: seq<Pack>, st: Stage, mid: int): (n: nat) {
    if ps == [] then 0
    else Count(ps[..|ps| - 1], st, mid) + (if StageOf(ps[|ps| - 1]) == st && IdOf(ps[|ps| - 1]) == mid then 1 else 0)
  }

  lemma {:induction false} CountAppends(a: seq<Pack>, b: seq<Pack>, st: Stage, mid: int)
    ensures Count(a + b, st, mid) == Count(a, st, mid) + Count(b, st, mid)
  {
    if b == [] {
      assert a + b == a;
    } else {
      CountAppends(a, b[..|b| - 1], st, mid);
      assert (a + b)[..|a + b| - 1] == a + b[..|b| - 1];
    }
  }

  /** One list of packs per side. */
  datatype Pair = Pair(left: seq<Pack>, right: seq<Pack>) {
    function At(s: Side): (ps: seq<Pack>) {
      if s.Left? then left else right
    }

    function Add(s: Side, ps: seq<Pack>): (p: Pair) {
      if s.Left? then this.(left := left + ps) else this.(right := right + ps)
    }

    function Drop(s: Side): (p: Pair)
      requires At(s) != []
    {
      if s.Left? then this.(left := left[1..]) else this.(right := right[1..])
    }
  }

  /** The link each side reads from, the packs it has started, those it has consumed, and those it has handed up. */
  datatype Net = Net(toward: Pair, sent: Pair, got: Pair, up: Pair)

  ghost predicate AllTyped(ps: seq<Pack>) {
    forall p :: p in ps ==> Typed(p)
  }

  ghost predicate Valid(n: Net) {
    AllTyped(n.toward.left) && AllTyped(n.toward.right)
  }

  ghost predicate Init(n: Net) {
    n == Net(Pair([], []), Pair([], []), Pair([], []), Pair([], []))
  }

  /** A pack that a side sends on its own account rather than as a reply. */
  predicate Request(p: Pack) {
    Typed(p) && p.msgType in {CONNECT, PUBLISH, SUBSCRIBE, UNSUBSCRIBE, PINGREQ, DISCONNECT}
  }

  ghost predicate Send(n: Net, n': Net, s: Side, p: Pack) {
    Request(p) && n' == Net(n.toward.Add(Other(s), [p]), n.sent.Add(s, [p]), n.got, n.up)
  }

  ghost predicate Receive(n: Net, n': Net, s: Side) {
    && n.toward.At(s) != []
    && var p := n.toward.At(s)[0];
       Typed(p) && n' == Net(n.toward.Drop(s).Add(Other(s), Replies(p)), n.sent, n.got.Add(s, [p]), n.up.Add(s, HandedUp(p)))
  }

  ghost predicate Step(n: Net, n': Net) {
    (exists s, p :: Send(n, n', s, p)) || (exists s :: Receive(n, n', s))
  }

  /** Per id: the requests sent by `s` are those in flight, those whose answer is in flight, and those answered. */
  ghost predicate Balanced(n: Net, s: Side, mid: int, request: Stage, answer: Stage) {
    Count(n.sent.At(s), request, mid) ==
      Count(n.toward.At(Other(s)), request, mid) + Count(n.toward.At(s), answer, mid) + Count(n.got.At(s), answer, mid)
  }

  ghost predicate BalancedTwice(n: Net, s: Side, mid: int) {
    var out, back := n.toward.At(Other(s)), n.toward.At(s);
    Count(n.sent.At(s), Publish2, mid) ==
      Count(out, Publish2, mid) + Count(back, PubRec, mid) + Count(out, PubRel, mid)
      + Count(back, PubComp, mid) + Count(n.got.At(s), PubComp, mid)
  }

  ghost predicate BalancedTopics(n: Net, s: Side, mid: int) {
    Owed(n.sent.At(s), mid) ==
      Owed(n.toward.At(Other(s)), mid) + Count(n.toward.At(s), Subacks, mid) + Count(n.got.At(s), Subacks, mid)
  }

  /** Per id: exchanges started at `s` are those in flight at each stage plus those finished. */
  ghost predicate Conserved(n: Net, s: Side, mid: int) {
    && BalancedTwice(n, s, mid) && BalancedTopics(n, s, mid)
    && Balanced(n, s, mid, Publish1, PubAck) && Balanced(n, s, mid, Connects, Connacks)
    && Balanced(n, s, mid, Unsubscribes, Unsubacks) && Balanced(n, s, mid, Pings, Pongs)
  }

  /** What `s` has sent for the layer above of its peer has been handed up there, in order, or is on its way. */
  ghost predicate Delivered(n: Net, s: Side) {
    Passed(n.sent.At(s)) == n.up.At(Other(s)) + Passed(n.toward.At(Other(s)))
  }

  ghost predicate Inv(n: Net) {
    Valid(n) && (forall s, mid :: Conserved(n, s, mid)) && (forall s :: Delivered(n, s))
  }

  function One(p: Pack, st: Stage, mid: int): (n: nat) {
    if StageOf(p) == st && IdOf(p) == mid then 1 else 0
  }

  lemma CountOne(p: Pack, st: Stage, mid: int)
    ensures Count([p], st, mid) == One(p, st, mid)
  {
    assert [p][..0] == [];
  }

  lemma CountHead(ps: seq<Pack>, st: Stage, mid: int)
    requires ps != []
    ensures Count(ps, st, mid) == One(ps[0], st, mid) + Count(ps[1..], st, mid)
  {
    assert ps == [ps[0]] + ps[1..];
    CountAppends([ps[0]], ps[1..], st, mid);
    CountOne(ps[0], st, mid);
  }

  /** A reply moves the exchange of its pack on by one stage; none is for the layer above. */
  lemma RepliesMoveOn(p: Pack, mid: int)
    requires Typed(p)
    ensures AllTyped(Replies(p))
    ensures Count(Replies(p), PubRec, mid) == One(p, Publish2, mid)
    ensures Count(Replies(p), PubRel, mid) == One(p, PubRec, mid)
    ensures Count(Replies(p), PubComp, mid) == One(p, PubRel, mid)
    ensures Count(Replies(p), PubAck, mid) == One(p, Publish1, mid)
    ensures Count(Replies(p), Connacks, mid) == One(p, Connects, mid)
    ensures Count(Replies(p), Unsubacks, mid) == One(p, Unsubscribes, mid)
    ensures Count(Replies(p), Pongs, mid) == One(p, Pings, mid)
    ensures Count(Replies(p), Subacks, mid) == OwedFor(p, mid)
    ensures forall st :: st in {Publish1, Publish2, Connects, Unsubscribes, Pings} ==> Count(Replies(p), st, mid) == 0
    ensures Owed(Replies(p), mid) == 0 && Passed(Replies(p)) == []
  {
    hide Replies, Count, Owed, Passed;
    if p.msgType == SUBSCRIBE {
      SubscribeReplies(p, mid);
    } else if Replies(p) == [] {
      NoReplyCounts(p, mid);
    } else {
      OneReply(p);
      var r := Replies(p)[0];
      forall st ensures Count(Replies(p), st, mid) == One(r, st, mid) {
        CountOne(r, st, mid);
      }
      OwedOne(r, mid);
      PassedOne(r);
    }
  }

  lemma SubscribeReplies(p: Pack, mid: int)
    requires Typed(p) && p.msgType == SUBSCRIBE
    ensures AllTyped(Replies(p)) && Owed(Replies(p), mid) == 0 && Passed(Replies(p)) == []
    ensures Count(Replies(p), Subacks, mid) == OwedFor(p, mid) && forall st :: st != Subacks ==> Count(Replies(p), st, mid) == 0
    ensures StageOf(p) == NoStage
  {
    SubAcksCount(p.variable.mid, p.variable.topics, mid);
  }

  lemma NoReplyCounts(p: Pack, mid: int)
    requires Typed(p) && p.msgType != SUBSCRIBE && Replies(p) == []
    ensures Owed([], mid) == 0 && Passed([]) == [] && OwedFor(p, mid) == 0
    ensures forall st :: Count([], st, mid) == 0
    ensures StageOf(p) !in {Publish1, Publish2, PubRec, PubRel, Connects, Unsubscribes, Pings}
  {
  }

  /** What the one reply to a pack other than SUBSCRIBE is. */
  lemma OneReply(p: Pack)
    requires Typed(p) && p.msgType != SUBSCRIBE && Replies(p) != []
    ensures var r := Replies(p)[0];
            && Replies(p) == [r] && Typed(r) && HandedUp(r) == [] && r.msgType != SUBSCRIBE && IdOf(r) == IdOf(p)
            && StageOf(r) == (match StageOf(p)
                              case Publish1 => PubAck
                              case Publish2 => PubRec
                              case PubRec => PubRel
                              case PubRel => PubComp
                              case Connects => Connacks
                              case Unsubscribes => Unsubacks
                              case Pings => Pongs
                              case st => st)
            && StageOf(p) in {Publish1, Publish2, PubRec, PubRel, Connects, Unsubscribes, Pings}
  {
  }

  /** One SUBACK for each topic of QoS 2, and nothing else. */
  lemma {:induction false} SubAcksCount(id: int, topics: seq<Topic>, mid: int)
    ensures AllTyped(SubAcks(id, topics)) && |SubAcks(id, topics)| == Due(topics)
    ensures Count(SubAcks(id, topics), Subacks, mid) == if id == mid then Due(topics) else 0
    ensures forall st :: st != Subacks ==> Count(SubAcks(id, topics), st, mid) == 0
    ensures Owed(SubAcks(id, topics), mid) == 0 && Passed(SubAcks(id, topics)) == []
  {
    if topics != [] {
      var before := SubAcks(id, topics[..|topics| - 1]);
      var p := Pack(SUBACK, 0, 0, 0, 0, Suback(id, 0));
      SubAcksCount(id, topics[..|topics| - 1], mid);
      DueSnoc(topics);
      forall st ensures Count(before + [p], st, mid) == Count(before, st, mid) + One(p, st, mid) {
        CountAppends(before, [p], st, mid);
        CountOne(p, st, mid);
      }
      OwedAppends(before, [p], mid);
      OwedOne(p, mid);
      PassedAppends(before, [p]);
      PassedOne(p);
      assert before + [] == before;
    }
  }

  lemma SendCounts(n: Net, n': Net, s: Side, p: Pack, st: Stage, mid: int)
    requires Send(n, n', s, p)
    ensures Count(n'.toward.At(Other(s)), st, mid) == Count(n.toward.At(Other(s)), st, mid) + One(p, st, mid)
    ensures Count(n'.sent.At(s), st, mid) == Count(n.sent.At(s), st, mid) + One(p, st, mid)
    ensures n'.toward.At(s) == n.toward.At(s) && n'.sent.At(Other(s)) == n.sent.At(Other(s)) && n'.got == n.got
  {
    CountAppends(n.toward.At(Other(s)), [p], st, mid);
    CountAppends(n.sent.At(s), [p], st, mid);
    CountOne(p, st, mid);
  }

  lemma SendBalances(n: Net, n': Net, s: Side, p: Pack, t: Side, mid: int, request: Stage, answer: Stage)
    requires Send(n, n', s, p) && Balanced(n, t, mid, request, answer) && One(p, answer, mid) == 0
    ensures Balanced(n', t, mid, request, answer)
  {
    hide Count, One, Send;
    SendCounts(n, n', s, p, request, mid);
    SendCounts(n, n', s, p, answer, mid);
    assert t == s || t == Other(s);
  }

  lemma SendBalancesTwice(n: Net, n': Net, s: Side, p: Pack, t: Side, mid: int)
    requires Send(n, n', s, p) && BalancedTwice(n, t, mid)
    requires One(p, PubRec, mid) == One(p, PubRel, mid) == One(p, PubComp, mid) == 0
    ensures BalancedTwice(n', t, mid)
  {
    hide Count, One, Send;
    SendCounts(n, n', s, p, Publish2, mid);
    SendCounts(n, n', s, p, PubRec, mid);
    SendCounts(n, n', s, p, PubRel, mid);
    SendCounts(n, n', s, p, PubComp, mid);
    assert t == s || t == Other(s);
  }

  lemma SendBalancesTopics(n: Net, n': Net, s: Side, p: Pack, t: Side, mid: int)
    requires Send(n, n', s, p) && BalancedTopics(n, t, mid) && One(p, Subacks, mid) == 0
    ensures BalancedTopics(n', t, mid)
  {
    hide Count, One, Owed, OwedFor, Request;
    SendCounts(n, n', s, p, Subacks, mid);
    OwedAppends(n.toward.At(Other(s)), [p], mid);
    OwedAppends(n.sent.At(s), [p], mid);
    assert t == s || t == Other(s);
  }

  lemma NoAnswer(p: Pack, mid: int)
    requires Request(p)
    ensures forall st :: st in {PubAck, PubRec, PubRel, PubComp, Connacks, Unsubacks, Pongs, Subacks} ==> One(p, st, mid) == 0
  {
  }

  lemma SendKeeps(n: Net, n': Net, s: Side, p: Pack)
    requires Inv(n) && Send(n, n', s, p)
    ensures Inv(n')
  {
    hide Balanced, BalancedTwice, BalancedTopics, One, Delivered;
    forall t, mid ensures Conserved(n', t, mid) {
      assert Conserved(n, t, mid);
      NoAnswer(p, mid);
      SendBalances(n, n', s, p, t, mid, Publish1, PubAck);
      SendBalances(n, n', s, p, t, mid, Connects, Connacks);
      SendBalances(n, n', s, p, t, mid, Unsubscribes, Unsubacks);
      SendBalances(n, n', s, p, t, mid, Pings, Pongs);
      SendBalancesTwice(n, n', s, p, t, mid);
      SendBalancesTopics(n, n', s, p, t, mid);
    }
    SendDelivers(n, n', s, p);
  }

  lemma SendDelivers(n: Net, n': Net, s: Side, p: Pack)
    requires Send(n, n', s, p) && forall t :: Delivered(n, t)
    ensures forall t :: Delivered(n', t)
  {
    hide Passed, HandedUp, Request;
    forall t ensures Delivered(n', t) {
      assert Delivered(n, t);
      PassedAppends(n.toward.At(Other(s)), [p]);
      PassedAppends(n.sent.At(s), [p]);
    }
  }

  lemma ReceiveCounts(n: Net, n': Net, s: Side, p: Pack, st: Stage, mid: int)
    requires Receive(n, n', s) && p == n.toward.At(s)[0]
    ensures Count(n.toward.At(s), st, mid) == Count(n'.toward.At(s), st, mid) + One(p, st, mid)
    ensures Count(n'.toward.At(Other(s)), st, mid) == Count(n.toward.At(Other(s)), st, mid) + Count(Replies(p), st, mid)
    ensures Count(n'.got.At(s), st, mid) == Count(n.got.At(s), st, mid) + One(p, st, mid)
    ensures n'.sent == n.sent && n'.got.At(Other(s)) == n.got.At(Other(s))
  {
    hide Replies, Count, HandedUp;
    CountHead(n.toward.At(s), st, mid);
    CountAppends(n.toward.At(Other(s)), Replies(p), st, mid);
    CountAppends(n.got.At(s), [p], st, mid);
    CountOne(p, st, mid);
  }

  lemma ReceiveBalances(n: Net, n': Net, s: Side, p: Pack, t: Side, mid: int, request: Stage, answer: Stage)
    requires Receive(n, n', s) && p == n.toward.At(s)[0] && Balanced(n, t, mid, request, answer)
    requires Count(Replies(p), answer, mid) == One(p, request, mid) && Count(Replies(p), request, mid) == 0
    ensures Balanced(n', t, mid, request, answer)
  {
    hide Count, One, Receive, Replies;
    ReceiveCounts(n, n', s, p, request, mid);
    ReceiveCounts(n, n', s, p, answer, mid);
    assert t == s || t == Other(s);
  }

  lemma ReceiveBalancesTwice(n: Net, n': Net, s: Side, p: Pack, t: Side, mid: int)
    requires Receive(n, n', s) && p == n.toward.At(s)[0] && BalancedTwice(n, t, mid)
    requires Count(Replies(p), PubRec, mid) == One(p, Publish2, mid) && Count(Replies(p), PubRel, mid) == One(p, PubRec, mid)
    requires Count(Replies(p), PubComp, mid) == One(p, PubRel, mid) && Count(Replies(p), Publish2, mid) == 0
    ensures BalancedTwice(n', t, mid)
  {
    hide Count, One, Receive, Replies;
    ReceiveCounts(n, n', s, p, Publish2, mid);
    ReceiveCounts(n, n', s, p, PubRec, mid);
    ReceiveCounts(n, n', s, p, PubRel, mid);
    ReceiveCounts(n, n', s, p, PubComp, mid);
    assert t == s || t == Other(s);
  }

  lemma ReceiveBalancesTopics(n: Net, n': Net, s: Side, p: Pack, t: Side, mid: int)
    requires Receive(n, n', s) && p == n.toward.At(s)[0] && BalancedTopics(n, t, mid)
    ensures BalancedTopics(n', t, mid)
  {
    hide Count, One, Owed, OwedFor, Replies;
    RepliesMoveOn(p, mid);
    ReceiveCounts(n, n', s, p, Subacks, mid);
    assert n.toward.At(s) == [p] + n'.toward.At(s);
    OwedAppends([p], n'.toward.At(s), mid);
    OwedOne(p, mid);
    OwedAppends(n.toward.At(Other(s)), Replies(p), mid);
    assert t == s || t == Other(s);
  }

  lemma ReceiveKeeps(n: Net, n': Net, s: Side)
    requires Inv(n) && Receive(n, n', s)
    ensures Inv(n')
  {
    hide Balanced, BalancedTwice, BalancedTopics, Count, One, Owed, OwedFor, Passed, HandedUp, Replies, Delivered;
    var p := n.toward.At(s)[0];
    forall t, mid ensures Conserved(n', t, mid) {
      assert Conserved(n, t, mid);
      RepliesMoveOn(p, mid);
      ReceiveBalances(n, n', s, p, t, mid, Publish1, PubAck);
      ReceiveBalances(n, n', s, p, t, mid, Connects, Connacks);
      ReceiveBalances(n, n', s, p, t, mid, Unsubscribes, Unsubacks);
      ReceiveBalances(n, n', s, p, t, mid, Pings, Pongs);
      ReceiveBalancesTwice(n, n', s, p, t, mid);
      ReceiveBalancesTopics(n, n', s, p, t, mid);
    }
    RepliesMoveOn(p, 0);
    ReceiveDelivers(n, n', s);
  }

  lemma ReceiveDelivers(n: Net, n': Net, s: Side)
    requires Receive(n, n', s) && forall t :: Delivered(n, t)
    ensures forall t :: Delivered(n', t)
  {
    hide Count, Owed, Passed, HandedUp, Replies;
    var o, p := Other(s), n.toward.At(s)[0];
    RepliesMoveOn(p, 0);
    assert n.toward.At(s) == [p] + n'.toward.At(s);
    PassedAppends([p], n'.toward.At(s));
    PassedOne(p);
    PassedAppends(n.toward.At(o), Replies(p));
    assert Delivered(n, o) && Delivered(n, s);
    assert Passed(n.toward.At(o)) + [] == Passed(n.toward.At(o));
    assert n.up.At(s) + (HandedUp(p) + Passed(n'.toward.At(s))) == n.up.At(s) + HandedUp(p) + Passed(n'.toward.At(s));
    forall t ensures Delivered(n', t) {
      assert t == s || t == o;
    }
  }

  ghost predicate IsRun(run: seq<Net>) {
    run != [] && Init(run[0]) && forall i :: 0 < i < |run| ==> Step(run[i - 1], run[i])
  }

  /** In every run, every exchange started is at exactly one stage, and what is meant for the layer above has been
    * handed up at the other side, in order, or is on its way there.
    */
  lemma {:induction false} EveryRunConserves(run: seq<Net>, k: nat)
    requires IsRun(run) && k < |run|
    ensures Inv(run[k])
  {
    if k > 0 {
      EveryRunConserves(run, k - 1);
      var n, n' := run[k - 1], run[k];
      assert Step(n, n');
      if s, p :| Send(n, n', s, p) {
        SendKeeps(n, n', s, p);
      } else {
        var s :| Receive(n, n', s);
        ReceiveKeeps(n, n', s);
      }
    }
  }

  // ---------------------------------------------------------------- quiescence

  /** How many packs are still to be received because of `p`, itself included. */
  function Weight(p: Pack): (w: nat)
    requires Typed(p)
    ensures w > 0
  {
    match StageOf(p)
    case Publish2 => 4
    case PubRec => 3
    case PubRel => 2
    case Publish1 => 2
    case _ =>
      if p.msgType == SUBSCRIBE then 1 + |SubAcks(p.variable.mid, p.variable.topics)|
      else if p.msgType == UNSUBSCRIBE || p.msgType == PINGREQ || p.msgType == CONNECT then 2 else 1
  }

  function TotalWeight(ps: seq<Pack>): (w: nat)
    requires AllTyped(ps)
  {
    if ps == [] then 0 else TotalWeight(ps[..|ps| - 1]) + Weight(ps[|ps| - 1])
  }

  lemma {:induction false} WeightAppends(a: seq<Pack>, b: seq<Pack>)
    requires AllTyped(a) && AllTyped(b)
    ensures TotalWeight(a + b) == TotalWeight(a) + TotalWeight(b)
  {
    if b == [] {
      assert a + b == a;
    } else {
      WeightAppends(a, b[..|b| - 1]);
      assert (a + b)[..|a + b| - 1] == a + b[..|b| - 1];
    }
  }

  lemma {:induction false} SubAcksWeigh(id: int, topics: seq<Topic>)
    ensures AllTyped(SubAcks(id, topics)) && TotalWeight(SubAcks(id, topics)) == |SubAcks(id, topics)|
  {
    SubAcksCount(id, topics, 0);
    if topics != [] {
      var before := SubAcks(id, topics[..|topics| - 1]);
      SubAcksWeigh(id, topics[..|topics| - 1]);
      if topics[|topics| - 1].qos == 2 {
        var p := Pack(SUBACK, 0, 0, 0, 0, Suback(id, 0));
        hide TotalWeight;
        WeightSnoc(before, p);
        assert SubAcks(id, topics) == before + [p] && Weight(p) == 1;
      } else {
        assert before + [] == before;
      }
    }
  }

  lemma WeightSnoc(ps: seq<Pack>, p: Pack)
    requires AllTyped(ps) && Typed(p)
    ensures AllTyped(ps + [p]) && TotalWeight(ps + [p]) == TotalWeight(ps) + Weight(p)
  {
    assert (ps + [p])[..|ps|] == ps;
  }

  lemma RepliesWeigh(p: Pack)
    requires Typed(p)
    ensures AllTyped(Replies(p)) && TotalWeight(Replies(p)) == Weight(p) - 1
  {
    RepliesMoveOn(p, 0);
    if p.msgType == SUBSCRIBE {
      SubAcksWeigh(p.variable.mid, p.variable.topics);
    } else if |Replies(p)| == 1 {
      assert Replies(p)[..0] == [];
    }
  }

  ghost function InFlight(n: Net): (w: nat)
    requires Valid(n)
  {
    TotalWeight(n.toward.left) + TotalWeight(n.toward.right)
  }

  /** Every receipt lowers the weight in flight by exactly one. */
  lemma ReceiptWeighs(n: Net, n': Net, s: Side)
    requires Inv(n) && Receive(n, n', s)
    ensures Valid(n') && InFlight(n') == InFlight(n) - 1
  {
    var o, p, tail := Other(s), n.toward.At(s)[0], n.toward.At(s)[1..];
    ReceiveKeeps(n, n', s);
    RepliesWeigh(p);
    WeightAppends([p], tail);
    assert [p] + tail == n.toward.At(s);
    assert [p][..0] == [];
    assert TotalWeight([p]) == Weight(p);
    WeightAppends(n.toward.At(o), Replies(p));
  }

  ghost predicate Receipts(run: seq<Net>) {
    forall i :: 0 < i < |run| ==> Receipt(run[i - 1], run[i])
  }

  ghost predicate Receipt(n: Net, n': Net) {
    exists s :: Receive(n, n', s)
  }

  /** With no new requests, at most `InFlight` receipts happen; while any pack is in flight one can happen;
    * and when none is, every exchange that was started has been finished.
    */
  lemma {:induction false} Quiesces(run: seq<Net>)
    requires run != [] && Inv(run[0]) && Receipts(run)
    ensures var last := run[|run| - 1];
            && Inv(last)
            && InFlight(last) == InFlight(run[0]) - (|run| - 1)
            && (InFlight(last) > 0 ==> exists s, n :: Receive(last, n, s))
            && (InFlight(last) == 0 ==> forall s, mid :: Finished(last, s, mid))
            && (InFlight(last) == 0 ==> forall s :: last.up.At(Other(s)) == Passed(last.sent.At(s)))
    decreases |run|
  {
    hide Inv, InFlight, Receive, Count, Finished, Passed;
    var last := run[|run| - 1];
    if |run| > 1 {
      var before := run[..|run| - 1];
      Quiesces(before);
      assert Receipt(run[|run| - 2], last);
      var s :| Receive(run[|run| - 2], last, s);
      ReceiveKeeps(run[|run| - 2], last, s);
      ReceiptWeighs(run[|run| - 2], last, s);
    }
    EmptyLinks(last);
  }

  /** Every exchange that `s` has started has been answered to its end. */
  ghost predicate Finished(n: Net, s: Side, mid: int) {
    var sent, got := n.sent.At(s), n.got.At(s);
    && Count(sent, Publish2, mid) == Count(got, PubComp, mid) && Count(sent, Publish1, mid) == Count(got, PubAck, mid)
    && Count(sent, Connects, mid) == Count(got, Connacks, mid) && Count(sent, Pings, mid) == Count(got, Pongs, mid)
    && Count(sent, Unsubscribes, mid) == Count(got, Unsubacks, mid) && Owed(sent, mid) == Count(got, Subacks, mid)
  }

  lemma EmptyLinks(n: Net)
    requires Inv(n)
    ensures InFlight(n) > 0 ==> exists s, n' :: Receive(n, n', s)
    ensures InFlight(n) == 0 ==> forall s, mid :: Finished(n, s, mid)
    ensures InFlight(n) == 0 ==> forall s :: n.up.At(Other(s)) == Passed(n.sent.At(s))
  {
    if InFlight(n) > 0 {
      var s := if n.toward.left != [] then Left else Right;
      var p := n.toward.At(s)[0];
      assert p in n.toward.At(s) && AllTyped(n.toward.At(s));
      var n' := Net(n.toward.Drop(s).Add(Other(s), Replies(p)), n.sent, n.got.Add(s, [p]), n.up.Add(s, HandedUp(p)));
      assert Receive(n, n', s);
    } else {
      assert n.toward.left == [] && n.toward.right == [];
      forall s, mid ensures Finished(n, s, mid) {
        assert Conserved(n, s, mid);
      }
      forall s ensures n.up.At(Other(s)) == Passed(n.sent.At(s)) {
        assert Delivered(n, s);
        assert n.up.At(Other(s)) + [] == n.up.At(Other(s));
      }
    }
  }

  // ---------------------------------------------------------------- the links as byte streams

  /** Every pack the reader returns has the variable part its type promises, so no type assertion fails. */
  lemma ReadPacksAreTyped(s: seq<byte>)
    requires Parse(s).Got?
    ensures Asserted(Parse(s).value) && Typed(Parse(s).value) && Parse(s).value.dup < 2
  {
    hide GetString, GetInt, GetBytes, GetTopics, GetConnect, GetLength, GetPublish;
    var p, s2 := Parse(s).value, GetLength(s[1..], 3).rest;
    PublishOnly(s2, p.length, p.qos);
    ConnectOnly(s2, p.length);
  }

  /** Replies to a pack that was read, other than CONNACK, are read back by the peer as they were sent. */
  lemma RepliesSurviveTheWire(s: seq<byte>, r: Pack, rest: seq<byte>)
    requires Parse(s).Got? && (ReadPacksAreTyped(s); r in Replies(Parse(s).value)) && r.msgType != CONNACK
    ensures Matches(r) && Parse(Bytes(r) + rest) == Got(r.(length := DeclaredLength(r)), rest)
  {
    hide Parse, Bytes;
    ReadPacksAreTyped(s);
    ReturnedPack(s);
    var p := Parse(s).value;
    if p.msgType == SUBSCRIBE {
      OnlySubAcks(p.variable.mid, p.variable.topics);
    }
    PackRoundTrip(r, rest);
  }

  lemma {:induction false} OnlySubAcks(mid: int, topics: seq<Topic>)
    ensures forall r :: r in SubAcks(mid, topics) ==> r == Pack(SUBACK, 0, 0, 0, 0, Suback(mid, 0))
  {
    if topics != [] {
      OnlySubAcks(mid, topics[..|topics| - 1]);
    }
  }

  /** The bytes of every reply by position: the types 0x40, 0x50, 0x62, 0x70, 0x20, 0x90, 0xB0 and 0xD2, the id of the
    * pack answered, and return code and granted QoS zero.
    */
  lemma ReplyBytes(p: Pack, r: Pack)
    requires Typed(p) && p.dup < 2 && r in Replies(p)
    ensures Matches(r)
    ensures var hi, lo := IdOf(p) / 256 % 256, IdOf(p) % 256;
            && p.msgType in {1, 3, 5, 6, 8, 10, 12}
            && Bytes(r) == (if p.msgType == 3 then (if p.qos == 1 then [0x40, 2, hi, lo] else [0x50, 2, hi, lo])
                            else if p.msgType == 5 then [0x62, 2, hi, lo]
                            else if p.msgType == 6 then [0x70, 2, hi, lo]
                            else if p.msgType == 1 then [0x20, 2, 0, 0]
                            else if p.msgType == 8 then [0x90, 3, hi, lo, 0]
                            else if p.msgType == 10 then [0xB0, 2, hi, lo]
                            else [0xD2 + 8 * p.dup, 0])
  {
    hide Bytes;
    if p.msgType == SUBSCRIBE {
      OnlySubAcks(p.variable.mid, p.variable.topics);
    }
    SmallPackLayout(r);
  }
}
