/** The RPC client itself: its table of pending calls, and what each of its handlers does to it when nothing
  * comes in between.
  */
module RpcClient {
  import opened Common
  import opened Rpc

  /** A result channel of capacity one. The preconditions are what a send or a close must find so as not to
    * block or panic.
    */
  class ResultChan {
    var buffer: seq<ResultInfo>
    var closed: bool

    constructor ()
      ensures buffer == [] && !closed
    {
      buffer, closed := [], false;
    }

    method Send(r: ResultInfo)
      requires !closed && |buffer| < 1
      modifies this
      ensures buffer == old(buffer) + [r] && !closed
    {
      buffer := buffer + [r];
    }

    method Close()
      requires !closed
      modifies this
      ensures closed && buffer == old(buffer)
    {
      closed := true;
    }

    /** Delete from the table is followed by this pair, for a reply and for a timeout alike. */
    method Complete(r: ResultInfo)
      requires Idle()
      modifies this
      ensures Completed(r)
    {
      Send(r);
      Close();
    }

    predicate Idle()
      reads this
    {
      buffer == [] && !closed
    }

    /** The one way a call ends: a single result, then the close. */
    predicate Completed(r: ResultInfo)
      reads this
    {
      buffer == [r] && closed
    }
  }

  datatype ClientCallInfo = ClientCallInfo(timeout: int, callChan: ResultChan)

  function Chans(callInfos: map<Cid, ClientCallInfo>): (chans: set<ResultChan>) {
    set k | k in callInfos :: callInfos[k].callChan
  }

  ghost predicate Distinct(callInfos: map<Cid, ClientCallInfo>) {
    forall k, l :: k in callInfos && l in callInfos && k != l ==> callInfos[k].callChan != callInfos[l].callChan
  }

  predicate Overdue(info: ClientCallInfo, now: int) {
    info.timeout < now
  }

  /** What a sweep leaves of a table while the entries of `todo` have not been looked at yet. */
  function Left(was: map<Cid, ClientCallInfo>, todo: set<Cid>, now: Cid -> int): (left: map<Cid, ClientCallInfo>)
    ensures forall k :: k in left <==> k in was && (k in todo || !Overdue(was[k], now(k)))
    ensures forall k :: k in left ==> left[k] == was[k]
  {
    map k | k in was && (k in todo || !Overdue(was[k], now(k))) :: was[k]
  }

  lemma LeftAfter(was: map<Cid, ClientCallInfo>, todo: set<Cid>, now: Cid -> int, key: Cid)
    requires key in todo && key in was
    ensures Left(was, todo - {key}, now) ==
            if Overdue(was[key], now(key)) then Left(was, todo, now) - {key} else Left(was, todo, now)
  {
  }

  lemma Apart(was: map<Cid, ClientCallInfo>, key: Cid)
    requires Distinct(was) && key in was
    ensures was[key].callChan in Chans(was)
    ensures forall k :: k in was && k != key ==> was[k].callChan != was[key].callChan
  {
  }

  lemma DistinctPart(was: map<Cid, ClientCallInfo>, part: map<Cid, ClientCallInfo>)
    requires Distinct(was) && forall k :: k in part ==> k in was && part[k] == was[k]
    ensures Distinct(part)
  {
  }

  class Client {
    const backend: Backend
    var isClose: bool
    var callInfos: map<Cid, ClientCallInfo>

    ghost predicate Valid()
      reads this, Chans(callInfos)
    {
      (forall k :: k in callInfos ==> callInfos[k].callChan.Idle()) && Distinct(callInfos)
    }

    constructor (backend: Backend)
      ensures Valid() && callInfos == map[] && !isClose && this.backend == backend
    {
      this.backend, isClose, callInfos := backend, false, map[];
    }

    /** The table part of `Call`; sending the request to the server is a step of the whole system. */
    method Call(cid: Cid, expired: int, callbackChan: ResultChan) returns (ok: bool)
      requires Valid() && cid !in callInfos && callbackChan.Idle() && callbackChan !in Chans(callInfos)
      modifies this`callInfos
      ensures Valid() && ok == !isClose
      ensures callInfos == if ok then old(callInfos)[cid := ClientCallInfo(expired, callbackChan)] else old(callInfos)
    {
      if isClose {
        return false;
      }
      callInfos := callInfos[cid := ClientCallInfo(expired, callbackChan)];
      ok := true;
    }

    /** A sweep over a snapshot of the table; `now(k)` is the clock when entry `k` is looked at. Exactly the
      * overdue calls end, each with the timeout report, and exactly they leave the table.
      */
    method OnTimeout(now: Cid -> int)
      requires Valid()
      modifies this`callInfos, Chans(callInfos)
      ensures Valid()
      ensures callInfos == Left(old(callInfos), {}, now)
      ensures forall k :: k in old(callInfos) && Overdue(old(callInfos)[k], now(k)) ==>
                old(callInfos)[k].callChan.Completed(TimeoutResult(backend, k))
    {
      hide Left, Distinct, Chans, Overdue, TimeoutResult, ResultChan.Completed, ResultChan.Idle;
      ghost var was := callInfos;
      var items := callInfos;
      var todo := items.Keys;
      assert Left(was, todo, now) == was;
      while todo != {}
        invariant todo <= was.Keys && callInfos == Left(was, todo, now)
        invariant forall k :: k in was && (k in todo || !Overdue(was[k], now(k))) ==> was[k].callChan.Idle()
        invariant forall k :: k in was && k !in todo && Overdue(was[k], now(k)) ==>
                    was[k].callChan.Completed(TimeoutResult(backend, k))
        decreases todo
      {
        var key :| key in todo;
        var info := items[key];
        Apart(was, key);
        LeftAfter(was, todo, now, key);
        if Overdue(info, now(key)) {
          callInfos := callInfos - {key};
          info.callChan.Complete(TimeoutResult(backend, key));
        }
        todo := todo - {key};
      }
      DistinctPart(was, callInfos);
    }

    /** A reply ends the call it names and no other; one that nobody waits for changes nothing. */
    method OnResponse(r: ResultInfo)
      requires Valid()
      modifies this`callInfos, Chans(callInfos)
      ensures Valid() && callInfos == old(callInfos) - {r.cid}
      ensures r.cid in old(callInfos) ==> old(callInfos)[r.cid].callChan.Completed(r)
    {
      if r.cid in callInfos {
        var info := callInfos[r.cid];
        callInfos := callInfos - {r.cid};
        info.callChan.Complete(r);
      }
    }

    /** Every pending call is closed without a result and the table is empty. */
    method Done()
      requires Valid()
      modifies this, Chans(callInfos)
      ensures Valid() && isClose && callInfos == map[]
      ensures forall k :: k in old(callInfos) ==>
                old(callInfos)[k].callChan.closed && old(callInfos)[k].callChan.buffer == []
    {
      hide Distinct, Chans;
      ghost var was := callInfos;
      isClose := true;
      var items := callInfos;
      var todo := items.Keys;
      while todo != {}
        invariant todo <= was.Keys && isClose && callInfos.Keys == todo
        invariant forall k :: k in todo ==> was[k].callChan.Idle()
        invariant forall k :: k in was && k !in todo ==> was[k].callChan.closed && was[k].callChan.buffer == []
        decreases todo
      {
        var key :| key in todo;
        Apart(was, key);
        items[key].callChan.Close();
        callInfos := callInfos - {key};
        todo := todo - {key};
      }
      assert callInfos == map[];
      DistinctPart(was, callInfos);
    }
  }

  // ---------------------------------------------------------------- what the caller makes of a result

  datatype Outcome<V> =
    | Values(values: seq<V>)
    | Refused(code: int, text: string)
    | Mismatch
    | FormatError(at: nat)
    | ClientClosed

  function OutcomeOf<V>(result: Option<ResultInfo>, decode: (string, seq<byte>) -> Option<V>): (o: Outcome<V>) {
    if result.None? then ClientClosed
    else
      var r := result.value;
      if r.error != "" then Refused(r.errCode, r.error)
      else if |r.results| != |r.resultsType| then Mismatch
      else DecodeAll(r.resultsType, r.results, decode, 0, [])
  }

  /** A caller whose deadline has passed is told so: by the local client with code 102 and without its id, by the
    * broker client the other way round.
    */
  lemma TimedOutCaller<V>(cid: Cid, decode: (string, seq<byte>) -> Option<V>)
    ensures TimeoutResult(Local, cid).cid == "" && TimeoutResult(Amqp, cid).cid == cid
    ensures OutcomeOf(Some(TimeoutResult(Local, cid)), decode) == Refused(102, "timeout: This CallInfo : " + cid + " timeout!")
    ensures OutcomeOf(Some(TimeoutResult(Amqp, cid)), decode) == Refused(0, "timeout: This CallInfo : " + cid + " timeout!")
  {
  }

  /** How `CallArgs` reads what comes off the result channel; none stands for a channel closed without a result. */
  method Resolve<V>(result: Option<ResultInfo>, decode: (string, seq<byte>) -> Option<V>) returns (o: Outcome<V>)
    ensures o == OutcomeOf(result, decode)
    ensures o.ClientClosed? <==> result == None
    ensures result.Some? ==>
              var r := result.value;
              && (o.Refused? <==> r.error != "") && (o.Refused? ==> o == Refused(r.errCode, r.error))
              && (o.Mismatch? <==> r.error == "" && |r.results| != |r.resultsType|)
              && (r.error == "" && |r.results| == |r.resultsType| ==> o == DecodeAll(r.resultsType, r.results, decode, 0, []))
  {
    if result.None? {
      return ClientClosed;
    }
    var r := result.value;
    if r.error != "" {
      return Refused(r.errCode, r.error);
    }
    if |r.results| != |r.resultsType| {
      return Mismatch;
    }
    var values: seq<V> := [];
    var i := 0;
    while i < |r.results|
      invariant 0 <= i <= |r.results|
      invariant DecodeAll(r.resultsType, r.results, decode, 0, []) == DecodeAll(r.resultsType, r.results, decode, i, values)
    {
      var v := decode(r.resultsType[i], r.results[i]);
      if v.None? {
        return FormatError(i);
      }
      values := values + [v.value];
      i := i + 1;
    }
    o := Values(values);
  }

  function DecodeAll<V>(types: seq<string>, results: seq<seq<byte>>, decode: (string, seq<byte>) -> Option<V>,
                        i: nat, done: seq<V>): (o: Outcome<V>)
    requires |types| == |results|
    ensures o.Values? || o.FormatError?
    decreases |results| - i
  {
    if i >= |results| then Values(done)
    else
      match decode(types[i], results[i])
      case None => FormatError(i)
      case Some(v) => DecodeAll(types, results, decode, i + 1, done + [v])
  }

  /** Results that all decode come out in order; otherwise the first that does not is reported. */
  lemma {:induction false} DecodeAllMeans<V>(types: seq<string>, results: seq<seq<byte>>,
                                             decode: (string, seq<byte>) -> Option<V>, i: nat, done: seq<V>)
    requires |types| == |results| && i == |done| <= |results|
    requires forall j :: 0 <= j < i ==> decode(types[j], results[j]) == Some(done[j])
    ensures match DecodeAll(types, results, decode, i, done)
            case Values(values) =>
              |values| == |results| && forall j :: 0 <= j < |values| ==> decode(types[j], results[j]) == Some(values[j])
            case FormatError(at) =>
              at < |results| && decode(types[at], results[at]) == None
              && forall j :: 0 <= j < at ==> decode(types[j], results[j]).Some?
            case _ => false
    decreases |results| - i
  {
    if i < |results| {
      match decode(types[i], results[i])
      case None =>
      case Some(v) =>
        DecodeAllMeans(types, results, decode, i + 1, done + [v]);
    }
  }
}
