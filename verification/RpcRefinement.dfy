/** The methods of the RPC client are uninterrupted runs of the pending-call protocol: what a client shows after
  * one of them is what the protocol shows after the steps it consists of.
  */
module RpcRefinement {
  import opened Common
  import opened Rpc
  import opened RpcClient
  import P = PendingCalls
  import Runs

  ghost predicate Leads(s: P.State, run: seq<P.Action>, s': P.State) {
    Runs.After(P.Apply, s, run) == Some(s')
  }

  lemma LeadsOn(s: P.State, run: seq<P.Action>, t: P.State, more: seq<P.Action>, s': P.State)
    requires Leads(s, run, t) && Leads(t, more, s')
    ensures Leads(s, run + more, s')
  {
    hide P.Apply;
    Runs.Append(P.Apply, s, run, t, more);
  }

  lemma LeadsBy(s: P.State, a: P.Action, t: P.State)
    requires P.Apply(s, a) == Some(t)
    ensures Leads(s, [a], t)
  {
    hide P.Apply;
    Runs.One(P.Apply, s, a);
  }

  // ---------------------------------------------------------------- what uninterrupted runs come to

  /** What the handler leaves alone. */
  ghost predicate Resumed(s: P.State, s': P.State) {
    s'.backend == s.backend && s'.isClose == s.isClose && s'.done == s.done && s'.repliesClosed == s.repliesClosed
  }

  predicate EndedWith(c: P.Call, r: ResultInfo) {
    c.sent == [r] && c.taken == 0 && c.closes == 1
  }

  /** The three steps that end a call once it has been picked. */
  lemma EndCall(s: P.State) returns (run: seq<P.Action>, s': P.State)
    requires P.Inv(s) && s.handler.Deleting?
    ensures Leads(s, run, s') && P.Inv(s') && Resumed(s, s') && s'.handler == P.Ready(s.handler.rest)
    ensures s'.clock == s.clock
    ensures s'.table == s.table - {s.handler.cid} && s.handler.cid in s.calls
    ensures exists c :: EndedWith(c, s.handler.r) && s'.calls == s.calls[s.handler.cid := c]
  {
    hide P.Inv, Leads;
    PickedIsOpen(s);
    var cid := s.handler.cid;
    var a1, a2, a3 := P.Handle(P.Delete), P.Handle(P.Send), P.Handle(P.HandlerAction.Close);
    var s1 := P.HandlerStep(s, P.Delete).value;
    P.StepKeeps(s, a1);
    var s2 := P.HandlerStep(s1, P.Send).value;
    P.StepKeeps(s1, a2);
    s' := P.HandlerStep(s2, P.HandlerAction.Close).value;
    P.StepKeeps(s2, a3);
    P.ThreeSteps(s, a1, s1, a2, s2, a3, s');
    run := [a1] + [a2] + [a3];
    LeadsIs(s, run, s');
    var c := s'.calls[cid];
    assert EndedWith(c, s.handler.r) && s'.calls == s.calls[cid := c];
  }

  lemma LeadsIs(s: P.State, run: seq<P.Action>, s': P.State)
    requires Runs.After(P.Apply, s, run) == Some(s')
    ensures Leads(s, run, s')
  {
  }

  lemma PickedIsOpen(s: P.State)
    requires P.Inv(s) && s.handler.Deleting?
    ensures s.handler.cid in s.calls
    ensures var c := s.calls[s.handler.cid]; c.sent == [] && c.taken == 0 && c.closes == 0
  {
    assert P.CallOk(s, s.handler.cid);
  }

  lemma ReplyRun(s: P.State, r: ResultInfo) returns (run: seq<P.Action>, s': P.State)
    requires P.Inv(s) && s.handler == P.Ready([])
    ensures Leads(s, run, s') && P.Inv(s') && Resumed(s, s') && s'.handler == P.Ready([])
    ensures s'.table == s.table - {r.cid}
    ensures r.cid in s.table ==> r.cid in s.calls && r.cid in s'.calls && EndedWith(s'.calls[r.cid], r)
    ensures forall k :: k in s.calls && (k != r.cid || r.cid !in s.table) ==> k in s'.calls && s'.calls[k] == s.calls[k]
  {
    hide P.Inv, Leads, EndedWith;
    var a := P.Handle(P.TakeReply(r));
    var t := P.HandlerStep(s, P.TakeReply(r)).value;
    P.StepKeeps(s, a);
    LeadsBy(s, a, t);
    run, s' := [a], t;
    if r.cid in s.table {
      var rest;
      rest, s' := EndCall(t);
      LeadsOn(s, [a], t, rest, s');
      run := [a] + rest;
      var c :| EndedWith(c, r) && s'.calls == t.calls[r.cid := c];
    }
  }

  /** What a sweep with `rest` still to look at comes to, `now(k)` being the clock when entry `k` is looked at. */
  ghost predicate SweptBy(s: P.State, rest: seq<P.Entry>, now: Cid -> int, s': P.State) {
    && (forall k :: k in s'.table <==> k in s.table && !(P.Entry(k, s.table[k]) in rest && s.table[k] < now(k)))
    && (forall k :: k in s'.table ==> s'.table[k] == s.table[k])
    && (forall k :: k in s.calls ==> k in s'.calls)
    && (forall k :: k in s.table && k in s.calls && k !in s'.table ==>
          EndedWith(s'.calls[k], TimeoutResult(s.backend, k)))
    && (forall k :: k in s.calls && (k !in s.table || k in s'.table) ==> s'.calls[k] == s.calls[k])
  }

  /** The entries are looked at one after the other, with the clock moving on. */
  ghost predicate Timely(rest: seq<P.Entry>, now: Cid -> int, clock: int) {
    && (forall i :: 0 <= i < |rest| ==> clock <= now(rest[i].cid))
    && (forall i, j :: 0 <= i < j < |rest| ==> now(rest[i].cid) <= now(rest[j].cid))
  }

  lemma SweptNothing(s: P.State, now: Cid -> int)
    ensures SweptBy(s, [], now, s)
  {
  }

  lemma PickedIsSwept(s: P.State, e: P.Entry, now: Cid -> int, c: P.Call, s': P.State)
    requires e.cid in s.table && s.table[e.cid] == e.deadline < now(e.cid) && e.cid in s.calls
    requires EndedWith(c, TimeoutResult(s.backend, e.cid))
    requires s'.table == s.table - {e.cid} && s'.calls == s.calls[e.cid := c]
    ensures SweptBy(s, [e], now, s')
  {
    hide TimeoutResult, EndedWith;
  }

  lemma SkippedIsSwept(s: P.State, e: P.Entry, now: Cid -> int, s': P.State)
    requires e.cid in s.table && s.table[e.cid] == e.deadline >= now(e.cid)
    requires s'.table == s.table && s'.calls == s.calls
    ensures SweptBy(s, [e], now, s')
  {
    hide TimeoutResult, EndedWith;
  }

  lemma FirstIsPending(s: P.State)
    requires P.Inv(s) && s.handler.Ready? && s.handler.rest != []
    ensures var e := s.handler.rest[0]; e.cid in s.table && s.table[e.cid] == e.deadline && e.cid in s.calls
  {
    assert P.Rest(s.handler)[0] == s.handler.rest[0];
  }

  /** The first entry of what is left is looked at: picked and ended, or passed over. */
  lemma NextRun(s: P.State, now: Cid -> int) returns (run: seq<P.Action>, s': P.State)
    requires P.Inv(s) && s.handler.Ready? && s.handler.rest != [] && s.clock <= now(s.handler.rest[0].cid)
    ensures Leads(s, run, s') && P.Inv(s') && Resumed(s, s') && s'.handler == P.Ready(s.handler.rest[1..])
    ensures SweptBy(s, [s.handler.rest[0]], now, s') && s'.clock == now(s.handler.rest[0].cid)
  {
    hide P.Inv, Leads, TimeoutResult, SweptBy, EndedWith;
    var tick, a, e := P.Caller(P.Tick(now(s.handler.rest[0].cid))), P.Handle(P.Next), s.handler.rest[0];
    FirstIsPending(s);
    var u := s.(clock := now(e.cid));
    P.StepKeeps(s, tick);
    LeadsBy(s, tick, u);
    var t := P.HandlerStep(u, P.Next).value;
    P.StepKeeps(u, a);
    LeadsBy(u, a, t);
    LeadsOn(s, [tick], u, [a], t);
    if e.deadline < now(e.cid) {
      var rest;
      rest, s' := EndCall(t);
      LeadsOn(s, [tick] + [a], t, rest, s');
      run := [tick] + [a] + rest;
      var c :| EndedWith(c, t.handler.r) && s'.calls == t.calls[t.handler.cid := c];
      PickedIsSwept(s, e, now, c, s');
    } else {
      run, s' := [tick] + [a], t;
      SkippedIsSwept(s, e, now, t);
    }
  }

  lemma FirstOrLater(rest: seq<P.Entry>, e: P.Entry)
    requires rest != []
    ensures e in rest <==> e in [rest[0]] || e in rest[1..]
  {
    assert rest == [rest[0]] + rest[1..];
  }

  lemma SweptOn(s: P.State, rest: seq<P.Entry>, now: Cid -> int, t: P.State, s': P.State)
    requires rest != [] && SweptBy(s, [rest[0]], now, t) && SweptBy(t, rest[1..], now, s')
    requires t.backend == s.backend
    ensures SweptBy(s, rest, now, s')
  {
    hide TimeoutResult, EndedWith;
    var first, later := [rest[0]], rest[1..];
    forall k | k in s.table
      ensures P.Entry(k, s.table[k]) in rest <==> P.Entry(k, s.table[k]) in first || P.Entry(k, s.table[k]) in later
    {
      FirstOrLater(rest, P.Entry(k, s.table[k]));
    }
  }

  lemma {:induction false} SweepRun(s: P.State, now: Cid -> int) returns (run: seq<P.Action>, s': P.State)
    requires P.Inv(s) && s.handler.Ready? && Timely(s.handler.rest, now, s.clock)
    ensures Leads(s, run, s') && P.Inv(s') && Resumed(s, s') && s'.handler == P.Ready([])
    ensures SweptBy(s, s.handler.rest, now, s')
    decreases |s.handler.rest|
  {
    if s.handler.rest == [] {
      SweptNothing(s, now);
      return [], s;
    }
    hide P.Inv, SweptBy, Leads;
    var t;
    run, t := NextRun(s, now);
    var more;
    more, s' := SweepRun(t, now);
    LeadsOn(s, run, t, more, s');
    SweptOn(s, s.handler.rest, now, t, s');
    run := run + more;
  }

  lemma {:induction false} Earliest(table: map<Cid, int>, now: Cid -> int) returns (key: Cid)
    requires table != map[]
    ensures key in table && forall k :: k in table ==> now(key) <= now(k)
    decreases |table|
  {
    key :| key in table;
    if table - {key} != map[] {
      var other := Earliest(table - {key}, now);
      if now(other) < now(key) {
        key := other;
      }
    }
  }

  /** The entries of a table in the order in which they are looked at. */
  lemma {:induction false} SnapshotOf(table: map<Cid, int>, now: Cid -> int, clock: int) returns (order: seq<P.Entry>)
    requires forall k :: k in table ==> clock <= now(k)
    ensures P.Snapshot(order, table) && Timely(order, now, clock)
    decreases |table|
  {
    if table == map[] {
      return [];
    }
    var key := Earliest(table, now);
    var rest := SnapshotOf(table - {key}, now, now(key));
    order := [P.Entry(key, table[key])] + rest;
    SnapshotThen(table, key, rest);
    TimelyThen(P.Entry(key, table[key]), rest, now, clock);
  }

  lemma SnapshotThen(table: map<Cid, int>, key: Cid, rest: seq<P.Entry>)
    requires key in table && P.Snapshot(rest, table - {key})
    ensures P.Snapshot([P.Entry(key, table[key])] + rest, table)
  {
    var first := P.Entry(key, table[key]);
    var order := [first] + rest;
    assert forall e :: e in order <==> e == first || e in rest;
    assert forall i :: 1 <= i < |order| ==> order[i] == rest[i - 1] && order[i] in rest;
    forall k | k in table ensures P.Entry(k, table[k]) in order {
      assert k != key ==> P.Entry(k, (table - {key})[k]) in rest;
    }
  }

  lemma TimelyThen(e: P.Entry, rest: seq<P.Entry>, now: Cid -> int, clock: int)
    requires clock <= now(e.cid) && Timely(rest, now, now(e.cid))
    ensures Timely([e] + rest, now, clock)
  {
    var order := [e] + rest;
    assert forall i :: 1 <= i < |order| ==> order[i] == rest[i - 1];
  }

  lemma WholeSweep(s: P.State, now: Cid -> int) returns (run: seq<P.Action>, s': P.State)
    requires P.Inv(s) && s.handler == P.Ready([]) && forall k :: k in s.table ==> s.clock <= now(k)
    ensures Leads(s, run, s') && P.Inv(s') && Resumed(s, s') && s'.handler == P.Ready([])
    ensures forall k :: k in s'.table <==> k in s.table && s.table[k] >= now(k)
    ensures forall k :: k in s'.table ==> s'.table[k] == s.table[k]
    ensures forall k :: k in s.table && s.table[k] < now(k) ==>
              k in s'.calls && EndedWith(s'.calls[k], TimeoutResult(s.backend, k))
    ensures forall k :: k in s.calls && (k !in s.table || k in s'.table) ==> k in s'.calls && s'.calls[k] == s.calls[k]
  {
    var order := SnapshotOf(s.table, now, s.clock);
    var a := P.Handle(P.TakeTimer(order));
    var t := P.HandlerStep(s, P.TakeTimer(order)).value;
    P.StepKeeps(s, a);
    LeadsBy(s, a, t);
    var more;
    more, s' := SweepRun(t, now);
    LeadsOn(s, [a], t, more, s');
    run := [a] + more;
    assert P.CallsOk(s);
    hide P.Inv, Leads, TimeoutResult, EndedWith;
  }

  // ---------------------------------------------------------------- the client shows the protocol

  /** The client's flag and table are those of the protocol. */
  ghost predicate Shows(c: Client, s: P.State)
    reads c
  {
    && c.backend == s.backend && c.isClose == s.isClose && c.callInfos.Keys == s.table.Keys
    && forall k :: k in c.callInfos ==> c.callInfos[k].timeout == s.table[k]
  }

  /** A channel holds what has been sent on it and not taken, and is closed if it has been closed. */
  ghost predicate ChanShows(chan: ResultChan, call: P.Call)
    reads chan
  {
    call.taken <= |call.sent| && chan.buffer == call.sent[call.taken..] && chan.closed == (call.closes > 0)
  }

  ghost predicate ChansShow(callInfos: map<Cid, ClientCallInfo>, s: P.State)
    reads Chans(callInfos)
  {
    forall k :: k in callInfos ==> k in s.calls && ChanShows(callInfos[k].callChan, s.calls[k])
  }

  /** Pending calls have an open, empty channel in both. */
  lemma PendingIsIdle(s: P.State, k: Cid)
    requires P.Inv(s) && k in s.table && s.handler == P.Ready([]) && !s.done.Removing?
    ensures k in s.calls && s.calls[k].sent == [] && s.calls[k].taken == 0 && s.calls[k].closes == 0
  {
    assert P.CallOk(s, k);
  }

  lemma AtSelect(s: P.State)
    requires P.Inv(s) && s.handler == P.Ready([])
    ensures !s.done.Removing?
  {
    assert P.DoneOk(s);
  }

  lemma RepliedShows(was: map<Cid, ClientCallInfo>, c: Client, r: ResultInfo, s: P.State, s': P.State)
    requires c.Valid() && c.callInfos == was - {r.cid} && (r.cid in was ==> was[r.cid].callChan.Completed(r))
    requires was.Keys == s.table.Keys && P.Inv(s) && s.handler == P.Ready([])
    requires r.cid in s.table ==> r.cid in s'.calls && EndedWith(s'.calls[r.cid], r)
    requires forall k :: k in s.calls && (k != r.cid || r.cid !in s.table) ==> k in s'.calls && s'.calls[k] == s.calls[k]
    ensures ChansShow(was, s')
  {
    AtSelect(s);
    hide P.Inv, Chans;
    forall k | k in was ensures k in s'.calls && ChanShows(was[k].callChan, s'.calls[k]) {
      PendingIsIdle(s, k);
      if k != r.cid {
        assert c.callInfos[k] == was[k] && c.callInfos[k].callChan.Idle();
      }
    }
  }

  /** `OnResponse` is a run of the protocol, from any state in which the handler is at its select. */
  method Respond(c: Client, r: ResultInfo, ghost s: P.State) returns (ghost run: seq<P.Action>, ghost s': P.State)
    requires c.Valid() && Shows(c, s) && P.Inv(s) && s.handler == P.Ready([])
    modifies c`callInfos, Chans(c.callInfos)
    ensures Leads(s, run, s') && P.Inv(s') && s'.handler == P.Ready([])
    ensures c.Valid() && Shows(c, s') && ChansShow(old(c.callInfos), s')
  {
    hide P.Inv, Leads, Chans, ChansShow, EndedWith;
    run, s' := ReplyRun(s, r);
    c.OnResponse(r);
    RepliedShows(old(c.callInfos), c, r, s, s');
  }

  lemma SweptShows(was: map<Cid, ClientCallInfo>, c: Client, now: Cid -> int, s: P.State, s': P.State)
    requires c.Valid() && c.callInfos == Left(was, {}, now)
    requires forall k :: k in was && Overdue(was[k], now(k)) ==> was[k].callChan.Completed(TimeoutResult(s.backend, k))
    requires was.Keys == s.table.Keys && (forall k :: k in was ==> was[k].timeout == s.table[k])
    requires P.Inv(s) && s.handler == P.Ready([])
    requires forall k :: k in s.table && s.table[k] < now(k) ==>
               k in s'.calls && EndedWith(s'.calls[k], TimeoutResult(s.backend, k))
    requires forall k :: k in s'.table <==> k in s.table && s.table[k] >= now(k)
    requires forall k :: k in s.calls && (k !in s.table || k in s'.table) ==> k in s'.calls && s'.calls[k] == s.calls[k]
    ensures ChansShow(was, s')
  {
    AtSelect(s);
    hide P.Inv, Chans, TimeoutResult, Left, ChanShows, EndedWith, ResultChan.Completed, ResultChan.Idle, Overdue;
    forall k | k in was ensures k in s'.calls && ChanShows(was[k].callChan, s'.calls[k]) {
      PendingIsIdle(s, k);
      if Overdue(was[k], now(k)) {
        CompletedShows(was[k].callChan, s'.calls[k], TimeoutResult(s.backend, k));
      } else {
        assert k in c.callInfos && c.callInfos[k] == was[k] && c.callInfos[k].callChan.Idle();
        IdleShows(was[k].callChan, s'.calls[k]);
      }
    }
  }

  lemma CompletedShows(chan: ResultChan, c: P.Call, r: ResultInfo)
    requires chan.Completed(r) && EndedWith(c, r)
    ensures ChanShows(chan, c)
  {
  }

  lemma IdleShows(chan: ResultChan, c: P.Call)
    requires chan.Idle() && c.sent == [] && c.taken == 0 && c.closes == 0
    ensures ChanShows(chan, c)
  {
  }

  lemma SweptTable(was: map<Cid, ClientCallInfo>, c: Client, now: Cid -> int, s: P.State, s': P.State)
    requires c.callInfos == Left(was, {}, now)
    requires c.backend == s.backend == s'.backend && c.isClose == s.isClose == s'.isClose
    requires was.Keys == s.table.Keys && (forall k :: k in was ==> was[k].timeout == s.table[k])
    requires forall k :: k in s'.table <==> k in s.table && s.table[k] >= now(k)
    requires forall k :: k in s'.table ==> s'.table[k] == s.table[k]
    ensures Shows(c, s')
  {
  }

  /** `OnTimeout`, with whatever the clock shows at each entry, is a run of the protocol. */
  method Sweep(c: Client, ghost s: P.State, now: Cid -> int) returns (ghost run: seq<P.Action>, ghost s': P.State)
    requires c.Valid() && Shows(c, s) && P.Inv(s) && s.handler == P.Ready([])
    requires forall k :: k in s.table ==> s.clock <= now(k)
    modifies c`callInfos, Chans(c.callInfos)
    ensures Leads(s, run, s') && P.Inv(s') && s'.handler == P.Ready([])
    ensures c.Valid() && Shows(c, s') && ChansShow(old(c.callInfos), s')
  {
    hide P.Inv, Leads, Chans, ChansShow, EndedWith, TimeoutResult, Distinct;
    run, s' := WholeSweep(s, now);
    c.OnTimeout(now);
    SweptShows(old(c.callInfos), c, now, s, s');
    SweptTable(old(c.callInfos), c, now, s, s');
  }

  // ---------------------------------------------------------------- Done

  predicate ClosedEmpty(c: P.Call) {
    c.sent == [] && c.taken == 0 && c.closes == 1
  }

  /** `Done` has closed and deleted the calls of `left`. */
  ghost predicate DrainedBy(s: P.State, left: seq<Cid>, s': P.State) {
    && s'.backend == s.backend && s'.isClose == s.isClose
    && (forall k :: k in s'.table <==> k in s.table && k !in left)
    && (forall k :: k in s'.table ==> s'.table[k] == s.table[k])
    && (forall k :: k in left ==> k in s'.calls && ClosedEmpty(s'.calls[k]))
    && (forall k :: k in s.calls && k !in left ==> k in s'.calls && s'.calls[k] == s.calls[k])
  }

  /** One call of `Done`'s list: its close and its deletion. */
  lemma CloseOne(s: P.State) returns (run: seq<P.Action>, s': P.State)
    requires P.Inv(s) && s.done.Draining? && s.done.left != []
    ensures Leads(s, run, s') && P.Inv(s') && s'.done == P.Draining(s.done.left[1..])
    ensures DrainedBy(s, [s.done.left[0]], s')
  {
    hide P.Inv, Leads;
    FirstToClose(s);
    var k := s.done.left[0];
    var a1, a2 := P.Finish(P.CloseCall), P.Finish(P.DeleteCall);
    var t := P.DoneStep(s, P.CloseCall).value;
    P.StepKeeps(s, a1);
    s' := P.DoneStep(t, P.DeleteCall).value;
    P.StepKeeps(t, a2);
    LeadsBy(s, a1, t);
    LeadsBy(t, a2, s');
    LeadsOn(s, [a1], t, [a2], s');
    run := [a1] + [a2];
  }

  lemma FirstToClose(s: P.State)
    requires P.Inv(s) && s.done.Draining? && s.done.left != []
    ensures var k := s.done.left[0];
            && k in s.table && k in s.calls && s.calls[k].sent == [] && s.calls[k].taken == 0 && s.calls[k].closes == 0
  {
    assert P.DoneOk(s) && s.handler == P.Exited;
    assert P.CallOk(s, s.done.left[0]);
  }

  lemma DrainedOn(s: P.State, left: seq<Cid>, t: P.State, s': P.State)
    requires left != [] && DrainedBy(s, [left[0]], t) && DrainedBy(t, left[1..], s') && left[0] !in left[1..]
    ensures DrainedBy(s, left, s')
  {
    hide ClosedEmpty;
    forall k ensures k in left <==> k == left[0] || k in left[1..] {
      assert left == [left[0]] + left[1..];
    }
  }

  lemma {:induction false} DrainRun(s: P.State) returns (run: seq<P.Action>, s': P.State)
    requires P.Inv(s) && s.done.Draining?
    ensures Leads(s, run, s') && P.Inv(s') && s'.done == P.Draining([]) && DrainedBy(s, s.done.left, s')
    decreases |s.done.left|
  {
    if s.done.left == [] {
      return [], s;
    }
    LeftIsDistinct(s);
    hide P.Inv, DrainedBy, Leads;
    var t;
    run, t := CloseOne(s);
    var more;
    more, s' := DrainRun(t);
    LeadsOn(s, run, t, more, s');
    DrainedOn(s, s.done.left, t, s');
    run := run + more;
  }

  lemma LeftIsDistinct(s: P.State)
    requires P.Inv(s) && s.done.Draining? && s.done.left != []
    ensures s.done.left[0] !in s.done.left[1..]
  {
    assert P.DoneOk(s);
  }

  /** Announcing, meeting the handler, closing the reply channel of the local client, and listing the table. */
  lemma ListRun(s: P.State) returns (run: seq<P.Action>, t: P.State)
    requires P.Inv(s) && s.handler == P.Ready([]) && s.done.NotCalled?
    ensures Leads(s, run, t) && P.Inv(t) && t.done.Draining? && t.isClose && t.backend == s.backend
    ensures t.table == s.table && t.calls == s.calls && forall k :: k in t.done.left <==> k in s.table
  {
    hide P.Inv, Leads;
    var keys := P.Enumeration(s.table);
    var a1, a2, a3, a4 := P.Finish(P.Announce), P.Finish(P.Meet), P.Finish(P.CloseReplies), P.Finish(P.List(keys));
    var s1 := P.DoneStep(s, P.Announce).value;
    P.StepKeeps(s, a1);
    LeadsBy(s, a1, s1);
    var s2 := P.DoneStep(s1, P.Meet).value;
    P.StepKeeps(s1, a2);
    LeadsBy(s1, a2, s2);
    LeadsOn(s, [a1], s1, [a2], s2);
    var s3 := s2;
    run := [a1] + [a2];
    if s.backend == Local {
      s3 := P.DoneStep(s2, P.CloseReplies).value;
      P.StepKeeps(s2, a3);
      LeadsBy(s2, a3, s3);
      LeadsOn(s, run, s2, [a3], s3);
      run := run + [a3];
    }
    t := P.DoneStep(s3, P.List(keys)).value;
    P.StepKeeps(s3, a4);
    LeadsBy(s3, a4, t);
    LeadsOn(s, run, s3, [a4], t);
    run := run + [a4];
  }

  lemma WholeDone(s: P.State) returns (run: seq<P.Action>, s': P.State)
    requires P.Inv(s) && s.handler == P.Ready([]) && s.done.NotCalled?
    ensures Leads(s, run, s') && P.Inv(s') && s'.done == P.Draining([])
    ensures s'.backend == s.backend && s'.isClose && s'.table == map[]
    ensures forall k :: k in s.table ==> k in s'.calls && ClosedEmpty(s'.calls[k])
  {
    hide P.Inv, Leads, ClosedEmpty;
    var t;
    run, t := ListRun(s);
    var more;
    more, s' := DrainRun(t);
    LeadsOn(s, run, t, more, s');
    run := run + more;
    assert s'.table.Keys == {};
  }

  lemma DoneShows(was: map<Cid, ClientCallInfo>, s': P.State)
    requires forall k :: k in was ==> was[k].callChan.closed && was[k].callChan.buffer == []
    requires forall k :: k in was ==> k in s'.calls && ClosedEmpty(s'.calls[k])
    ensures ChansShow(was, s')
  {
    hide Chans;
  }

  /** `Done` is a run of the protocol, from any state in which the handler is at its select. */
  method Finish(c: Client, ghost s: P.State) returns (ghost run: seq<P.Action>, ghost s': P.State)
    requires c.Valid() && Shows(c, s) && P.Inv(s) && s.handler == P.Ready([]) && s.done.NotCalled?
    modifies c, Chans(c.callInfos)
    ensures Leads(s, run, s') && P.Inv(s') && s'.done == P.Draining([])
    ensures c.Valid() && Shows(c, s') && ChansShow(old(c.callInfos), s')
  {
    hide P.Inv, Leads, Chans, ChansShow, ClosedEmpty;
    run, s' := WholeDone(s);
    c.Done();
    DoneShows(old(c.callInfos), s');
  }
}
