/** The pending-call table of an RPC client, in every interleaving of its callers, the goroutine of
  * `on_response_handle` with its timeout sweeps, and one `Done`. Both backends, local and broker.
  */
module PendingCalls {
  import opened Common
  import opened Rpc
  import Runs

  datatype CallerPc = Refused | Checked | Registered

  /** One call and its result channel of capacity one: everything ever `sent` on it, how much of that the caller
    * has `taken`, and how often it has been closed.
    */
  datatype Call = Call(pc: CallerPc, deadline: int, sent: seq<ResultInfo>, taken: nat, closes: nat)

  datatype Entry = Entry(cid: Cid, deadline: int)

  /** `Ready([])` is the select; `Ready(rest)` is a sweep with `rest` of its snapshot still to look at. */
  datatype Handler =
    | Ready(rest: seq<Entry>)
    | Deleting(cid: Cid, r: ResultInfo, rest: seq<Entry>)
    | Sending(cid: Cid, r: ResultInfo, rest: seq<Entry>)
    | Closing(cid: Cid, rest: seq<Entry>)
    | Exited

  /** `Draining([])` is a `Done` that has returned. */
  datatype DonePc =
    | NotCalled
    | Meeting
    | ClosingReplies
    | Listing
    | Draining(left: seq<Cid>)
    | Removing(key: Cid, left: seq<Cid>)

  /** The last timeout sweep: its time, the table it ranges over, the time at which each entry was looked at, and
    * the calls registered and those replied to after the snapshot.
    */
  datatype Sweep = Sweep(at: int, snapshot: set<Cid>, looked: map<Cid, int>, since: set<Cid>, answered: set<Cid>)

  /** `replies` are the replies the handler has received, and `swept` the calls registered before `Done` made its
    * snapshot of the table; `dropped` tells that it has set the table to nil, as that of the broker client does.
    */
  datatype State = State(
    backend: Backend, clock: int, isClose: bool, calls: map<Cid, Call>, table: map<Cid, int>,
    handler: Handler, done: DonePc, repliesClosed: bool, dropped: bool, panicked: bool,
    replies: seq<ResultInfo>, sweep: Sweep, swept: set<Cid>)

  datatype CallerAction =
    | Check(cid: Cid, deadline: int)     // the test of isClose at the start of Call
    | Register(cid: Cid)                 // Set on the table
    | Receive(cid: Cid)                  // the caller takes its result
    | Tick(now: int)

  datatype HandlerAction =
    | TakeReply(r: ResultInfo)
    | TakeTimer(order: seq<Entry>)       // the snapshot of a sweep, in the order the map is ranged over
    | Next
    | Delete
    | Send
    | Close

  datatype DoneAction =
    | Announce
    | Meet                               // the rendezvous on the done channel
    | CloseReplies
    | List(keys: seq<Cid>)
    | CloseCall
    | DeleteCall
    | Drop                               // the broker client sets its table to nil

  datatype Action = Caller(c: CallerAction) | Handle(h: HandlerAction) | Finish(d: DoneAction)

  function Initial(backend: Backend, clock: int): (s: State) {
    State(backend, clock, false, map[], map[], Ready([]), NotCalled, false, false, false, [],
          Sweep(clock, {}, map[], {}, {}), {})
  }

  ghost predicate Enumerates(keys: seq<Cid>, table: map<Cid, int>) {
    && (forall k :: k in keys <==> k in table)
    && (forall i, j :: 0 <= i < j < |keys| ==> keys[i] != keys[j])
  }

  ghost predicate Snapshot(order: seq<Entry>, table: map<Cid, int>) {
    && (forall e :: e in order ==> e.cid in table && table[e.cid] == e.deadline)
    && (forall k :: k in table ==> Entry(k, table[k]) in order)
    && (forall i, j :: 0 <= i < j < |order| ==> order[i].cid != order[j].cid)
  }

  ghost function CallerStep(s: State, a: CallerAction): (r: Option<State>) {
    match a
    case Check(cid, deadline) =>
      if cid in s.calls then None
      else Some(s.(calls := s.calls[cid := Call(if s.isClose then Refused else Checked, deadline, [], 0, 0)]))
    case Register(cid) =>
      if cid !in s.calls || s.calls[cid].pc != Checked then None
      else if s.dropped then Some(s.(panicked := true))
      else Some(s.(calls := s.calls[cid := s.calls[cid].(pc := Registered)],
                   table := s.table[cid := s.calls[cid].deadline], sweep := s.sweep.(since := s.sweep.since + {cid})))
    case Receive(cid) =>
      if cid !in s.calls || s.calls[cid].taken >= |s.calls[cid].sent| then None
      else Some(s.(calls := s.calls[cid := s.calls[cid].(taken := s.calls[cid].taken + 1)]))
    case Tick(now) =>
      if now < s.clock then None else Some(s.(clock := now))
  }

  ghost function HandlerStep(s: State, a: HandlerAction): (r: Option<State>) {
    match a
    case TakeReply(r) =>
      if s.handler != Ready([]) then None
      else if r.cid in s.table then
        Some(s.(replies := s.replies + [r], handler := Deleting(r.cid, r, []), sweep := s.sweep.(answered := s.sweep.answered + {r.cid})))
      else Some(s.(replies := s.replies + [r]))
    case TakeTimer(order) =>
      if s.handler != Ready([]) || !Snapshot(order, s.table) then None
      else Some(s.(handler := Ready(order), sweep := Sweep(s.clock, s.table.Keys, map[], {}, {})))
    case Next =>
      if !s.handler.Ready? || s.handler.rest == [] then None
      else
        var e := s.handler.rest[0];
        var rest := s.handler.rest[1..];
        var h := if e.deadline < s.clock then Deleting(e.cid, TimeoutResult(s.backend, e.cid), rest) else Ready(rest);
        Some(s.(handler := h, sweep := s.sweep.(looked := s.sweep.looked[e.cid := s.clock])))
    case Delete =>
      if !s.handler.Deleting? then None
      else Some(s.(table := s.table - {s.handler.cid}, handler := Sending(s.handler.cid, s.handler.r, s.handler.rest)))
    case Send =>
      if !s.handler.Sending? || s.handler.cid !in s.calls then None
      else
        var c := s.calls[s.handler.cid];
        if c.closes > 0 then Some(s.(panicked := true))
        else if |c.sent| - c.taken >= 1 then None
        else Some(s.(calls := s.calls[s.handler.cid := c.(sent := c.sent + [s.handler.r])],
                     handler := Closing(s.handler.cid, s.handler.rest)))
    case Close =>
      if !s.handler.Closing? || s.handler.cid !in s.calls then None
      else
        var c := s.calls[s.handler.cid];
        Some(s.(calls := s.calls[s.handler.cid := c.(closes := c.closes + 1)],
                handler := Ready(s.handler.rest), panicked := s.panicked || c.closes > 0))
  }

  ghost function DoneStep(s: State, a: DoneAction): (r: Option<State>) {
    match a
    case Announce =>
      if s.done != NotCalled then None else Some(s.(isClose := true, done := Meeting))
    case Meet =>
      if s.done != Meeting || s.handler != Ready([]) then None
      else Some(s.(handler := Exited, done := if s.backend == Local then ClosingReplies else Listing))
    case CloseReplies =>
      if s.done != ClosingReplies then None else Some(s.(repliesClosed := true, done := Listing))
    case List(keys) =>
      if s.done != Listing || !Enumerates(keys, s.table) then None
      else Some(s.(done := Draining(keys), swept := set cid | cid in s.calls && s.calls[cid].pc == Registered))
    case CloseCall =>
      if !s.done.Draining? || s.done.left == [] || s.done.left[0] !in s.calls then None
      else
        var key := s.done.left[0];
        var c := s.calls[key];
        Some(s.(calls := s.calls[key := c.(closes := c.closes + 1)], panicked := s.panicked || c.closes > 0,
                done := Removing(key, s.done.left[1..])))
    case DeleteCall =>
      if !s.done.Removing? then None
      else Some(s.(table := s.table - {s.done.key}, done := Draining(s.done.left)))
    case Drop =>
      if s.backend != Amqp || s.done != Draining([]) || s.dropped then None else Some(s.(dropped := true))
  }

  /** The state after one action, or none while the goroutine that would take it is elsewhere or blocked. */
  ghost function Apply(s: State, a: Action): (r: Option<State>) {
    match a
    case Caller(c) => CallerStep(s, c)
    case Handle(h) => HandlerStep(s, h)
    case Finish(d) => DoneStep(s, d)
  }

  /** `s` is what some run from the start of a client leads to. */
  ghost predicate Reaches(backend: Backend, clock: int, run: seq<Action>, s: State) {
    Runs.After(Apply, Initial(backend, clock), run) == Some(s)
  }

  // ---------------------------------------------------------------- who may complete a call

  predicate InHand(s: State, cid: Cid) {
    (s.handler.Sending? || s.handler.Closing?) && s.handler.cid == cid
  }

  /** A registered call is in the table, in the handler's hands, or closed; only an open one is in either. */
  ghost predicate CallOk(s: State, cid: Cid)
    requires cid in s.calls
  {
    var c := s.calls[cid];
    && c.closes <= 1 && |c.sent| <= 1 && c.taken <= |c.sent|
    && (c.closes == 1 <==>
        (c.pc == Registered && cid !in s.table && !InHand(s, cid)) || (s.done.Removing? && s.done.key == cid))
    && (c.sent != [] ==> c.pc == Registered && cid !in s.table && !(s.handler.Sending? && s.handler.cid == cid))
    && (s.handler.Closing? && s.handler.cid == cid ==> c.sent != [])
  }

  ghost predicate CallsOk(s: State) {
    && (forall cid :: cid in s.calls ==> CallOk(s, cid))
    && (forall cid :: cid in s.table ==>
          cid in s.calls && s.calls[cid].pc == Registered && s.table[cid] == s.calls[cid].deadline)
  }

  function Rest(h: Handler): (rest: seq<Entry>) {
    if h.Exited? then [] else h.rest
  }

  /** What is left of a snapshot is still in the table: nobody else removes an entry while the handler runs. */
  ghost predicate HandlerOk(s: State) {
    && (forall i :: 0 <= i < |Rest(s.handler)| ==>
          Rest(s.handler)[i].cid in s.table && s.table[Rest(s.handler)[i].cid] == Rest(s.handler)[i].deadline)
    && (forall i, j :: 0 <= i < j < |Rest(s.handler)| ==> Rest(s.handler)[i].cid != Rest(s.handler)[j].cid)
    && (s.handler.Deleting? ==> s.handler.cid in s.table)
    && (s.handler.Deleting? ==> forall i :: 0 <= i < |Rest(s.handler)| ==> Rest(s.handler)[i].cid != s.handler.cid)
    && (s.handler.Sending? || s.handler.Closing? ==>
          s.handler.cid in s.calls && s.calls[s.handler.cid].pc == Registered && s.handler.cid !in s.table)
  }

  predicate PastMeeting(d: DonePc) {
    !d.NotCalled? && !d.Meeting?
  }

  ghost predicate DoneOk(s: State) {
    && (!s.done.NotCalled? ==> s.isClose)
    && (PastMeeting(s.done) <==> s.handler == Exited)
    && (s.repliesClosed ==> PastMeeting(s.done))
    && (s.done.Draining? || s.done.Removing? ==>
          && (forall i :: 0 <= i < |s.done.left| ==> s.done.left[i] in s.table)
          && (forall i, j :: 0 <= i < j < |s.done.left| ==> s.done.left[i] != s.done.left[j]))
    && (s.done.Removing? ==> s.done.key in s.table && s.done.key !in s.done.left)
  }

  /** Nothing registered before `Done` lists the table is forgotten. */
  ghost predicate SweptOk(s: State) {
    && (s.swept != {} ==> s.done.Draining? || s.done.Removing?)
    && (forall cid :: cid in s.swept ==> cid in s.calls && s.calls[cid].pc == Registered)
    && (s.done.Draining? ==> forall cid :: cid in s.swept && cid in s.table ==> cid in s.done.left)
    && (s.done.Removing? ==> forall cid :: cid in s.swept && cid in s.table ==> cid in s.done.left || cid == s.done.key)
    && (s.done.Removing? ==> s.done.key in s.swept)
    && (s.done.Draining? || s.done.Removing? ==>
          && (forall i :: 0 <= i < |s.done.left| ==> s.done.left[i] in s.swept)
          && (forall cid :: cid in s.calls && s.calls[cid].pc == Registered && cid !in s.swept ==> cid in s.table))
  }

  /** A result is a reply for that very call or the client's own report that its deadline has passed. */
  ghost predicate Answers(s: State, cid: Cid, deadline: int, r: ResultInfo) {
    || (r in s.replies && r.cid == cid)
    || (r == TimeoutResult(s.backend, cid) && deadline < s.clock)
  }

  ghost predicate AnswersOk(s: State) {
    && (forall cid, i :: cid in s.calls && 0 <= i < |s.calls[cid].sent| ==>
          Answers(s, cid, s.calls[cid].deadline, s.calls[cid].sent[i]))
    && ((s.handler.Deleting? || s.handler.Sending?) && s.handler.cid in s.calls ==>
          Answers(s, s.handler.cid, s.calls[s.handler.cid].deadline, s.handler.r))
  }

  /** Nothing but a table set to nil makes anybody panic. */
  ghost predicate PanicOk(s: State) {
    (s.panicked ==> s.dropped) && (s.dropped ==> s.backend == Amqp && s.done == Draining([]))
  }

  /** The sweep has found the call's deadline passed. */
  ghost predicate Due(s: State, k: Cid) {
    k in s.sweep.looked && k in s.calls && s.calls[k].deadline < s.sweep.looked[k]
  }

  ghost predicate Unseen(s: State, k: Cid) {
    k in s.table && Entry(k, s.table[k]) in Rest(s.handler)
  }

  predicate Picked(s: State, k: Cid) {
    s.handler.Deleting? && s.handler.cid == k
  }

  ghost predicate Reported(s: State, k: Cid) {
    || (s.handler.Sending? && s.handler.cid == k && s.handler.r == TimeoutResult(s.backend, k))
    || (k in s.calls && s.calls[k].sent == [TimeoutResult(s.backend, k)])
  }

  /** Where an entry stands with the last sweep. */
  ghost predicate KeyOk(s: State, k: Cid) {
    && (k in s.table ==> k in s.sweep.since || k in s.sweep.snapshot)
    && (k in s.sweep.since ==> k in s.calls && s.calls[k].pc == Registered)
    && (k in s.sweep.snapshot ==> k in s.calls && s.calls[k].pc == Registered && k !in s.sweep.since && (k in s.sweep.looked || Unseen(s, k)))
    && (k in s.sweep.looked ==> k in s.sweep.snapshot && !Unseen(s, k) && s.sweep.at <= s.sweep.looked[k] <= s.clock)
    && (Unseen(s, k) ==> k in s.sweep.snapshot && s.sweep.answered == {})
    && (k in s.sweep.answered ==> (k in s.sweep.snapshot || k in s.sweep.since) && !Due(s, k) && (k !in s.table || Picked(s, k)))
    && (Due(s, k) ==> if k in s.table then Picked(s, k) && s.handler.r == TimeoutResult(s.backend, k) else Reported(s, k))
    && (Picked(s, k) ==> Due(s, k) || k in s.sweep.answered)
    && ((k in s.sweep.looked || k in s.sweep.since) && !Due(s, k) && k !in s.sweep.answered ==> k in s.table)
  }

  ghost predicate SweepOk(s: State) {
    s.handler != Exited ==> s.sweep.at <= s.clock && forall k :: KeyOk(s, k)
  }

  ghost predicate Inv(s: State) {
    CallsOk(s) && HandlerOk(s) && DoneOk(s) && PanicOk(s) && SweptOk(s) && AnswersOk(s) && SweepOk(s)
  }

  // ---------------------------------------------------------------- each step keeps each part

  lemma CheckKeepsCalls(s: State, cid: Cid, deadline: int)
    requires CallsOk(s) && HandlerOk(s) && DoneOk(s) && CallerStep(s, Check(cid, deadline)).Some?
    ensures CallsOk(CallerStep(s, Check(cid, deadline)).value)
  {
    var s' := CallerStep(s, Check(cid, deadline)).value;
    forall k | k in s'.calls ensures CallOk(s', k) {
      assert k in s.calls ==> CallOk(s, k);
    }
  }

  lemma RegisterKeepsCalls(s: State, cid: Cid)
    requires CallsOk(s) && HandlerOk(s) && DoneOk(s) && CallerStep(s, Register(cid)).Some?
    ensures CallsOk(CallerStep(s, Register(cid)).value)
  {
    var s' := CallerStep(s, Register(cid)).value;
    forall k | k in s'.calls ensures CallOk(s', k) {
      assert CallOk(s, k);
    }
  }

  lemma ReceiveKeepsCalls(s: State, cid: Cid)
    requires CallsOk(s) && CallerStep(s, Receive(cid)).Some?
    ensures CallsOk(CallerStep(s, Receive(cid)).value)
  {
    var s' := CallerStep(s, Receive(cid)).value;
    forall k | k in s'.calls ensures CallOk(s', k) {
      assert CallOk(s, k);
    }
  }

  /** Nothing that concerns the calls has changed but, perhaps, where the handler is away from them. */
  lemma SameCallsOk(s: State, s': State)
    requires CallsOk(s) && s'.calls == s.calls && s'.table == s.table && s'.done == s.done
    requires forall cid :: InHand(s', cid) == InHand(s, cid)
    requires s'.handler.Sending? || s'.handler.Closing? ==> s'.handler == s.handler
    ensures CallsOk(s')
  {
    forall cid | cid in s'.calls ensures CallOk(s', cid) {
      assert CallOk(s, cid) && InHand(s', cid) == InHand(s, cid);
    }
  }

  lemma CallerKeepsCalls(s: State, a: CallerAction)
    requires CallsOk(s) && HandlerOk(s) && DoneOk(s) && CallerStep(s, a).Some?
    ensures CallsOk(CallerStep(s, a).value)
  {
    hide CallsOk, HandlerOk, DoneOk;
    match a {
      case Check(cid, deadline) => CheckKeepsCalls(s, cid, deadline);
      case Register(cid) => RegisterKeepsCalls(s, cid);
      case Receive(cid) => ReceiveKeepsCalls(s, cid);
      case _ => SameCallsOk(s, CallerStep(s, a).value);
    }
  }

  lemma CallerKeepsHandler(s: State, a: CallerAction)
    requires CallsOk(s) && HandlerOk(s) && CallerStep(s, a).Some?
    ensures HandlerOk(CallerStep(s, a).value)
  {
    hide CallOk;
  }

  lemma CallerKeepsDone(s: State, a: CallerAction)
    requires DoneOk(s) && CallerStep(s, a).Some?
    ensures DoneOk(CallerStep(s, a).value)
  {
  }

  lemma CheckKeepsSweep(s: State, cid: Cid, deadline: int)
    requires SweepOk(s) && CallerStep(s, Check(cid, deadline)).Some?
    ensures SweepOk(CallerStep(s, Check(cid, deadline)).value)
  {
    hide TimeoutResult;
    var s' := CallerStep(s, Check(cid, deadline)).value;
    if s.handler != Exited {
      forall k ensures KeyOk(s', k) {
        assert KeyOk(s, k) && KeyOk(s, cid);
      }
    }
  }

  lemma RegisterKeepsSweep(s: State, cid: Cid)
    requires CallsOk(s) && HandlerOk(s) && SweepOk(s) && CallerStep(s, Register(cid)).Some?
    ensures SweepOk(CallerStep(s, Register(cid)).value)
  {
    hide CallOk, TimeoutResult;
    var s' := CallerStep(s, Register(cid)).value;
    if s.handler != Exited {
      assert cid !in s.table && forall e :: e in Rest(s.handler) ==> e.cid != cid;
      forall k ensures KeyOk(s', k) {
        assert KeyOk(s, k);
      }
    }
  }

  lemma CallerKeepsSweep(s: State, a: CallerAction)
    requires CallsOk(s) && HandlerOk(s) && SweepOk(s) && CallerStep(s, a).Some?
    ensures SweepOk(CallerStep(s, a).value)
  {
    hide CallsOk, HandlerOk;
    match a {
      case Check(cid, deadline) => CheckKeepsSweep(s, cid, deadline);
      case Register(cid) => RegisterKeepsSweep(s, cid);
      case _ =>
        var s' := CallerStep(s, a).value;
        if s.handler != Exited {
          forall k ensures KeyOk(s', k) {
            assert KeyOk(s, k);
          }
        }
    }
  }

  lemma CallerKeepsPanic(s: State, a: CallerAction)
    requires PanicOk(s) && CallerStep(s, a).Some?
    ensures PanicOk(CallerStep(s, a).value)
  {
  }

  lemma CallerKeepsSwept(s: State, a: CallerAction)
    requires CallsOk(s) && SweptOk(s) && CallerStep(s, a).Some?
    ensures SweptOk(CallerStep(s, a).value)
  {
    hide CallOk;
  }

  lemma CallerKeepsAnswers(s: State, a: CallerAction)
    requires CallsOk(s) && HandlerOk(s) && AnswersOk(s) && CallerStep(s, a).Some?
    ensures AnswersOk(CallerStep(s, a).value)
  {
    hide CallOk;
  }

  lemma CloseCallKeepsCalls(s: State)
    requires CallsOk(s) && HandlerOk(s) && DoneOk(s) && DoneStep(s, CloseCall).Some?
    ensures CallsOk(DoneStep(s, CloseCall).value)
  {
    var s' := DoneStep(s, CloseCall).value;
    assert s.done.left[0] in s.table && CallOk(s, s.done.left[0]);
    forall cid | cid in s'.calls ensures CallOk(s', cid) {
      assert CallOk(s, cid);
    }
  }

  lemma DeleteCallKeepsCalls(s: State)
    requires CallsOk(s) && HandlerOk(s) && DoneOk(s) && DoneStep(s, DeleteCall).Some?
    ensures CallsOk(DoneStep(s, DeleteCall).value)
  {
    var s' := DoneStep(s, DeleteCall).value;
    forall cid | cid in s'.calls ensures CallOk(s', cid) {
      assert CallOk(s, cid);
    }
  }

  lemma QuietDoneKeepsCalls(s: State, a: DoneAction)
    requires a.Announce? || a.Meet? || a.CloseReplies? || a.List? || a.Drop?
    requires CallsOk(s) && DoneStep(s, a).Some?
    ensures CallsOk(DoneStep(s, a).value)
  {
    var s' := DoneStep(s, a).value;
    assert s'.calls == s.calls && s'.table == s.table && !s'.done.Removing? && !s.done.Removing?;
    assert s'.handler == s.handler || (s'.handler == Exited && s.handler == Ready([]));
    hide DoneStep;
    forall cid | cid in s'.calls ensures CallOk(s', cid) {
      assert CallOk(s, cid);
    }
  }

  lemma DoneKeepsCalls(s: State, a: DoneAction)
    requires CallsOk(s) && HandlerOk(s) && DoneOk(s) && DoneStep(s, a).Some?
    ensures CallsOk(DoneStep(s, a).value)
  {
    hide CallsOk, HandlerOk, DoneOk, DoneStep;
    match a {
      case CloseCall => CloseCallKeepsCalls(s);
      case DeleteCall => DeleteCallKeepsCalls(s);
      case _ => QuietDoneKeepsCalls(s, a);
    }
  }

  lemma DoneKeepsRest(s: State, a: DoneAction)
    requires CallsOk(s) && HandlerOk(s) && DoneOk(s) && DoneStep(s, a).Some?
    ensures var s' := DoneStep(s, a).value; HandlerOk(s') && DoneOk(s')
  {
    hide CallOk;
  }

  lemma DoneKeepsSwept(s: State, a: DoneAction)
    requires CallsOk(s) && DoneOk(s) && SweptOk(s) && DoneStep(s, a).Some?
    ensures SweptOk(DoneStep(s, a).value)
  {
    hide CallOk;
  }

  lemma DoneKeepsAnswers(s: State, a: DoneAction)
    requires CallsOk(s) && HandlerOk(s) && DoneOk(s) && AnswersOk(s) && DoneStep(s, a).Some?
    ensures AnswersOk(DoneStep(s, a).value)
  {
    hide CallOk;
  }

  lemma DoneKeepsSweep(s: State, a: DoneAction)
    requires DoneOk(s) && SweepOk(s) && DoneStep(s, a).Some?
    ensures SweepOk(DoneStep(s, a).value)
  {
    var s' := DoneStep(s, a).value;
    if s'.handler != Exited {
      assert a.Announce?;
      forall k ensures KeyOk(s', k) {
        assert KeyOk(s, k);
      }
    }
  }

  lemma DoneKeepsPanic(s: State, a: DoneAction)
    requires CallsOk(s) && DoneOk(s) && PanicOk(s) && DoneStep(s, a).Some?
    ensures PanicOk(DoneStep(s, a).value)
  {
    if a.CloseCall? {
      assert s.done.left[0] in s.table && CallOk(s, s.done.left[0]);
    }
  }

  lemma DeleteKeepsCalls(s: State)
    requires CallsOk(s) && HandlerOk(s) && DoneOk(s) && HandlerStep(s, Delete).Some?
    ensures CallsOk(HandlerStep(s, Delete).value)
  {
    var s' := HandlerStep(s, Delete).value;
    forall cid | cid in s'.calls ensures CallOk(s', cid) {
      assert CallOk(s, cid);
    }
  }

  lemma SendKeepsCalls(s: State)
    requires CallsOk(s) && HandlerOk(s) && DoneOk(s) && HandlerStep(s, Send).Some?
    ensures CallsOk(HandlerStep(s, Send).value)
  {
    var s' := HandlerStep(s, Send).value;
    assert CallOk(s, s.handler.cid);
    forall cid | cid in s'.calls ensures CallOk(s', cid) {
      assert CallOk(s, cid);
    }
  }

  lemma CloseKeepsCalls(s: State)
    requires CallsOk(s) && HandlerOk(s) && DoneOk(s) && HandlerStep(s, Close).Some?
    ensures CallsOk(HandlerStep(s, Close).value)
  {
    var s' := HandlerStep(s, Close).value;
    assert CallOk(s, s.handler.cid);
    forall cid | cid in s'.calls ensures CallOk(s', cid) {
      assert CallOk(s, cid);
    }
  }

  lemma IdleFrame(s: State, a: HandlerAction)
    requires !a.Delete? && !a.Send? && !a.Close? && HandlerStep(s, a).Some?
    ensures var s' := HandlerStep(s, a).value;
            && s'.calls == s.calls && s'.table == s.table && s'.done == s.done && s'.panicked == s.panicked
            && s.handler.Ready? && (s'.handler.Ready? || s'.handler.Deleting?)
  {
    match a
    case TakeReply(r) =>
    case TakeTimer(order) =>
    case Next =>
    case _ =>
  }

  lemma IdleKeepsCalls(s: State, a: HandlerAction)
    requires !a.Delete? && !a.Send? && !a.Close?
    requires CallsOk(s) && HandlerStep(s, a).Some?
    ensures CallsOk(HandlerStep(s, a).value)
  {
    hide HandlerStep, CallsOk;
    IdleFrame(s, a);
    SameCallsOk(s, HandlerStep(s, a).value);
  }

  lemma HandlerKeepsCalls(s: State, a: HandlerAction)
    requires CallsOk(s) && HandlerOk(s) && DoneOk(s) && HandlerStep(s, a).Some?
    ensures CallsOk(HandlerStep(s, a).value)
  {
    hide CallsOk, HandlerOk, DoneOk, HandlerStep;
    match a
    case Delete =>
      DeleteKeepsCalls(s);
    case Send =>
      SendKeepsCalls(s);
    case Close =>
      CloseKeepsCalls(s);
    case _ =>
      IdleKeepsCalls(s, a);
  }

  lemma NextKeepsHandler(s: State)
    requires CallsOk(s) && HandlerOk(s) && HandlerStep(s, Next).Some?
    ensures HandlerOk(HandlerStep(s, Next).value)
  {
    hide CallsOk;
    var s' := HandlerStep(s, Next).value;
    var rest, rest' := Rest(s.handler), Rest(s'.handler);
    assert rest[0].cid in s.table && s'.table == s.table;
    assert rest' == rest[1..];
    forall i | 0 <= i < |rest'| ensures rest'[i].cid in s'.table && s'.table[rest'[i].cid] == rest'[i].deadline {
      assert rest'[i] == rest[i + 1];
    }
    forall i, j | 0 <= i < j < |rest'| ensures rest'[i].cid != rest'[j].cid {
      assert rest'[i] == rest[i + 1] && rest'[j] == rest[j + 1];
    }
    forall i | 0 <= i < |rest'| ensures rest'[i].cid != rest[0].cid {
      assert rest'[i] == rest[i + 1];
    }
  }

  lemma TimerKeepsHandler(s: State, order: seq<Entry>)
    requires HandlerOk(s) && HandlerStep(s, TakeTimer(order)).Some?
    ensures HandlerOk(HandlerStep(s, TakeTimer(order)).value)
  {
    assert forall i :: 0 <= i < |order| ==> order[i] in order;
  }

  lemma ReplyKeepsHandler(s: State, a: HandlerAction)
    requires a.TakeReply? && HandlerOk(s) && HandlerStep(s, a).Some?
    ensures HandlerOk(HandlerStep(s, a).value)
  {
    assert Rest(HandlerStep(s, a).value.handler) == [];
  }

  lemma CompletionKeepsHandler(s: State, a: HandlerAction)
    requires a.Delete? || a.Send? || a.Close?
    requires CallsOk(s) && HandlerOk(s) && HandlerStep(s, a).Some?
    ensures HandlerOk(HandlerStep(s, a).value)
  {
    hide CallOk;
    assert Rest(HandlerStep(s, a).value.handler) == Rest(s.handler);
  }

  lemma HandlerKeepsHandler(s: State, a: HandlerAction)
    requires CallsOk(s) && HandlerOk(s) && DoneOk(s) && HandlerStep(s, a).Some?
    ensures HandlerOk(HandlerStep(s, a).value)
  {
    hide CallsOk, HandlerOk, DoneOk, HandlerStep;
    match a {
      case TakeTimer(order) => TimerKeepsHandler(s, order);
      case Next => NextKeepsHandler(s);
      case TakeReply(r) => ReplyKeepsHandler(s, a);
      case _ => CompletionKeepsHandler(s, a);
    }
  }

  lemma HandlerFrame(s: State, a: HandlerAction)
    requires HandlerStep(s, a).Some?
    ensures var s' := HandlerStep(s, a).value;
            && s'.backend == s.backend && s'.done == s.done && s'.repliesClosed == s.repliesClosed && s'.swept == s.swept
            && s'.isClose == s.isClose && s'.clock == s.clock && s'.dropped == s.dropped
            && s.handler != Exited && s'.handler != Exited
  {
    match a
    case TakeReply(r) =>
    case Next =>
    case Send =>
    case _ =>
  }

  /** A step of the handler changes at most what has been sent to the one call it has in hand and its close count. */
  ghost predicate OneCallMoved(s: State, s': State, cid: Cid) {
    && cid in s.calls && cid in s'.calls && s'.calls == s.calls[cid := s'.calls[cid]]
    && s'.calls[cid].pc == s.calls[cid].pc && s'.calls[cid].deadline == s.calls[cid].deadline
  }

  lemma DeleteMoves(s: State)
    requires HandlerStep(s, Delete).Some?
    ensures var s' := HandlerStep(s, Delete).value;
            s.handler.Deleting? && s'.calls == s.calls && s'.table == s.table - {s.handler.cid}
  {
  }

  lemma CompletionMoves(s: State, a: HandlerAction)
    requires (a.Send? || a.Close?) && HandlerStep(s, a).Some?
    ensures var s' := HandlerStep(s, a).value;
            && s'.table == s.table && (s.handler.Sending? || s.handler.Closing?)
            && (s'.calls == s.calls || OneCallMoved(s, s', s.handler.cid))
  {
  }

  lemma HandlerMovesOne(s: State, a: HandlerAction)
    requires HandlerStep(s, a).Some?
    ensures var s' := HandlerStep(s, a).value;
            s'.calls == s.calls || (!s.handler.Ready? && !s.handler.Exited? && OneCallMoved(s, s', s.handler.cid))
    ensures var s' := HandlerStep(s, a).value;
            s'.table == s.table || (s.handler.Deleting? && s'.table == s.table - {s.handler.cid})
  {
    hide HandlerStep, OneCallMoved;
    if a.Delete? {
      DeleteMoves(s);
    } else if a.Send? || a.Close? {
      CompletionMoves(s, a);
    } else {
      IdleFrame(s, a);
    }
  }

  lemma MovedKeepsPc(s: State, s': State, cid: Cid)
    requires OneCallMoved(s, s', cid)
    ensures forall k :: k in s.calls <==> k in s'.calls
    ensures forall k :: k in s.calls ==> s'.calls[k].pc == s.calls[k].pc && s'.calls[k].deadline == s.calls[k].deadline
    ensures forall k :: k in s.calls && k != cid ==> s'.calls[k] == s.calls[k]
  {
  }

  lemma HandlerKeepsDone(s: State, a: HandlerAction)
    requires DoneOk(s) && SweptOk(s) && HandlerStep(s, a).Some?
    ensures DoneOk(HandlerStep(s, a).value) && SweptOk(HandlerStep(s, a).value)
  {
    hide HandlerStep, OneCallMoved;
    var s' := HandlerStep(s, a).value;
    HandlerFrame(s, a);
    HandlerMovesOne(s, a);
    if s'.calls != s.calls {
      MovedKeepsPc(s, s', s.handler.cid);
    }
  }

  lemma AnswersStay(s: State, s': State, cid: Cid, deadline: int, r: ResultInfo)
    requires Answers(s, cid, deadline, r) && s'.replies == s.replies && s'.backend == s.backend && s'.clock == s.clock
    ensures Answers(s', cid, deadline, r)
  {
  }

  lemma SendKeepsAnswers(s: State)
    requires CallsOk(s) && HandlerOk(s) && AnswersOk(s) && HandlerStep(s, Send).Some?
    ensures AnswersOk(HandlerStep(s, Send).value)
  {
    hide CallOk, Answers, TimeoutResult;
    var s' := HandlerStep(s, Send).value;
    forall cid, i | cid in s'.calls && 0 <= i < |s'.calls[cid].sent|
      ensures Answers(s', cid, s'.calls[cid].deadline, s'.calls[cid].sent[i])
    {
      AnswersStay(s, s', cid, s.calls[cid].deadline, s'.calls[cid].sent[i]);
    }
    AnswersStay(s, s', s.handler.cid, s.calls[s.handler.cid].deadline, s.handler.r);
  }

  lemma ChoiceKeepsAnswers(s: State, a: HandlerAction)
    requires a.TakeReply? || a.Next?
    requires CallsOk(s) && HandlerOk(s) && AnswersOk(s) && HandlerStep(s, a).Some?
    ensures AnswersOk(HandlerStep(s, a).value)
  {
    hide CallOk;
    if a.Next? {
      assert Rest(s.handler)[0].cid in s.table;
    }
  }

  lemma HandlerKeepsAnswers(s: State, a: HandlerAction)
    requires CallsOk(s) && HandlerOk(s) && AnswersOk(s) && HandlerStep(s, a).Some?
    ensures AnswersOk(HandlerStep(s, a).value)
  {
    hide CallOk, HandlerOk;
    match a
    case Send =>
      SendKeepsAnswers(s);
    case TakeReply(r) =>
      ChoiceKeepsAnswers(s, a);
    case Next =>
      ChoiceKeepsAnswers(s, a);
    case _ =>
  }

  lemma ReplyKeepsSweep(s: State, r: ResultInfo)
    requires SweepOk(s) && HandlerStep(s, TakeReply(r)).Some?
    ensures SweepOk(HandlerStep(s, TakeReply(r)).value)
  {
    hide TimeoutResult;
    var s' := HandlerStep(s, TakeReply(r)).value;
    assert Rest(s'.handler) == [] == Rest(s.handler);
    forall k ensures KeyOk(s', k) {
      assert KeyOk(s, k);
    }
  }

  lemma TimerKeepsSweep(s: State, order: seq<Entry>)
    requires CallsOk(s) && SweepOk(s) && HandlerStep(s, TakeTimer(order)).Some?
    ensures SweepOk(HandlerStep(s, TakeTimer(order)).value)
  {
    hide CallOk, TimeoutResult;
    var s' := HandlerStep(s, TakeTimer(order)).value;
    assert Rest(s'.handler) == order && s'.table == s.table && s'.sweep.snapshot == s.table.Keys && s'.calls == s.calls;
    assert s'.sweep.looked == map[] && s'.sweep.answered == s'.sweep.since == {};
    forall k ensures KeyOk(s', k) {
    }
  }

  lemma NextKeepsSweep(s: State)
    requires CallsOk(s) && HandlerOk(s) && SweepOk(s) && HandlerStep(s, Next).Some?
    ensures SweepOk(HandlerStep(s, Next).value)
  {
    hide CallOk, TimeoutResult;
    var s' := HandlerStep(s, Next).value;
    var e, rest' := s.handler.rest[0], Rest(s'.handler);
    assert Rest(s.handler)[0] == e && e.cid in s.table && s.table[e.cid] == e.deadline == s.calls[e.cid].deadline;
    assert Rest(s.handler) == [e] + rest';
    assert forall i :: 0 <= i < |rest'| ==> rest'[i] == Rest(s.handler)[i + 1];
    assert Unseen(s, e.cid) && !Unseen(s', e.cid);
    forall k ensures KeyOk(s', k) {
      assert KeyOk(s, k) && KeyOk(s, e.cid);
      assert k != e.cid ==> Unseen(s', k) == Unseen(s, k);
    }
  }

  lemma DeleteKeepsSweep(s: State)
    requires CallsOk(s) && HandlerOk(s) && SweepOk(s) && HandlerStep(s, Delete).Some?
    ensures SweepOk(HandlerStep(s, Delete).value)
  {
    hide CallOk, TimeoutResult;
    var s' := HandlerStep(s, Delete).value;
    assert Rest(s'.handler) == Rest(s.handler);
    forall k ensures KeyOk(s', k) {
      assert KeyOk(s, k);
    }
  }

  lemma SendFrame(s: State)
    requires CallsOk(s) && HandlerOk(s) && DoneOk(s) && HandlerStep(s, Send).Some?
    ensures var s', h := HandlerStep(s, Send).value, s.handler;
            && h.Sending? && s'.handler == Closing(h.cid, h.rest) && h.cid in s.calls
            && s'.calls == s.calls[h.cid := s.calls[h.cid].(sent := [h.r])] && s.calls[h.cid].sent == []
            && s'.table == s.table && s'.sweep == s.sweep && s'.clock == s.clock && s'.backend == s.backend
  {
    assert CallOk(s, s.handler.cid) && [] + [s.handler.r] == [s.handler.r];
  }

  lemma SendKeepsSweep(s: State)
    requires CallsOk(s) && HandlerOk(s) && DoneOk(s) && SweepOk(s) && HandlerStep(s, Send).Some?
    ensures SweepOk(HandlerStep(s, Send).value)
  {
    hide TimeoutResult, CallsOk, HandlerOk, DoneOk, HandlerStep;
    SendFrame(s);
    var s' := HandlerStep(s, Send).value;
    assert Rest(s'.handler) == Rest(s.handler);
    forall k ensures KeyOk(s', k) {
      assert KeyOk(s, k);
    }
  }

  lemma CloseKeepsSweep(s: State)
    requires SweepOk(s) && HandlerStep(s, Close).Some?
    ensures SweepOk(HandlerStep(s, Close).value)
  {
    hide TimeoutResult;
    var s' := HandlerStep(s, Close).value;
    assert Rest(s'.handler) == Rest(s.handler);
    forall k ensures KeyOk(s', k) {
      assert KeyOk(s, k);
    }
  }

  lemma HandlerKeepsSweep(s: State, a: HandlerAction)
    requires CallsOk(s) && HandlerOk(s) && DoneOk(s) && SweepOk(s) && HandlerStep(s, a).Some?
    ensures SweepOk(HandlerStep(s, a).value)
  {
    hide CallsOk, HandlerOk, DoneOk, SweepOk, HandlerStep;
    match a {
      case TakeReply(r) => ReplyKeepsSweep(s, r);
      case TakeTimer(order) => TimerKeepsSweep(s, order);
      case Next => NextKeepsSweep(s);
      case Delete => DeleteKeepsSweep(s);
      case Send => SendKeepsSweep(s);
      case Close => CloseKeepsSweep(s);
    }
  }

  lemma HandlerKeepsPanic(s: State, a: HandlerAction)
    requires CallsOk(s) && DoneOk(s) && PanicOk(s) && HandlerStep(s, a).Some?
    ensures PanicOk(HandlerStep(s, a).value)
  {
    if s.handler.Sending? || s.handler.Closing? {
      assert s.handler.cid in s.calls ==> CallOk(s, s.handler.cid);
    }
  }

  lemma StepKeeps(s: State, a: Action)
    requires Inv(s) && Apply(s, a).Some?
    ensures Inv(Apply(s, a).value)
  {
    hide CallsOk, HandlerOk, DoneOk, PanicOk, SweptOk, AnswersOk, SweepOk, CallerStep, HandlerStep, DoneStep;
    match a
    case Caller(c) =>
      CallerKeepsCalls(s, c);
      CallerKeepsHandler(s, c);
      CallerKeepsDone(s, c);
      CallerKeepsSweep(s, c);
      CallerKeepsSwept(s, c);
      CallerKeepsAnswers(s, c);
      CallerKeepsPanic(s, c);
    case Handle(h) =>
      HandlerKeepsCalls(s, h);
      HandlerKeepsHandler(s, h);
      HandlerKeepsDone(s, h);
      HandlerKeepsAnswers(s, h);
      HandlerKeepsSweep(s, h);
      HandlerKeepsPanic(s, h);
    case Finish(d) =>
      DoneKeepsCalls(s, d);
      DoneKeepsRest(s, d);
      DoneKeepsSwept(s, d);
      DoneKeepsAnswers(s, d);
      DoneKeepsSweep(s, d);
      DoneKeepsPanic(s, d);
  }

  lemma EveryRunKeeps(backend: Backend, clock: int, run: seq<Action>, s: State)
    requires Reaches(backend, clock, run, s)
    ensures Inv(s)
  {
    assert Inv(Initial(backend, clock));
    hide Apply, Inv, Initial;
    assert Runs.Keeps(Apply, Inv) by {
      forall t, a | Inv(t) && Apply(t, a).Some? ensures Inv(Apply(t, a).value) {
        StepKeeps(t, a);
      }
    }
    Runs.RunKeeps(Apply, Inv, Initial(backend, clock), run);
  }

  // ---------------------------------------------------------------- what this means for callers

  /** In every run each call's channel gets at most one result and is closed at most once, never the other way
    * round, nothing is closed twice or sent to after it is closed, and the handler's send finds room. Nobody
    * panics before the broker client has set its table to nil.
    */
  lemma AtMostOnce(backend: Backend, clock: int, run: seq<Action>, s: State)
    requires Reaches(backend, clock, run, s)
    ensures (s.panicked ==> s.dropped) && (s.dropped ==> backend == Amqp && s.done == Draining([]))
    ensures forall cid :: cid in s.calls ==> |s.calls[cid].sent| <= 1 && s.calls[cid].closes <= 1
    ensures s.handler.Sending? ==> HandlerStep(s, Send).Some? && !HandlerStep(s, Send).value.panicked
    ensures s.handler.Closing? ==>
              s.handler.cid in s.calls && s.calls[s.handler.cid].closes == 0 && |s.calls[s.handler.cid].sent| == 1
  {
    EveryRunKeeps(backend, clock, run, s);
    BackendStays(backend, clock, run, s);
    forall cid | cid in s.calls ensures CallOk(s, cid) {
    }
  }

  /** A caller whose result has been sent can take it, and then finds nothing more. */
  lemma ResultIsTakenOnce(backend: Backend, clock: int, run: seq<Action>, s: State, cid: Cid)
    requires Reaches(backend, clock, run, s) && cid in s.calls
    ensures CallerStep(s, Receive(cid)).Some? <==> s.calls[cid].sent != [] && s.calls[cid].taken == 0
    ensures CallerStep(s, Receive(cid)).Some? ==>
              var c := CallerStep(s, Receive(cid)).value.calls[cid]; c.taken == 1 == |c.sent| && c.sent == s.calls[cid].sent
  {
    EveryRunKeeps(backend, clock, run, s);
    assert CallOk(s, cid);
  }

  /** The result a caller finds is a reply to that very call, or the report of a deadline that has passed. */
  lemma ResultIsOwn(backend: Backend, clock: int, run: seq<Action>, s: State, cid: Cid)
    requires Reaches(backend, clock, run, s) && cid in s.calls && s.calls[cid].sent != []
    ensures |s.calls[cid].sent| == 1
    ensures var r := s.calls[cid].sent[0];
            || (r in s.replies && r.cid == cid)
            || (r == TimeoutResult(s.backend, cid) && s.calls[cid].deadline < s.clock)
  {
    EveryRunKeeps(backend, clock, run, s);
    assert CallOk(s, cid);
    assert Answers(s, cid, s.calls[cid].deadline, s.calls[cid].sent[0]);
  }

  /** Once `Done` has returned, the calls whose channel is closed are exactly those registered before it listed
    * the table; a call that passed the test of `isClose` but registered later stays open.
    */
  lemma DoneClosesExactly(backend: Backend, clock: int, run: seq<Action>, s: State)
    requires Reaches(backend, clock, run, s) && s.done == Draining([])
    ensures forall cid :: cid in s.calls && s.calls[cid].pc == Registered ==> (s.calls[cid].closes == 1 <==> cid in s.swept)
    ensures s.table.Keys * s.swept == {}
  {
    EveryRunKeeps(backend, clock, run, s);
    forall cid | cid in s.calls && s.calls[cid].pc == Registered
      ensures s.calls[cid].closes == 1 <==> cid in s.swept
    {
      assert CallOk(s, cid);
    }
  }

  ghost function Returned(swept: set<Cid>): (inv: State -> bool) {
    (s: State) => s.done == Draining([]) && s.swept == swept
  }

  lemma ReturnedStays(s: State, a: Action)
    requires s.done == Draining([]) && Apply(s, a).Some?
    ensures Apply(s, a).value.done == Draining([]) && Apply(s, a).value.swept == s.swept
  {
    hide HandlerStep;
    if a.Handle? {
      HandlerFrame(s, a.h);
    }
  }

  /** Nothing that happens after `Done` has returned closes any further call. */
  lemma NeverClosedLater(backend: Backend, clock: int, run: seq<Action>, s: State, more: seq<Action>, s': State, cid: Cid)
    requires Reaches(backend, clock, run, s) && s.done == Draining([]) && cid !in s.swept
    requires Runs.After(Apply, s, more) == Some(s') && cid in s'.calls && s'.calls[cid].pc == Registered
    ensures s'.calls[cid].closes == 0
  {
    hide Apply, Initial;
    assert Runs.Keeps(Apply, Returned(s.swept)) by {
      forall t, a | Returned(s.swept)(t) && Apply(t, a).Some? ensures Returned(s.swept)(Apply(t, a).value) {
        ReturnedStays(t, a);
      }
    }
    Runs.RunKeeps(Apply, Returned(s.swept), s, more);
    Runs.Append(Apply, Initial(backend, clock), run, s, more);
    DoneClosesExactly(backend, clock, run + more, s');
    AtMostOnce(backend, clock, run + more, s');
  }

  /** Whenever the handler is at its select, the table holds exactly the entries which the last sweep looked at
    * before their deadline and those registered since its snapshot, less those replied to since; every entry of the
    * snapshot has been looked at, and those found overdue have been given the report and closed.
    */
  lemma SweepLeavesExactly(backend: Backend, clock: int, run: seq<Action>, s: State)
    requires Reaches(backend, clock, run, s) && s.handler == Ready([])
    ensures s.sweep.looked.Keys == s.sweep.snapshot && s.sweep.snapshot !! s.sweep.since && s.sweep.snapshot + s.sweep.since <= s.calls.Keys
    ensures forall k :: k in s.table <==>
              (k in s.sweep.since || (k in s.sweep.snapshot && s.calls[k].deadline >= s.sweep.looked[k])) && k !in s.sweep.answered
    ensures forall k :: k in s.sweep.snapshot ==> s.sweep.at <= s.sweep.looked[k] <= s.clock
    ensures forall k :: k in s.sweep.snapshot && s.calls[k].deadline < s.sweep.looked[k] ==>
              s.calls[k].sent == [TimeoutResult(backend, k)] && s.calls[k].closes == 1
  {
    EveryRunKeeps(backend, clock, run, s);
    BackendStays(backend, clock, run, s);
    hide Reaches, TimeoutResult, HandlerOk, SweptOk, AnswersOk, PanicOk;
    assert Rest(s.handler) == [];
    forall k
      ensures k in s.sweep.looked <==> k in s.sweep.snapshot
      ensures k in s.sweep.snapshot || k in s.sweep.since ==> k in s.calls
      ensures k in s.table <==> (k in s.sweep.since || (k in s.sweep.snapshot && !Due(s, k))) && k !in s.sweep.answered
      ensures !(k in s.sweep.snapshot && k in s.sweep.since)
      ensures k in s.sweep.snapshot ==> s.sweep.at <= s.sweep.looked[k] <= s.clock
    {
      assert KeyOk(s, k);
    }
    forall k | Due(s, k) ensures s.calls[k].sent == [TimeoutResult(backend, k)] && s.calls[k].closes == 1 {
      assert KeyOk(s, k) && CallOk(s, k);
    }
  }

  /** So whatever is still in the table with a deadline before the sweep's time was registered after its snapshot. */
  lemma SweepClearsOverdue(backend: Backend, clock: int, run: seq<Action>, s: State, cid: Cid)
    requires Reaches(backend, clock, run, s) && s.handler == Ready([])
    requires cid in s.table && s.table[cid] < s.sweep.at
    ensures cid in s.sweep.since
  {
    EveryRunKeeps(backend, clock, run, s);
    assert KeyOk(s, cid) && Rest(s.handler) == [];
  }

  /** A step of the handler touches at most the call it has in hand: every other caller's table entry and
    * channel stay as they were, and a reply nobody waits for changes neither.
    */
  lemma OthersUntouched(s: State, a: HandlerAction, cid: Cid)
    requires HandlerStep(s, a).Some?
    requires s.handler.Ready? || s.handler.Exited? || cid != s.handler.cid
    ensures var s' := HandlerStep(s, a).value;
            && (cid in s.table <==> cid in s'.table) && (cid in s.calls <==> cid in s'.calls)
            && (cid in s.table ==> s'.table[cid] == s.table[cid])
            && (cid in s.calls ==> s'.calls[cid] == s.calls[cid])
  {
    hide HandlerStep, OneCallMoved;
    HandlerMovesOne(s, a);
    if HandlerStep(s, a).value.calls != s.calls {
      MovedKeepsPc(s, HandlerStep(s, a).value, s.handler.cid);
    }
  }

  /** No call is admitted and deadlines only come closer. */
  ghost predicate NoNewCalls(s: State, s': State) {
    && s'.clock >= s.clock
    && forall cid :: cid in s'.calls && s'.calls[cid].pc != Refused ==>
         cid in s.calls && s.calls[cid].pc != Refused && s.calls[cid].deadline == s'.calls[cid].deadline
  }

  lemma CallerTakesNoCalls(s: State, a: CallerAction)
    requires s.isClose && CallerStep(s, a).Some?
    ensures NoNewCalls(s, CallerStep(s, a).value)
  {
  }

  lemma HandlerTakesNoCalls(s: State, a: HandlerAction)
    requires HandlerStep(s, a).Some?
    ensures NoNewCalls(s, HandlerStep(s, a).value)
  {
    hide HandlerStep, OneCallMoved;
    HandlerFrame(s, a);
    HandlerMovesOne(s, a);
    if HandlerStep(s, a).value.calls != s.calls {
      MovedKeepsPc(s, HandlerStep(s, a).value, s.handler.cid);
    }
  }

  lemma DoneTakesNoCalls(s: State, a: DoneAction)
    requires DoneStep(s, a).Some?
    ensures NoNewCalls(s, DoneStep(s, a).value)
  {
  }

  lemma ClosedTakesNoCalls(s: State, a: Action)
    requires s.isClose && Apply(s, a).Some?
    ensures NoNewCalls(s, Apply(s, a).value)
  {
    hide CallerStep, HandlerStep, DoneStep, NoNewCalls;
    match a {
      case Caller(c) => CallerTakesNoCalls(s, c);
      case Handle(h) => HandlerTakesNoCalls(s, h);
      case Finish(d) => DoneTakesNoCalls(s, d);
    }
  }

  // ---------------------------------------------------------------- whether Done returns

  function Work(h: Handler): (n: nat) {
    match h
    case Ready(rest) => 4 * |rest|
    case Deleting(_, _, rest) => 4 * |rest| + 3
    case Sending(_, _, rest) => 4 * |rest| + 2
    case Closing(_, rest) => 4 * |rest| + 1
    case Exited => 0
  }

  /** What the handler does next on its own, away from the select. */
  function NextOf(h: Handler): (a: HandlerAction) {
    match h
    case Deleting(_, _, _) => Delete
    case Sending(_, _, _) => Send
    case Closing(_, _) => HandlerAction.Close
    case _ => Next
  }

  /** Away from the select the handler is never blocked and gets closer to it with every step. */
  lemma HandlerAdvances(s: State)
    requires Inv(s) && s.handler != Ready([]) && s.handler != Exited
    ensures HandlerStep(s, NextOf(s.handler)).Some?
    ensures var s' := HandlerStep(s, NextOf(s.handler)).value;
            Work(s'.handler) < Work(s.handler) && s'.done == s.done && s'.handler != Exited
  {
    if s.handler.Sending? || s.handler.Closing? {
      assert CallOk(s, s.handler.cid);
    }
  }

  /** Steps of the handler alone take it back to the select. */
  lemma {:induction false} HandlerReturns(s: State) returns (run: seq<Action>, s': State)
    requires Inv(s) && s.handler != Exited
    ensures Runs.After(Apply, s, run) == Some(s') && Inv(s') && s'.handler == Ready([]) && s'.done == s.done
    ensures forall a :: a in run ==> a.Handle? && Finishing(a)
    decreases Work(s.handler)
  {
    if s.handler == Ready([]) {
      return [], s;
    }
    HandlerAdvances(s);
    var a := Handle(NextOf(s.handler));
    var s1 := HandlerStep(s, NextOf(s.handler)).value;
    StepKeeps(s, a);
    var rest;
    rest, s' := HandlerReturns(s1);
    Runs.StepThen(Apply, s, a, s1, rest);
    run := [a] + rest;
  }

  lemma StepKeepsBackend(s: State, a: Action)
    requires Apply(s, a).Some?
    ensures Apply(s, a).value.backend == s.backend
  {
    hide HandlerStep;
    if a.Handle? {
      HandlerFrame(s, a.h);
    }
  }

  ghost function HasBackend(backend: Backend): (inv: State -> bool) {
    (s: State) => s.backend == backend
  }

  lemma BackendStays(backend: Backend, clock: int, run: seq<Action>, s: State)
    requires Reaches(backend, clock, run, s)
    ensures s.backend == backend
  {
    hide Apply;
    assert Runs.Keeps(Apply, HasBackend(backend)) by {
      forall t, a | HasBackend(backend)(t) && Apply(t, a).Some? ensures HasBackend(backend)(Apply(t, a).value) {
        StepKeepsBackend(t, a);
      }
    }
    Runs.RunKeeps(Apply, HasBackend(backend), Initial(backend, clock), run);
  }

  lemma {:induction false} Enumeration(table: map<Cid, int>) returns (keys: seq<Cid>)
    ensures Enumerates(keys, table)
    decreases |table|
  {
    if table == map[] {
      return [];
    }
    var k :| k in table;
    var rest := Enumeration(table - {k});
    keys := [k] + rest;
  }

  /** Once it has met the handler, `Done` is never blocked: it can list the table, and every further step brings
    * it closer to returning.
    */
  lemma DoneAdvances(s: State) returns (a: DoneAction)
    requires Inv(s) && PastMeeting(s.done) && s.done != Draining([])
    ensures DoneStep(s, a).Some?
    ensures var d := DoneStep(s, a).value.done;
            && (s.done == ClosingReplies ==> d == Listing) && (s.done == Listing ==> d.Draining?)
            && (s.done.Draining? ==> d.Removing? && |d.left| < |s.done.left|)
            && (s.done.Removing? ==> d == Draining(s.done.left))
  {
    match s.done
    case ClosingReplies =>
      a := CloseReplies;
    case Listing =>
      var keys := Enumeration(s.table);
      a := List(keys);
    case Draining(left) =>
      assert s.done.left[0] in s.table;
      a := CloseCall;
    case Removing(_, _) =>
      a := DeleteCall;
  }

  function Stage(d: DonePc): (n: nat) {
    match d
    case Meeting => 3
    case ClosingReplies => 2
    case Listing => 1
    case _ => 0
  }

  function ToClose(d: DonePc): (n: nat) {
    match d
    case Draining(left) => 2 * |left|
    case Removing(_, left) => 2 * |left| + 1
    case _ => 0
  }

  /** The handler's way back to its select, and `Done`. */
  predicate Finishing(a: Action) {
    a.Finish? || (a.Handle? && !a.h.TakeReply? && !a.h.TakeTimer?)
  }

  lemma {:induction false} DoneGoesOn(s: State) returns (run: seq<Action>, s': State)
    requires Inv(s) && PastMeeting(s.done)
    ensures Runs.After(Apply, s, run) == Some(s') && s'.done == Draining([]) && forall a :: a in run ==> Finishing(a)
    decreases Stage(s.done), ToClose(s.done)
  {
    hide Inv;
    if s.done == Draining([]) {
      return [], s;
    }
    var d := DoneAdvances(s);
    var t := DoneStep(s, d).value;
    StepKeeps(s, Finish(d));
    var rest;
    rest, s' := DoneGoesOn(t);
    Runs.StepThen(Apply, s, Finish(d), t, rest);
    run := [Finish(d)] + rest;
  }

  /** Wherever `Done` is once it has been called, and whatever the handler is at, their own steps let it return:
    * the handler has not left its loop before they meet.
    */
  lemma DoneReturns(backend: Backend, clock: int, run: seq<Action>, s: State) returns (more: seq<Action>, s': State)
    requires Reaches(backend, clock, run, s) && !s.done.NotCalled?
    ensures Runs.After(Apply, s, more) == Some(s') && s'.done == Draining([]) && forall a :: a in more ==> Finishing(a)
  {
    EveryRunKeeps(backend, clock, run, s);
    if s.done != Meeting {
      more, s' := DoneGoesOn(s);
      return;
    }
    assert s.handler != Exited;
    hide Inv;
    var t, u, rest;
    more, t := HandlerReturns(s);
    u := DoneStep(t, Meet).value;
    StepKeeps(t, Finish(Meet));
    rest, s' := DoneGoesOn(u);
    Runs.StepThen(Apply, t, Finish(Meet), u, rest);
    Runs.Append(Apply, s, more, t, [Finish(Meet)] + rest);
    more := more + ([Finish(Meet)] + rest);
  }

  // ---------------------------------------------------------------- the broker client after Done

  ghost predicate PanicsAfter(s: State, run: seq<Action>) {
    Runs.After(Apply, s, run).Some? && Runs.After(Apply, s, run).value.panicked
  }

  /** A call has passed the test of `isClose` and not reached the table. */
  ghost predicate Late(s: State, cid: Cid) {
    cid in s.calls && s.calls[cid].pc == Checked
  }

  ghost predicate Safe(s: State) {
    s.isClose && s.dropped && !s.panicked && s.handler == Exited && s.done == Draining([]) && forall cid :: !Late(s, cid)
  }

  lemma RegisterWasLate(s: State, cid: Cid)
    requires CallerStep(s, Register(cid)).Some?
    ensures Late(s, cid)
  {
  }

  lemma SafeStays(s: State, a: Action)
    requires Safe(s) && Apply(s, a).Some?
    ensures Safe(Apply(s, a).value)
  {
    var s' := Apply(s, a).value;
    if a.Caller? && a.c.Register? {
      RegisterWasLate(s, a.c.cid);
    }
    forall cid ensures !Late(s', cid) {
      assert !Late(s, cid);
    }
  }

  /** Once the broker client has set its table to nil, some caller can still panic exactly if its call has passed
    * the test of `isClose` and not reached the table yet.
    */
  lemma DroppedTablePanicsIff(backend: Backend, clock: int, run: seq<Action>, s: State)
    requires Reaches(backend, clock, run, s) && s.dropped && !s.panicked
    ensures (exists more :: PanicsAfter(s, more)) <==> exists cid :: Late(s, cid)
  {
    EveryRunKeeps(backend, clock, run, s);
    if cid :| Late(s, cid) {
      var a := Caller(Register(cid));
      Runs.One(Apply, s, a);
      assert PanicsAfter(s, [a]);
    } else {
      assert Safe(s);
      hide Apply, Inv, Reaches;
      assert Runs.Keeps(Apply, Safe) by {
        forall t, a | Safe(t) && Apply(t, a).Some? ensures Safe(Apply(t, a).value) {
          SafeStays(t, a);
        }
      }
      forall more | PanicsAfter(s, more) ensures false {
        Runs.RunKeeps(Apply, Safe, s, more);
      }
    }
  }

  // ---------------------------------------------------------------- runs that show what is not promised

  lemma ThreeSteps(s0: State, a1: Action, s1: State, a2: Action, s2: State, a3: Action, s3: State)
    requires Apply(s0, a1) == Some(s1) && Apply(s1, a2) == Some(s2) && Apply(s2, a3) == Some(s3)
    ensures Runs.After(Apply, s0, [a1] + [a2] + [a3]) == Some(s3)
  {
    hide Apply;
    Runs.One(Apply, s0, a1);
    Runs.OneMore(Apply, s0, [a1], s1, a2);
    Runs.OneMore(Apply, s0, [a1] + [a2], s2, a3);
  }

  /** A broker client whose table is nil while a call that passed the test of `isClose` has not reached it. */
  lemma LateCallMayPanic(clock: int, cid: Cid, deadline: int)
    ensures exists run: seq<Action>, s: State :: Reaches(Amqp, clock, run, s) && s.dropped && !s.panicked && Late(s, cid)
  {
    hide HandlerStep;
    var s0 := Initial(Amqp, clock);
    var a1, a2, a3, a4, a5 :=
      Caller(Check(cid, deadline)), Finish(Announce), Finish(Meet), Finish(List([])), Finish(Drop);
    var s1 := s0.(calls := map[cid := Call(Checked, deadline, [], 0, 0)]);
    assert s0.calls[cid := Call(Checked, deadline, [], 0, 0)] == s1.calls;
    var s2 := s1.(isClose := true, done := Meeting);
    var s3 := s2.(handler := Exited, done := Listing);
    assert Enumerates([], s3.table);
    var s4 := s3.(done := Draining([]));
    assert (set k | k in s3.calls && s3.calls[k].pc == Registered) == {};
    var s5 := s4.(dropped := true);
    ThreeSteps(s0, a1, s1, a2, s2, a3, s3);
    Runs.OneMore(Apply, s0, [a1] + [a2] + [a3], s3, a4);
    Runs.OneMore(Apply, s0, [a1] + [a2] + [a3] + [a4], s4, a5);
    assert Reaches(Amqp, clock, [a1] + [a2] + [a3] + [a4] + [a5], s5);
  }

  /** A call registered while a sweep is under way outlives it even if its deadline had already passed. */
  lemma LateCallOutlivesSweep(clock: int, cid: Cid)
    ensures exists run: seq<Action>, s: State ::
              && Reaches(Local, clock, run, s) && s.handler == Ready([])
              && cid in s.table && s.table[cid] < s.sweep.at
  {
    var s0 := Initial(Local, clock);
    var a1, a2, a3 := Caller(Check(cid, clock - 1)), Handle(TakeTimer([])), Caller(Register(cid));
    var s1 := s0.(calls := map[cid := Call(Checked, clock - 1, [], 0, 0)]);
    assert s0.calls[cid := Call(Checked, clock - 1, [], 0, 0)] == s1.calls;
    assert Snapshot([], s1.table) && s1.table.Keys == {};
    var s3 := Apply(s1, a3).value;
    ThreeSteps(s0, a1, s1, a2, s1, a3, s3);
    assert Reaches(Local, clock, [a1] + [a2] + [a3], s3);
  }

  /** `Done` of a client without pending calls, from its start to its return. */
  lemma EmptyDone(s: State) returns (run: seq<Action>, s': State)
    requires s.backend == Local && s.handler == Ready([]) && s.done == NotCalled && s.table == map[]
    ensures Runs.After(Apply, s, run) == Some(s')
    ensures s'.done == Draining([]) && s'.handler == Exited && s'.table == map[] && s'.calls == s.calls
    ensures s'.dropped == s.dropped
  {
    var a1, a2, a3, a4 := Finish(Announce), Finish(Meet), Finish(CloseReplies), Finish(List([]));
    var s1 := s.(isClose := true, done := Meeting);
    var s2 := s1.(handler := Exited, done := ClosingReplies);
    var s3 := s2.(repliesClosed := true, done := Listing);
    assert Enumerates([], s3.table);
    s' := DoneStep(s3, List([])).value;
    ThreeSteps(s, a1, s1, a2, s2, a3, s3);
    Runs.OneMore(Apply, s, [a1] + [a2] + [a3], s3, a4);
    run := [a1] + [a2] + [a3] + [a4];
  }

  /** A call that passed the test of `isClose` may register after `Done` has listed the table; it is left open in
    * the table when `Done` has returned.
    */
  lemma LateCallStaysOpen(clock: int, cid: Cid, deadline: int)
    ensures exists run: seq<Action>, s: State ::
              && Reaches(Local, clock, run, s) && s.done == Draining([]) && s.handler == Exited
              && cid in s.table && cid in s.calls && s.calls[cid].pc == Registered && s.calls[cid].closes == 0
  {
    hide CallsOk;
    var s0 := Initial(Local, clock);
    var first, last := Caller(Check(cid, deadline)), Caller(Register(cid));
    var s1 := s0.(calls := map[cid := Call(Checked, deadline, [], 0, 0)]);
    assert s0.calls[cid := Call(Checked, deadline, [], 0, 0)] == s1.calls;
    var run, s2 := EmptyDone(s1);
    var s3 := CallerStep(s2, Register(cid)).value;
    Runs.StepThen(Apply, s0, first, s1, run);
    Runs.OneMore(Apply, s0, [first] + run, s2, last);
    assert Reaches(Local, clock, [first] + run + [last], s3);
  }
}
