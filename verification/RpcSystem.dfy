/** Client and server of the local RPC together: callers hand requests over, the server runs them under its
  * control channel, and the results travel back through two channels of one slot each.
  */
module RpcSystem {
  import opened Common
  import opened Rpc
  import opened RpcServer
  import P = PendingCalls
  import RpcClient
  import Runs

  /** Where one request is. `Offered` has passed the server's test of `isClose` and waits for the server to receive
    * it; `Posting` waits for room in the callback channel, and `holds` tells whether it still has its slot then.
    */
  datatype Pc = Offered | Expired | Started | Running | Posting(r: ResultInfo, holds: bool) | Releasing | Ended

  datatype Request = Request(call: RpcInfo, script: Script, pc: Pc)

  /** Why the process has ended: a result was sent on the reply channel after the client had closed it, a function
    * was called with arguments that do not fit it, or panicked, before its request was answered or after.
    */
  datatype Cause = ReplyClosed | BadCall | LatePanic

  /** `callbackChan` and `resultChan` have capacity one and `passing` is what the callback goroutine holds between
    * them; `posted` records every result ever sent on the first.
    */
  datatype State = State(
    client: P.State, functions: map<string, FuncInfo>, capacity: nat, stopped: bool,
    requests: map<Cid, Request>, slots: nat,
    callbackChan: seq<ResultInfo>, passing: Option<ResultInfo>, resultChan: seq<ResultInfo>,
    posted: seq<ResultInfo>, ended: Option<Cause>)

  datatype Action =
    | OfClient(a: P.Action)                        // anything the client does but receiving a reply
    | Offer(call: RpcInfo, script: Script)         // the test of isClose in WriteToRpcServer
    | Accept(cid: Cid)                             // its send and on_call_handle meet
    | StopConsume
    | Reject(cid: Cid)                             // unknown function or wrong number of arguments
    | Acquire(cid: Cid)                            // Wait
    | Complete(cid: Cid)                           // the body reaches its one callback
    | Post(cid: Cid)                               // its send on the callback channel
    | Release(cid: Cid)                            // Finish
    | Crash(cid: Cid)                              // a function still running after its deadline panics
    | TakeCallback                                 // on_callback_handle receives a result
    | PassOn                                       // and sends it on the reply channel
    | Receive                                      // the client takes it

  function Initial(clock: int, functions: map<string, FuncInfo>, maxCoroutine: int): (s: State) {
    State(P.Initial(Local, clock), functions, if maxCoroutine < 100 then 100 else maxCoroutine, false,
          map[], 0, [], None, [], [], None)
  }

  function At(s: State, cid: Cid, pc: Pc): (s': State)
    requires cid in s.requests
  {
    s.(requests := s.requests[cid := s.requests[cid].(pc := pc)])
  }

  predicate Is(s: State, cid: Cid, pc: Pc) {
    cid in s.requests && s.requests[cid].pc == pc
  }

  function TurnedAway(s: State, cid: Cid): (r: Option<ResultInfo>)
    requires cid in s.requests
  {
    Rejection(s.functions, s.requests[cid].call, s.requests[cid].script)
  }

  /** The request has been answered without waiting any longer for its function, which will panic. */
  predicate StillRuns(s: State, cid: Cid) {
    && cid in s.requests
    && var q := s.requests[cid];
       && (q.pc.Ended? || q.pc.Releasing? || (q.pc.Posting? && q.pc.holds)) && Straggles(s.functions, q.call, q.script)
  }

  /** The steps of `runFunc` and of the goroutine that starts it. */
  ghost function ServerStep(s: State, a: Action): (r: Option<State>) {
    match a
    case Offer(call, script) =>
      if call.cid !in s.client.calls || s.client.calls[call.cid].pc != P.Registered || call.cid in s.requests || s.stopped
         || !call.reply || call.expired != s.client.calls[call.cid].deadline then None
      else Some(s.(requests := s.requests[call.cid := Request(call, script, Offered)]))
    case Accept(cid) =>
      if !Is(s, cid, Offered) then None
      else Some(At(s, cid, if s.requests[cid].call.expired < s.client.clock then Expired else Started))
    case StopConsume =>
      Some(s.(stopped := true))
    case Reject(cid) =>
      if !Is(s, cid, Started) || TurnedAway(s, cid).None? then None
      else Some(At(s, cid, Posting(TurnedAway(s, cid).value, false)))
    case Acquire(cid) =>
      if !Is(s, cid, Started) || TurnedAway(s, cid).Some? || s.slots >= s.capacity then None
      else Some(At(s, cid, Running).(slots := s.slots + 1))
    case Complete(cid) =>
      if !Is(s, cid, Running) then None
      else if EndsProcess(s.functions, s.requests[cid].call, s.requests[cid].script) then Some(s.(ended := Some(BadCall)))
      else Some(At(s, cid, Posting(Answer(s.functions, s.requests[cid].call, s.requests[cid].script), true)))
    case Post(cid) =>
      if cid !in s.requests || !s.requests[cid].pc.Posting? || s.callbackChan != [] then None
      else
        var pc := s.requests[cid].pc;
        Some(At(s, cid, if pc.holds then Releasing else Ended).(callbackChan := [pc.r], posted := s.posted + [pc.r]))
    case Release(cid) =>
      if !Is(s, cid, Releasing) || s.slots == 0 then None
      else Some(At(s, cid, Ended).(slots := s.slots - 1))
    case Crash(cid) =>
      if !StillRuns(s, cid) then None else Some(s.(ended := Some(LatePanic)))
    case _ => None
  }

  /** The steps of the client and of the results on their way to it. */
  ghost function ReplyStep(s: State, a: Action): (r: Option<State>) {
    match a
    case OfClient(c) =>
      if c.Handle? && c.h.TakeReply? then None
      else
        var after := P.Apply(s.client, c);
        if after.None? then None else Some(s.(client := after.value))
    case TakeCallback =>
      if s.passing.Some? || s.callbackChan == [] then None
      else Some(s.(passing := Some(s.callbackChan[0]), callbackChan := s.callbackChan[1..]))
    case PassOn =>
      if s.passing.None? then None
      else if s.client.repliesClosed then Some(s.(ended := Some(ReplyClosed)))
      else if s.resultChan != [] then None
      else Some(s.(resultChan := [s.passing.value], passing := None))
    case Receive =>
      if s.resultChan == [] then None
      else
        var after := P.HandlerStep(s.client, P.TakeReply(s.resultChan[0]));
        if after.None? then None else Some(s.(client := after.value, resultChan := []))
    case _ => None
  }

  predicate OnTheWay(a: Action) {
    a.OfClient? || a.TakeCallback? || a.PassOn? || a.Receive?
  }

  /** The state after one action, or none while whoever would take it is elsewhere or blocked, or the process has
    * ended.
    */
  ghost function Apply(s: State, a: Action): (r: Option<State>) {
    if s.ended.Some? then None else if OnTheWay(a) then ReplyStep(s, a) else ServerStep(s, a)
  }

  /** `s` is what some run from the start leads to. */
  ghost predicate Reaches(clock: int, functions: map<string, FuncInfo>, maxCoroutine: int, run: seq<Action>, s: State) {
    Runs.After(Apply, Initial(clock, functions, maxCoroutine), run) == Some(s)
  }

  // ---------------------------------------------------------------- what every run keeps

  predicate Holds(pc: Pc) {
    pc.Running? || pc.Releasing? || (pc.Posting? && pc.holds)
  }

  function Holders(requests: map<Cid, Request>): (cids: set<Cid>) {
    set cid | cid in requests && Holds(requests[cid].pc)
  }

  /** The control channel holds one token for each request whose body is under way. */
  ghost predicate SlotsOk(s: State) {
    s.slots == |Holders(s.requests)| && s.slots <= s.capacity && s.capacity > 0
  }

  predicate HasPosted(pc: Pc) {
    pc.Releasing? || pc.Ended?
  }

  function Passing(s: State): (rs: seq<ResultInfo>) {
    if s.passing.Some? then [s.passing.value] else []
  }

  /** Results go out in order: taken by the client, in its channel, in between, in the callback channel. */
  ghost predicate PipelineOk(s: State) {
    && s.posted == s.client.replies + s.resultChan + Passing(s) + s.callbackChan
    && |s.resultChan| <= 1 && |s.callbackChan| <= 1
  }

  ghost predicate CallsBadly(functions: map<string, FuncInfo>, requests: map<Cid, Request>, cid: Cid) {
    cid in requests && requests[cid].pc == Running && EndsProcess(functions, requests[cid].call, requests[cid].script)
  }

  ghost predicate CauseOk(s: State) {
    && (s.ended == Some(ReplyClosed) ==> s.client.repliesClosed)
    && (s.ended == Some(LatePanic) ==> exists cid :: StillRuns(s, cid))
    && (s.ended == Some(BadCall) ==> exists cid :: CallsBadly(s.functions, s.requests, cid))
  }

  ghost predicate WasPosted(posted: seq<ResultInfo>, cid: Cid) {
    exists i :: 0 <= i < |posted| && posted[i].cid == cid
  }

  predicate AnswerOf(functions: map<string, FuncInfo>, q: Request, r: ResultInfo) {
    !EndsProcess(functions, q.call, q.script) && r == Answer(functions, q.call, q.script)
  }

  /** A request stays under its own id, is about to post nothing but its answer, and runs only if not turned away. */
  predicate RequestOk(functions: map<string, FuncInfo>, cid: Cid, q: Request) {
    && q.call.cid == cid
    && (q.pc.Posting? ==> AnswerOf(functions, q, q.pc.r))
    && (q.pc.Running? ==> Rejection(functions, q.call, q.script).None?)
  }

  /** What has been posted are the answers of the requests that have posted, each once. */
  ghost predicate PostedOk(functions: map<string, FuncInfo>, requests: map<Cid, Request>, posted: seq<ResultInfo>) {
    && (forall cid :: cid in requests ==> RequestOk(functions, cid, requests[cid]))
    && (forall i :: 0 <= i < |posted| ==>
          var cid := posted[i].cid;
          cid in requests && HasPosted(requests[cid].pc) && AnswerOf(functions, requests[cid], posted[i]))
    && (forall i, j :: 0 <= i < j < |posted| ==> posted[i].cid != posted[j].cid)
    && (forall cid :: cid in requests && HasPosted(requests[cid].pc) ==> WasPosted(posted, cid))
  }

  ghost predicate Inv(s: State) {
    P.Inv(s.client) && s.client.backend == Local && SlotsOk(s) && PipelineOk(s)
    && PostedOk(s.functions, s.requests, s.posted) && CauseOk(s)
  }

  lemma CauseKept(s: State, a: Action)
    requires Apply(s, a).Some?
    ensures CauseOk(Apply(s, a).value)
  {
    hide P.Apply, P.HandlerStep, Rejection, Answer, EndsProcess;
    if a.Complete? && Apply(s, a).value.ended.Some? {
      assert CallsBadly(s.functions, Apply(s, a).value.requests, a.cid);
    }
    if a.Crash? {
      assert StillRuns(Apply(s, a).value, a.cid);
    }
  }

  lemma TakeReplyIsStep(c: P.State, r: ResultInfo)
    ensures P.Apply(c, P.Handle(P.TakeReply(r))) == P.HandlerStep(c, P.TakeReply(r))
    ensures P.HandlerStep(c, P.TakeReply(r)).Some? ==>
              var c' := P.HandlerStep(c, P.TakeReply(r)).value;
              c'.replies == c.replies + [r] && c'.repliesClosed == c.repliesClosed && c.handler == P.Ready([])
  {
  }

  lemma HandlerRepliesStay(c: P.State, a: P.HandlerAction)
    requires !a.TakeReply? && P.HandlerStep(c, a).Some?
    ensures P.HandlerStep(c, a).value.replies == c.replies
    ensures P.HandlerStep(c, a).value.repliesClosed == c.repliesClosed
  {
    hide TimeoutResult;
    match a
    case TakeTimer(order) =>
    case Next =>
    case Send =>
    case _ =>
  }

  lemma RepliesStay(c: P.State, a: P.Action)
    requires !(a.Handle? && a.h.TakeReply?) && P.Apply(c, a).Some?
    ensures P.Apply(c, a).value.replies == c.replies
    ensures c.repliesClosed ==> P.Apply(c, a).value.repliesClosed
  {
    hide P.HandlerStep;
    if a.Handle? {
      HandlerRepliesStay(c, a.h);
    }
  }

  lemma ClientKept(s: State, a: Action)
    requires P.Inv(s.client) && s.client.backend == Local && Apply(s, a).Some?
    ensures P.Inv(Apply(s, a).value.client) && Apply(s, a).value.client.backend == Local
  {
    hide P.Inv, P.HandlerStep, P.Apply, Rejection, Answer, EndsProcess;
    match a
    case OfClient(c) =>
      P.StepKeeps(s.client, c);
      P.StepKeepsBackend(s.client, c);
    case Receive =>
      TakeReplyIsStep(s.client, s.resultChan[0]);
      P.StepKeeps(s.client, P.Handle(P.TakeReply(s.resultChan[0])));
      P.StepKeepsBackend(s.client, P.Handle(P.TakeReply(s.resultChan[0])));
    case _ =>
  }

  predicate Holding(requests: map<Cid, Request>, cid: Cid) {
    cid in requests && Holds(requests[cid].pc)
  }

  lemma HoldersAt(requests: map<Cid, Request>, cid: Cid, q: Request)
    ensures |Holders(requests[cid := q])| ==
            |Holders(requests)| + (if Holds(q.pc) then 1 else 0) - (if Holding(requests, cid) then 1 else 0)
  {
    if Holds(q.pc) {
      assert Holders(requests[cid := q]) == Holders(requests) + {cid};
    } else {
      assert Holders(requests[cid := q]) == Holders(requests) - {cid};
    }
  }

  lemma SlotsKept(s: State, a: Action)
    requires SlotsOk(s) && Apply(s, a).Some?
    ensures SlotsOk(Apply(s, a).value)
  {
    hide Holders, Answer, EndsProcess, Rejection, P.Apply, P.HandlerStep;
    var s' := Apply(s, a).value;
    match a {
      case Offer(call, _) => HoldersAt(s.requests, call.cid, s'.requests[call.cid]);
      case Accept(cid) => HoldersAt(s.requests, cid, s'.requests[cid]);
      case Reject(cid) => HoldersAt(s.requests, cid, s'.requests[cid]);
      case Acquire(cid) => HoldersAt(s.requests, cid, s'.requests[cid]);
      case Complete(cid) =>
        if s'.ended.None? {
          HoldersAt(s.requests, cid, s'.requests[cid]);
        }
      case Post(cid) => HoldersAt(s.requests, cid, s'.requests[cid]);
      case Release(cid) => HoldersAt(s.requests, cid, s'.requests[cid]);
      case _ =>
    }
  }

  lemma TakenKeeps<T>(posted: seq<T>, before: seq<T>, chan: seq<T>)
    requires posted == before + [] + chan && |chan| == 1
    ensures posted == before + [chan[0]] + []
  {
  }

  lemma PassedKeeps<T>(posted: seq<T>, before: seq<T>, r: T, chan: seq<T>)
    requires posted == before + [] + [r] + chan
    ensures posted == before + [r] + [] + chan
  {
  }

  lemma ReceivedKeeps<T>(posted: seq<T>, before: seq<T>, chan: seq<T>, passing: seq<T>, rest: seq<T>)
    requires posted == before + chan + passing + rest && |chan| == 1
    ensures posted == before + [chan[0]] + [] + passing + rest
  {
    assert chan == [chan[0]];
  }

  lemma PostedKeeps<T>(posted: seq<T>, before: seq<T>, r: T)
    requires posted == before + []
    ensures posted + [r] == before + [r]
  {
  }

  lemma PipelineKept(s: State, a: Action)
    requires PipelineOk(s) && Apply(s, a).Some?
    ensures PipelineOk(Apply(s, a).value)
  {
    hide P.Apply, P.HandlerStep, Rejection, Answer, EndsProcess;
    var s' := Apply(s, a).value;
    match a
    case OfClient(c) =>
      RepliesStay(s.client, c);
    case Receive =>
      TakeReplyIsStep(s.client, s.resultChan[0]);
      ReceivedKeeps(s.posted, s.client.replies, s.resultChan, Passing(s), s.callbackChan);
    case TakeCallback =>
      TakenKeeps(s.posted, s.client.replies + s.resultChan, s.callbackChan);
    case PassOn =>
      if s'.ended.None? {
        PassedKeeps(s.posted, s.client.replies, s.passing.value, s.callbackChan);
      }
    case Post(cid) =>
      PostedKeeps(s.posted, s.client.replies + s.resultChan + Passing(s), s.requests[cid].pc.r);
    case _ =>
  }

  lemma AnswerHasId(functions: map<string, FuncInfo>, q: Request, r: ResultInfo)
    requires AnswerOf(functions, q, r)
    ensures r.cid == q.call.cid
  {
    AnswerMeans(functions, q.call, q.script);
  }

  lemma PostKeepsPosted(functions: map<string, FuncInfo>, requests: map<Cid, Request>, posted: seq<ResultInfo>,
                        cid: Cid, q: Request, r: ResultInfo)
    requires PostedOk(functions, requests, posted)
    requires cid in requests && requests[cid].pc.Posting? && requests[cid].pc.r == r
    requires HasPosted(q.pc) && q.call == requests[cid].call && q.script == requests[cid].script
    ensures PostedOk(functions, requests[cid := q], posted + [r])
  {
    hide Answer, EndsProcess, Rejection;
    assert RequestOk(functions, cid, requests[cid]);
    AnswerHasId(functions, requests[cid], r);
    var requests', posted' := requests[cid := q], posted + [r];
    assert posted'[|posted|].cid == cid;
    forall c | c in requests' && HasPosted(requests'[c].pc) ensures WasPosted(posted', c) {
      if c != cid {
        var i :| 0 <= i < |posted| && posted[i].cid == c;
        assert posted'[i].cid == c;
      }
    }
  }

  /** A request that moves without posting, or a new one. */
  lemma MoveKeepsPosted(functions: map<string, FuncInfo>, requests: map<Cid, Request>, posted: seq<ResultInfo>,
                        cid: Cid, q: Request)
    requires PostedOk(functions, requests, posted) && RequestOk(functions, cid, q)
    requires cid in requests ==> q.call == requests[cid].call && q.script == requests[cid].script
    requires HasPosted(q.pc) <==> cid in requests && HasPosted(requests[cid].pc)
    ensures PostedOk(functions, requests[cid := q], posted)
  {
    hide Answer, EndsProcess, Rejection, RequestOk, WasPosted;
  }

  lemma PostedKept(s: State, a: Action)
    requires PostedOk(s.functions, s.requests, s.posted) && Apply(s, a).Some?
    ensures var s' := Apply(s, a).value; PostedOk(s'.functions, s'.requests, s'.posted)
  {
    hide PostedOk, P.Apply, P.HandlerStep, Answer, EndsProcess, Rejection;
    var s' := Apply(s, a).value;
    match a {
      case Offer(call, _) => MoveKeepsPosted(s.functions, s.requests, s.posted, call.cid, s'.requests[call.cid]);
      case Accept(cid) => RequestOf(s, cid); MoveKeepsPosted(s.functions, s.requests, s.posted, cid, s'.requests[cid]);
      case Reject(cid) =>
        RequestOf(s, cid);
        RejectionIsAnswer(s.functions, s.requests[cid]);
        MoveKeepsPosted(s.functions, s.requests, s.posted, cid, s'.requests[cid]);
      case Acquire(cid) => RequestOf(s, cid); MoveKeepsPosted(s.functions, s.requests, s.posted, cid, s'.requests[cid]);
      case Complete(cid) =>
        RequestOf(s, cid);
        if s'.ended.None? {
          MoveKeepsPosted(s.functions, s.requests, s.posted, cid, s'.requests[cid]);
        }
      case Release(cid) => RequestOf(s, cid); MoveKeepsPosted(s.functions, s.requests, s.posted, cid, s'.requests[cid]);
      case Post(cid) =>
        RequestOf(s, cid);
        PostKeepsPosted(s.functions, s.requests, s.posted, cid, s'.requests[cid], s.requests[cid].pc.r);
      case _ =>
    }
  }

  lemma RejectionIsAnswer(functions: map<string, FuncInfo>, q: Request)
    requires Rejection(functions, q.call, q.script).Some?
    ensures AnswerOf(functions, q, Rejection(functions, q.call, q.script).value)
  {
  }

  lemma RequestOf(s: State, cid: Cid)
    requires PostedOk(s.functions, s.requests, s.posted) && cid in s.requests
    ensures RequestOk(s.functions, cid, s.requests[cid])
  {
    hide Answer, EndsProcess, Rejection;
  }

  lemma StepKeeps(s: State, a: Action)
    requires Inv(s) && Apply(s, a).Some?
    ensures Inv(Apply(s, a).value)
  {
    hide P.Inv, SlotsOk, PipelineOk, PostedOk, CauseOk, Apply;
    ClientKept(s, a);
    CauseKept(s, a);
    SlotsKept(s, a);
    PipelineKept(s, a);
    PostedKept(s, a);
  }

  lemma ServerStays(s: State, a: Action)
    requires Apply(s, a).Some?
    ensures Apply(s, a).value.functions == s.functions && Apply(s, a).value.capacity == s.capacity
  {
    hide P.Apply, P.HandlerStep, Rejection, Answer, EndsProcess;
  }

  ghost function Good(functions: map<string, FuncInfo>, capacity: nat): (inv: State -> bool) {
    (s: State) => Inv(s) && s.functions == functions && s.capacity == capacity
  }

  lemma EveryRunKeeps(clock: int, functions: map<string, FuncInfo>, maxCoroutine: int, run: seq<Action>, s: State)
    requires Reaches(clock, functions, maxCoroutine, run, s)
    ensures Inv(s) && s.functions == functions && s.capacity == (if maxCoroutine < 100 then 100 else maxCoroutine)
  {
    InitialIsGood(clock, functions, maxCoroutine);
    var start := Initial(clock, functions, maxCoroutine);
    var good := Good(functions, start.capacity);
    assert start.functions == functions && start.capacity == (if maxCoroutine < 100 then 100 else maxCoroutine);
    hide Apply, Inv, Initial;
    assert Runs.Keeps(Apply, good) by {
      forall t, a | good(t) && Apply(t, a).Some? ensures good(Apply(t, a).value) {
        StepKeeps(t, a);
        ServerStays(t, a);
      }
    }
    Runs.RunKeeps(Apply, good, start, run);
  }

  lemma InitialIsGood(clock: int, functions: map<string, FuncInfo>, maxCoroutine: int)
    ensures Inv(Initial(clock, functions, maxCoroutine))
  {
    hide P.Inv, P.Apply;
    var s := Initial(clock, functions, maxCoroutine);
    assert P.Reaches(Local, clock, [], s.client);
    P.EveryRunKeeps(Local, clock, [], s.client);
    assert Holders(s.requests) == {};
  }

  // ---------------------------------------------------------------- what this means

  /** Never more bodies at once than the configured number, or a hundred if that is larger; and when every request
    * has ended every slot has been given back.
    */
  lemma BodiesAreBounded(clock: int, functions: map<string, FuncInfo>, maxCoroutine: int, run: seq<Action>, s: State)
    requires Reaches(clock, functions, maxCoroutine, run, s)
    ensures var running := set cid | cid in s.requests && s.requests[cid].pc == Running;
            |running| <= s.slots && (s.slots <= maxCoroutine || s.slots <= 100)
    ensures (forall cid :: cid in s.requests ==> s.requests[cid].pc == Ended || s.requests[cid].pc == Expired) ==> s.slots == 0
  {
    EveryRunKeeps(clock, functions, maxCoroutine, run, s);
    hide Reaches, PostedOk, PipelineOk, P.Inv;
    var running := set cid | cid in s.requests && s.requests[cid].pc == Running;
    assert running <= Holders(s.requests);
    SubsetSize(running, Holders(s.requests));
    if forall cid :: cid in s.requests ==> s.requests[cid].pc == Ended || s.requests[cid].pc == Expired {
      assert Holders(s.requests) == {};
    }
  }

  lemma {:induction false} SubsetSize<T>(a: set<T>, b: set<T>)
    requires a <= b
    ensures |a| <= |b|
  {
    assert b == a + (b - a);
  }

  /** A request that has ended has been called back exactly once, with its answer; one that has not, or that had
    * already expired when it arrived, not at all.
    */
  lemma ExactlyOneCallback(clock: int, functions: map<string, FuncInfo>, maxCoroutine: int,
                           run: seq<Action>, s: State, cid: Cid)
    requires Reaches(clock, functions, maxCoroutine, run, s) && cid in s.requests
    ensures HasPosted(s.requests[cid].pc) <==> WasPosted(s.posted, cid)
    ensures forall i, j :: 0 <= i < |s.posted| && 0 <= j < |s.posted| && s.posted[i].cid == cid && s.posted[j].cid == cid ==>
              i == j
    ensures forall i :: 0 <= i < |s.posted| && s.posted[i].cid == cid ==> AnswerOf(functions, s.requests[cid], s.posted[i])
  {
    hide AnswerOf, RequestOk, P.Inv, PipelineOk, SlotsOk;
    EveryRunKeeps(clock, functions, maxCoroutine, run, s);
    hide Reaches;
  }

  /** What a caller receives is the server's one answer to that very call, or the report of its timeout. */
  lemma EndToEnd(clock: int, functions: map<string, FuncInfo>, maxCoroutine: int, run: seq<Action>, s: State, cid: Cid)
    requires Reaches(clock, functions, maxCoroutine, run, s)
    requires cid in s.client.calls && s.client.calls[cid].sent != []
    ensures |s.client.calls[cid].sent| == 1
    ensures var r := s.client.calls[cid].sent[0];
            || (&& cid in s.requests && s.requests[cid].call.cid == cid
                && AnswerOf(functions, s.requests[cid], r) && WasPosted(s.posted, cid))
            || (r == TimeoutResult(Local, cid) && s.client.calls[cid].deadline < s.client.clock)
  {
    hide AnswerOf, TimeoutResult;
    EveryRunKeeps(clock, functions, maxCoroutine, run, s);
    hide Reaches, SlotsOk;
    assert P.CallOk(s.client, cid);
    var r := s.client.calls[cid].sent[0];
    assert P.Answers(s.client, cid, s.client.calls[cid].deadline, r);
    if r in s.client.replies && r.cid == cid {
      var i :| 0 <= i < |s.client.replies| && s.client.replies[i] == r;
      assert s.posted[i] == r;
      assert RequestOk(functions, cid, s.requests[cid]);
    }
  }

  // ---------------------------------------------------------------- every request ends

  /** The client is open and the process alive. */
  ghost predicate Alive(s: State) {
    Inv(s) && s.ended.None? && s.client.handler != P.Exited
  }

  /** No new caller, no timeout, no shutdown: the goroutines finish what they have begun. */
  predicate Inner(a: Action) {
    match a
    case OfClient(c) => c.Handle? && (c.h.Next? || c.h.Delete? || c.h.Send? || c.h.Close?)
    case Offer(_, _) => false
    case StopConsume => false
    case Crash(_) => false
    case _ => true
  }

  ghost predicate Leads(s: State, run: seq<Action>, s': State) {
    Runs.After(Apply, s, run) == Some(s') && forall a :: a in run ==> Inner(a)
  }

  lemma LeadsOn(s: State, run: seq<Action>, t: State, more: seq<Action>, s': State)
    requires Leads(s, run, t) && Leads(t, more, s')
    ensures Leads(s, run + more, s')
  {
    hide Apply;
    Runs.Append(Apply, s, run, t, more);
  }

  lemma LeadsBy(s: State, a: Action, t: State)
    requires Apply(s, a) == Some(t) && Inner(a)
    ensures Leads(s, [a], t)
  {
    hide Apply;
    Runs.One(Apply, s, a);
  }

  function DrainNext(s: State): (a: Action) {
    if s.client.handler != P.Ready([]) then OfClient(P.Handle(P.NextOf(s.client.handler)))
    else if s.resultChan != [] then Receive
    else if s.passing.Some? then PassOn
    else TakeCallback
  }

  function DrainWork(s: State): (n: nat) {
    P.Work(s.client.handler) + 4 * |s.resultChan| + 8 * |Passing(s)| + 12 * |s.callbackChan|
  }

  predicate Drained(s: State) {
    s.client.handler == P.Ready([]) && s.resultChan == [] && s.passing.None? && s.callbackChan == []
  }

  lemma AliveIsOpen(s: State)
    requires Alive(s)
    ensures !s.client.repliesClosed
  {
    assert P.DoneOk(s.client);
  }

  lemma ClientTakes(c: P.State, r: ResultInfo)
    requires c.handler == P.Ready([])
    ensures P.HandlerStep(c, P.TakeReply(r)).Some?
    ensures var h := P.HandlerStep(c, P.TakeReply(r)).value.handler; h != P.Exited && P.Work(h) <= 3
  {
  }

  lemma ClientAdvances(c: P.State)
    requires P.Inv(c) && c.handler != P.Ready([]) && c.handler != P.Exited
    ensures var a := P.Handle(P.NextOf(c.handler));
            && Inner(OfClient(a)) && P.Apply(c, a).Some?
            && P.Apply(c, a).value.handler != P.Exited && P.Work(P.Apply(c, a).value.handler) < P.Work(c.handler)
  {
    P.HandlerAdvances(c);
  }

  lemma DrainStep(s: State)
    requires Alive(s) && !Drained(s)
    ensures Apply(s, DrainNext(s)).Some? && Inner(DrainNext(s))
    ensures var s' := Apply(s, DrainNext(s)).value;
            && s'.ended.None? && s'.client.handler != P.Exited && s'.requests == s.requests && s'.functions == s.functions
            && s'.slots == s.slots && s'.capacity == s.capacity && DrainWork(s') < DrainWork(s)
  {
    AliveIsOpen(s);
    hide P.Inv, P.Apply, P.HandlerStep, P.Work, SlotsOk, PostedOk, ServerStep;
    if s.client.handler != P.Ready([]) {
      ClientAdvances(s.client);
    } else if s.resultChan != [] {
      ClientTakes(s.client, s.resultChan[0]);
      assert P.Work(P.Ready([])) == 0 by { ReadyIsIdle(); }
    } else if s.passing.None? {
      assert |s.callbackChan| == 1;
    }
  }

  lemma ReadyIsIdle()
    ensures P.Work(P.Ready([])) == 0
  {
  }

  /** The results on their way reach the client. */
  lemma {:induction false} Drain(s: State) returns (run: seq<Action>, s': State)
    requires Alive(s)
    ensures Leads(s, run, s') && Alive(s') && Drained(s')
    ensures s'.requests == s.requests && s'.functions == s.functions && s'.slots == s.slots && s'.capacity == s.capacity
    decreases DrainWork(s)
  {
    hide Apply, Inv;
    if Drained(s) {
      return [], s;
    }
    var a := DrainNext(s);
    DrainStep(s);
    StepKeeps(s, a);
    var t := Apply(s, a).value;
    var rest;
    rest, s' := Drain(t);
    LeadsBy(s, a, t);
    LeadsOn(s, [a], t, rest, s');
    run := [a] + rest;
  }

  predicate UnderWay(pc: Pc) {
    pc.Running? || pc.Posting? || pc.Releasing?
  }

  predicate CanAnswer(s: State, cid: Cid)
    requires cid in s.requests
  {
    !EndsProcess(s.functions, s.requests[cid].call, s.requests[cid].script)
  }

  /** Everything about `s'` but where requests are is as in `s`. */
  ghost predicate SameServer(s: State, s': State) {
    s'.functions == s.functions && s'.capacity == s.capacity
  }

  /** One step of a request whose body is under way, once the callback channel is free. */
  function RequestNext(pc: Pc, cid: Cid): (a: Action) {
    match pc
    case Running => Complete(cid)
    case Posting(_, _) => Post(cid)
    case _ => Release(cid)
  }

  function Rank(pc: Pc): (n: nat) {
    match pc
    case Running => 3
    case Posting(_, _) => 2
    case Releasing => 1
    case _ => 0
  }

  lemma HolderHasSlot(s: State, cid: Cid)
    requires SlotsOk(s) && Holding(s.requests, cid)
    ensures s.slots > 0
  {
    assert cid in Holders(s.requests);
  }

  ghost predicate MovedTo(s: State, cid: Cid, s': State)
    requires cid in s.requests && cid in s'.requests
  {
    && SameServer(s, s') && s'.client == s.client
    && s'.requests == s.requests[cid := s.requests[cid].(pc := s'.requests[cid].pc)]
  }

  /** `a` takes the request a step closer to its end and nothing else with it. */
  ghost predicate Progress(s: State, cid: Cid, a: Action)
    requires cid in s.requests
  {
    && Inner(a) && Apply(s, a).Some?
    && var s' := Apply(s, a).value;
       && s'.ended.None? && cid in s'.requests && MovedTo(s, cid, s')
       && (s'.requests[cid].pc == Ended
           || (UnderWay(s'.requests[cid].pc) && Rank(s'.requests[cid].pc) < Rank(s.requests[cid].pc)))
  }

  lemma CompleteStep(s: State, cid: Cid)
    requires s.ended.None? && Is(s, cid, Running) && RequestOk(s.functions, cid, s.requests[cid]) && CanAnswer(s, cid)
    ensures Progress(s, cid, Complete(cid))
  {
    hide Answer, Rejection;
  }

  lemma PostStep(s: State, cid: Cid)
    requires s.ended.None? && cid in s.requests && s.requests[cid].pc.Posting? && s.callbackChan == []
    ensures Progress(s, cid, Post(cid))
  {
  }

  lemma ReleaseStep(s: State, cid: Cid)
    requires s.ended.None? && Is(s, cid, Releasing) && s.slots > 0
    ensures Progress(s, cid, Release(cid))
  {
  }

  lemma RequestStep(s: State, cid: Cid)
    requires Alive(s) && cid in s.requests && UnderWay(s.requests[cid].pc) && CanAnswer(s, cid) && s.callbackChan == []
    ensures Progress(s, cid, RequestNext(s.requests[cid].pc, cid))
  {
    hide Progress, P.Inv, SlotsOk, PostedOk, PipelineOk, RequestOk, CanAnswer;
    RequestOf(s, cid);
    match s.requests[cid].pc {
      case Running => CompleteStep(s, cid);
      case Posting(_, _) => PostStep(s, cid);
      case _ =>
        HolderHasSlot(s, cid);
        ReleaseStep(s, cid);
    }
  }

  /** A request under way ends, and no other moves. */
  lemma {:induction false} FinishOne(s: State, cid: Cid) returns (run: seq<Action>, s': State)
    requires Alive(s) && cid in s.requests && UnderWay(s.requests[cid].pc) && CanAnswer(s, cid)
    ensures Leads(s, run, s') && Alive(s') && SameServer(s, s')
    ensures s'.requests == s.requests[cid := s.requests[cid].(pc := Ended)]
    decreases Rank(s.requests[cid].pc)
  {
    hide Apply, Inv, EndsProcess;
    var t;
    run, t := Drain(s);
    var a := RequestNext(t.requests[cid].pc, cid);
    RequestStep(t, cid);
    StepKeeps(t, a);
    var u := Apply(t, a).value;
    LeadsBy(t, a, u);
    LeadsOn(s, run, t, [a], u);
    run, s' := run + [a], u;
    if u.requests[cid].pc != Ended {
      var rest;
      rest, s' := FinishOne(u, cid);
      LeadsOn(s, run, u, rest, s');
      run := run + rest;
    }
  }

  ghost predicate SomeEnded(s: State, s': State) {
    && s'.requests.Keys == s.requests.Keys
    && forall cid :: cid in s.requests ==>
         || s'.requests[cid] == s.requests[cid]
         || (UnderWay(s.requests[cid].pc) && s'.requests[cid] == s.requests[cid].(pc := Ended))
  }

  /** A free slot can be had: while all are taken, some body is under way and ends. */
  lemma FreeSlot(s: State) returns (run: seq<Action>, s': State)
    requires Alive(s) && forall cid :: cid in s.requests && UnderWay(s.requests[cid].pc) ==> CanAnswer(s, cid)
    ensures Leads(s, run, s') && Alive(s') && SameServer(s, s') && s'.slots < s'.capacity
    ensures SomeEnded(s, s')
  {
    hide Apply, EndsProcess, P.Inv, PostedOk, PipelineOk;
    if s.slots < s.capacity {
      return [], s;
    }
    var h :| h in Holders(s.requests);
    run, s' := FinishOne(s, h);
    HoldersAt(s.requests, h, s.requests[h].(pc := Ended));
  }

  /** One step of a request that has been started, once a slot is free. */
  lemma StartStep(s: State, cid: Cid) returns (a: Action)
    requires Alive(s) && Is(s, cid, Started) && s.slots < s.capacity
    ensures Apply(s, a).Some? && Inner(a)
    ensures var s' := Apply(s, a).value;
            s'.ended.None? && cid in s'.requests && MovedTo(s, cid, s') && UnderWay(s'.requests[cid].pc)
  {
    hide Rejection, P.Inv, PostedOk, PipelineOk;
    a := if TurnedAway(s, cid).Some? then Reject(cid) else Acquire(cid);
  }

  predicate Unfinished(pc: Pc) {
    pc != Ended && pc != Expired
  }

  function Waiting(requests: map<Cid, Request>): (cids: set<Cid>) {
    set cid | cid in requests && Unfinished(requests[cid].pc)
  }

  predicate Over(pc: Pc) {
    pc == Ended || pc == Expired
  }

  /** At most the request `cid` and some that were not over are so now, and nothing else about them has changed. */
  ghost predicate OnlyEnded(s: State, s': State) {
    && s'.requests.Keys == s.requests.Keys && SameServer(s, s')
    && forall c :: c in s.requests ==>
         || s'.requests[c] == s.requests[c]
         || (c in Waiting(s.requests) && Over(s'.requests[c].pc) && s'.requests[c] == s.requests[c].(pc := s'.requests[c].pc))
  }

  lemma OneIsOnly(s: State, cid: Cid, s': State)
    requires cid in Waiting(s.requests) && SameServer(s, s') && s'.requests == s.requests[cid := s.requests[cid].(pc := Ended)]
    ensures OnlyEnded(s, s') && Over(s'.requests[cid].pc)
  {
  }

  lemma StartedIsOnly(s: State, cid: Cid, t: State, u: State, s': State)
    requires cid in s.requests && s.requests[cid].pc == Started
    requires SomeEnded(s, t) && SameServer(s, t) && cid in u.requests && MovedTo(t, cid, u) && SameServer(u, s')
    requires s'.requests == u.requests[cid := u.requests[cid].(pc := Ended)]
    ensures OnlyEnded(s, s') && Over(s'.requests[cid].pc)
  {
    forall c | c in s.requests && c != cid ensures c in s'.requests && s'.requests[c] == t.requests[c] {
    }
    assert s'.requests[cid] == s.requests[cid].(pc := Ended);
  }

  lemma CanStillAnswer(s: State, cid: Cid, t: State, u: State)
    requires cid in s.requests && s.requests[cid].pc == Started && CanAnswer(s, cid)
    requires SomeEnded(s, t) && SameServer(s, t) && cid in u.requests && MovedTo(t, cid, u)
    ensures t.requests[cid] == s.requests[cid] && CanAnswer(u, cid)
  {
    hide EndsProcess;
  }

  /** Any one request that has been started ends, waiting for its slot included. */
  lemma FinishStarted(s: State, cid: Cid) returns (run: seq<Action>, s': State)
    requires Alive(s) && cid in Waiting(s.requests) && s.requests[cid].pc != Offered
    requires forall c :: c in Waiting(s.requests) ==> CanAnswer(s, c)
    ensures Leads(s, run, s') && Alive(s') && OnlyEnded(s, s') && Over(s'.requests[cid].pc)
  {
    hide Apply, Inv, CanAnswer, OnlyEnded, SomeEnded, MovedTo, SameServer;
    if s.requests[cid].pc != Started {
      run, s' := FinishOne(s, cid);
      OneIsOnly(s, cid, s');
      return;
    }
    var t;
    run, t := FreeSlot(s);
    SomeEndedKeeps(s, t, cid);
    var a := StartStep(t, cid);
    StepKeeps(t, a);
    var u := Apply(t, a).value;
    CanStillAnswer(s, cid, t, u);
    MovedKeepsClient(t, cid, u);
    LeadsBy(t, a, u);
    LeadsOn(s, run, t, [a], u);
    var rest;
    rest, s' := FinishOne(u, cid);
    StartedIsOnly(s, cid, t, u, s');
    LeadsOn(s, run + [a], u, rest, s');
    run := run + [a] + rest;
  }

  lemma SomeEndedKeeps(s: State, t: State, cid: Cid)
    requires SomeEnded(s, t) && cid in s.requests && s.requests[cid].pc == Started
    ensures cid in t.requests && t.requests[cid] == s.requests[cid]
  {
  }

  lemma MovedKeepsClient(s: State, cid: Cid, s': State)
    requires cid in s.requests && cid in s'.requests && MovedTo(s, cid, s')
    ensures s'.client == s.client
  {
  }

  lemma AcceptStep(s: State, cid: Cid)
    requires s.ended.None? && Is(s, cid, Offered)
    ensures Inner(Accept(cid)) && Apply(s, Accept(cid)).Some?
    ensures var s' := Apply(s, Accept(cid)).value;
            s'.ended.None? && cid in s'.requests && MovedTo(s, cid, s')
            && (s'.requests[cid].pc == Expired || s'.requests[cid].pc == Started)
  {
  }

  /** Any one request ends, the server receiving it first if it has not yet. */
  lemma FinishAny(s: State, cid: Cid) returns (run: seq<Action>, s': State)
    requires Alive(s) && cid in Waiting(s.requests)
    requires forall c :: c in Waiting(s.requests) ==> CanAnswer(s, c)
    ensures Leads(s, run, s') && Alive(s') && OnlyEnded(s, s') && Over(s'.requests[cid].pc)
  {
    hide Apply, Inv, EndsProcess;
    if s.requests[cid].pc != Offered {
      run, s' := FinishStarted(s, cid);
      return;
    }
    AcceptStep(s, cid);
    StepKeeps(s, Accept(cid));
    var t := Apply(s, Accept(cid)).value;
    LeadsBy(s, Accept(cid), t);
    run, s' := [Accept(cid)], t;
    if t.requests[cid].pc == Started {
      forall c | c in Waiting(t.requests) ensures CanAnswer(t, c) {
        assert CanAnswer(s, c);
      }
      var rest;
      rest, s' := FinishStarted(t, cid);
      LeadsOn(s, [Accept(cid)], t, rest, s');
      run := [Accept(cid)] + rest;
    }
  }

  lemma {:induction false} FinishAll(s: State) returns (run: seq<Action>, s': State)
    requires Alive(s) && forall cid :: cid in Waiting(s.requests) ==> CanAnswer(s, cid)
    ensures Leads(s, run, s') && Alive(s') && s'.requests.Keys == s.requests.Keys && Waiting(s'.requests) == {}
    decreases Waiting(s.requests)
  {
    hide Apply, Inv, EndsProcess;
    if Waiting(s.requests) == {} {
      return [], s;
    }
    var cid :| cid in Waiting(s.requests);
    var t;
    run, t := FinishAny(s, cid);
    assert cid !in Waiting(t.requests) && Waiting(t.requests) <= Waiting(s.requests);
    forall c | c in Waiting(t.requests) ensures CanAnswer(t, c) {
      assert CanAnswer(s, c);
    }
    var rest;
    rest, s' := FinishAll(t);
    LeadsOn(s, run, t, rest, s');
    run := run + rest;
  }

  /** From every state with the client open, the goroutines by themselves bring every request to its end, those
    * that wait for the server to receive them or for a slot included, unless the call of a function ends the process.
    */
  lemma EveryRequestEnds(clock: int, functions: map<string, FuncInfo>, maxCoroutine: int, run: seq<Action>, s: State)
      returns (more: seq<Action>, s': State)
    requires Reaches(clock, functions, maxCoroutine, run, s) && s.ended.None? && s.client.handler != P.Exited
    requires forall cid :: cid in Waiting(s.requests) ==> CanAnswer(s, cid)
    ensures Leads(s, more, s') && s'.requests.Keys == s.requests.Keys && s'.slots == 0
    ensures forall cid :: cid in s'.requests ==> s'.requests[cid].pc == Ended || s'.requests[cid].pc == Expired
  {
    hide Apply, EndsProcess, P.Inv, PostedOk, PipelineOk;
    EveryRunKeeps(clock, functions, maxCoroutine, run, s);
    more, s' := FinishAll(s);
    forall cid | cid in s'.requests ensures !Unfinished(s'.requests[cid].pc) {
      assert cid !in Waiting(s'.requests);
    }
    assert Holders(s'.requests) == {};
  }

  // ---------------------------------------------------------------- when a closed client brings the process down

  ghost predicate EndsAfter(s: State, run: seq<Action>) {
    Runs.After(Apply, s, run).Some? && Runs.After(Apply, s, run).value.ended.Some?
  }

  /** A call that may still be offered to the server in time. */
  ghost predicate MayOffer(s: State, cid: Cid) {
    && !s.stopped && cid in s.client.calls && cid !in s.requests
    && s.client.calls[cid].pc != P.Refused && s.client.calls[cid].deadline >= s.client.clock
  }

  /** A request whose result has not been posted yet but may be. */
  predicate Unposted(s: State, cid: Cid) {
    && cid in s.requests
    && match s.requests[cid].pc
       case Offered => s.requests[cid].call.expired >= s.client.clock
       case Started => true
       case Running => true
       case Posting(_, _) => true
       case _ => false
  }

  /** A result is on its way to the closed reply channel, or may still get there. */
  ghost predicate Outstanding(s: State) {
    || s.passing.Some? || s.callbackChan != []
    || (exists cid :: Unposted(s, cid))
    || (exists cid :: MayOffer(s, cid))
    || (exists cid :: StillRuns(s, cid))
  }

  /** The client has closed the reply channel and the process is still alive. */
  ghost predicate Closed(s: State) {
    Inv(s) && s.ended.None? && s.client.repliesClosed
  }

  lemma ClosedIsFinal(s: State)
    requires Closed(s)
    ensures s.client.isClose && s.client.handler == P.Exited
  {
    assert P.DoneOk(s.client);
  }

  lemma DeliveriesStayClosed(s: State, a: Action)
    requires s.client.repliesClosed && Apply(s, a).Some?
    ensures Apply(s, a).value.client.repliesClosed
  {
    hide P.Apply, P.HandlerStep, Rejection, Answer, EndsProcess;
    match a
    case OfClient(c) =>
      RepliesStay(s.client, c);
    case Receive =>
      TakeReplyIsStep(s.client, s.resultChan[0]);
    case _ =>
  }

  lemma StaysClosed(s: State, a: Action)
    requires Closed(s) && Apply(s, a).Some? && Apply(s, a).value.ended.None?
    ensures Closed(Apply(s, a).value)
  {
    hide Inv, Apply;
    StepKeeps(s, a);
    DeliveriesStayClosed(s, a);
  }

  lemma EndsBy(s: State, a: Action, run: seq<Action>)
    requires Apply(s, a).Some? && EndsAfter(Apply(s, a).value, run)
    ensures EndsAfter(s, [a] + run)
  {
    hide Apply;
    Runs.StepThen(Apply, s, a, Apply(s, a).value, run);
  }

  lemma EndedEnds(s: State)
    requires s.ended.Some?
    ensures EndsAfter(s, [])
  {
  }

  lemma EndFromPipe(s: State) returns (run: seq<Action>)
    requires Closed(s) && (s.passing.Some? || s.callbackChan != [])
    ensures EndsAfter(s, run)
  {
    hide Inv;
    if s.passing.Some? {
      EndedEnds(Apply(s, PassOn).value);
      EndsBy(s, PassOn, []);
      run := [PassOn] + [];
    } else {
      var t := Apply(s, TakeCallback).value;
      StaysClosed(s, TakeCallback);
      EndedEnds(Apply(t, PassOn).value);
      EndsBy(t, PassOn, []);
      EndsBy(s, TakeCallback, [PassOn] + []);
      run := [TakeCallback] + ([PassOn] + []);
    }
  }

  lemma EndFromPosting(s: State, cid: Cid) returns (run: seq<Action>)
    requires Closed(s) && cid in s.requests && s.requests[cid].pc.Posting?
    ensures EndsAfter(s, run)
  {
    if s.callbackChan != [] {
      run := EndFromPipe(s);
    } else {
      hide Inv;
      var t := Apply(s, Post(cid)).value;
      StaysClosed(s, Post(cid));
      var rest := EndFromPipe(t);
      EndsBy(s, Post(cid), rest);
      run := [Post(cid)] + rest;
    }
  }

  lemma EndFromRunning(s: State, cid: Cid) returns (run: seq<Action>)
    requires Closed(s) && Is(s, cid, Running)
    ensures EndsAfter(s, run)
  {
    hide Inv, Answer, EndsProcess;
    var t := Apply(s, Complete(cid)).value;
    var rest;
    if t.ended.Some? {
      EndedEnds(t);
      rest := [];
    } else {
      StaysClosed(s, Complete(cid));
      rest := EndFromPosting(t, cid);
    }
    EndsBy(s, Complete(cid), rest);
    run := [Complete(cid)] + rest;
  }

  lemma EndFromStarted(s: State, cid: Cid) returns (run: seq<Action>)
    requires Closed(s) && Is(s, cid, Started)
    ensures EndsAfter(s, run)
    decreases s.slots
  {
    hide P.Inv, PostedOk, PipelineOk, Rejection;
    if TurnedAway(s, cid).Some? {
      var t := Apply(s, Reject(cid)).value;
      StaysClosed(s, Reject(cid));
      var rest := EndFromPosting(t, cid);
      EndsBy(s, Reject(cid), rest);
      run := [Reject(cid)] + rest;
    } else if s.slots < s.capacity {
      var t := Apply(s, Acquire(cid)).value;
      StaysClosed(s, Acquire(cid));
      var rest := EndFromRunning(t, cid);
      EndsBy(s, Acquire(cid), rest);
      run := [Acquire(cid)] + rest;
    } else {
      var h :| h in Holders(s.requests);
      if s.requests[h].pc.Running? {
        run := EndFromRunning(s, h);
      } else if s.requests[h].pc.Posting? {
        run := EndFromPosting(s, h);
      } else {
        var t := Apply(s, Release(h)).value;
        StaysClosed(s, Release(h));
        var rest := EndFromStarted(t, cid);
        EndsBy(s, Release(h), rest);
        run := [Release(h)] + rest;
      }
    }
  }

  lemma EndFromOffered(s: State, cid: Cid) returns (run: seq<Action>)
    requires Closed(s) && Is(s, cid, Offered) && s.requests[cid].call.expired >= s.client.clock
    ensures EndsAfter(s, run)
  {
    hide Inv;
    var t := Apply(s, Accept(cid)).value;
    StaysClosed(s, Accept(cid));
    var rest := EndFromStarted(t, cid);
    EndsBy(s, Accept(cid), rest);
    run := [Accept(cid)] + rest;
  }

  lemma TableIsThere(s: State)
    requires Closed(s)
    ensures !s.client.dropped
  {
    assert P.PanicOk(s.client);
  }

  lemma EndFromCall(s: State, cid: Cid) returns (run: seq<Action>)
    requires Closed(s) && MayOffer(s, cid)
    ensures EndsAfter(s, run)
    decreases s.client.calls[cid].pc == P.Checked
  {
    hide Inv;
    if s.client.calls[cid].pc == P.Checked {
      TableIsThere(s);
      var a := OfClient(P.Caller(P.Register(cid)));
      var t := Apply(s, a).value;
      StaysClosed(s, a);
      var rest := EndFromCall(t, cid);
      EndsBy(s, a, rest);
      run := [a] + rest;
    } else {
      var script := Script(k => Decoded(None), false, Late(false), Texts("", "", "", "", "", "", "", x => x));
      var a := Offer(RpcInfo("", true, s.client.calls[cid].deadline, cid, [], []), script);
      var t := Apply(s, a).value;
      StaysClosed(s, a);
      var rest := EndFromOffered(t, cid);
      EndsBy(s, a, rest);
      run := [a] + rest;
    }
  }

  /** Nothing is outstanding, and so nothing ever will be. */
  ghost predicate Quiet(s: State) {
    Closed(s) && !Outstanding(s)
  }

  lemma QuietOfClient(s: State, c: P.Action)
    requires Quiet(s) && Apply(s, OfClient(c)).Some?
    ensures !Outstanding(Apply(s, OfClient(c)).value)
  {
    ClosedIsFinal(s);
    hide Inv;
    var s' := Apply(s, OfClient(c)).value;
    P.ClosedTakesNoCalls(s.client, c);
    hide P.Apply;
    forall cid ensures !Unposted(s', cid) {
      assert !Unposted(s, cid);
    }
    forall cid ensures !StillRuns(s', cid) {
      assert !StillRuns(s, cid);
    }
    forall cid ensures !MayOffer(s', cid) {
      assert !MayOffer(s, cid);
    }
  }

  lemma QuietOffer(s: State, call: RpcInfo, script: Script)
    requires Quiet(s) && ServerStep(s, Offer(call, script)).Some?
    ensures ServerStep(s, Offer(call, script)).value.ended.None? && !Outstanding(ServerStep(s, Offer(call, script)).value)
  {
    hide Inv, Straggles, EndsProcess, Answer, Rejection;
    var s' := ServerStep(s, Offer(call, script)).value;
    assert !MayOffer(s, call.cid);
    forall cid ensures !Unposted(s', cid) && !MayOffer(s', cid) && !StillRuns(s', cid) {
      assert !Unposted(s, cid) && !MayOffer(s, cid) && !StillRuns(s, cid);
    }
  }

  lemma QuietAccept(s: State, cid: Cid)
    requires Quiet(s) && ServerStep(s, Accept(cid)).Some?
    ensures ServerStep(s, Accept(cid)).value.ended.None? && !Outstanding(ServerStep(s, Accept(cid)).value)
  {
    hide Inv, Straggles, EndsProcess, Answer, Rejection;
    var s' := ServerStep(s, Accept(cid)).value;
    assert !Unposted(s, cid);
    forall k ensures !Unposted(s', k) && !MayOffer(s', k) && !StillRuns(s', k) {
      assert !Unposted(s, k) && !MayOffer(s, k) && !StillRuns(s, k);
    }
  }

  lemma QuietRelease(s: State, cid: Cid)
    requires Quiet(s) && ServerStep(s, Release(cid)).Some?
    ensures ServerStep(s, Release(cid)).value.ended.None? && !Outstanding(ServerStep(s, Release(cid)).value)
  {
    hide Inv, Straggles, EndsProcess, Answer, Rejection;
    var s' := ServerStep(s, Release(cid)).value;
    forall k ensures !Unposted(s', k) && !MayOffer(s', k) && !StillRuns(s', k) {
      assert !Unposted(s, k) && !MayOffer(s, k) && !StillRuns(s, k);
    }
  }

  lemma QuietStop(s: State)
    requires Quiet(s)
    ensures !Outstanding(s.(stopped := true))
  {
    hide Inv, Straggles, EndsProcess, Answer, Rejection;
    forall k
      ensures !Unposted(s.(stopped := true), k) && !MayOffer(s.(stopped := true), k) && !StillRuns(s.(stopped := true), k)
    {
      assert !Unposted(s, k) && !MayOffer(s, k) && !StillRuns(s, k);
    }
  }

  /** With nothing outstanding the server can be offered and receive expired requests, give back slots and stop,
    * no more.
    */
  lemma QuietServer(s: State, a: Action)
    requires Quiet(s) && !a.OfClient? && Apply(s, a).Some?
    ensures a.Offer? || a.Accept? || a.Release? || a.StopConsume?
  {
    ClosedIsFinal(s);
    hide Inv, MayOffer, Answer, EndsProcess, Rejection;
    assert forall cid :: cid in s.requests ==> !Unposted(s, cid) && !StillRuns(s, cid);
  }

  lemma QuietOfServer(s: State, a: Action)
    requires Quiet(s) && !a.OfClient? && Apply(s, a).Some?
    ensures Apply(s, a).value.ended.None? && !Outstanding(Apply(s, a).value)
  {
    hide Quiet, Outstanding;
    assert s.ended.None?;
    QuietServer(s, a);
    match a {
      case Offer(call, script) => QuietOffer(s, call, script);
      case Accept(cid) => QuietAccept(s, cid);
      case Release(cid) => QuietRelease(s, cid);
      case _ => QuietStop(s);
    }
  }

  lemma QuietStays(s: State, a: Action)
    requires Quiet(s) && Apply(s, a).Some?
    ensures Quiet(Apply(s, a).value)
  {
    hide Outstanding, Inv, ServerStep, P.Apply;
    if a.OfClient? {
      QuietOfClient(s, a.a);
    } else {
      QuietOfServer(s, a);
    }
    StaysClosed(s, a);
  }

  /** Once the client has closed the reply channel, the process can still be brought down exactly when a result is
    * outstanding: one already posted and not passed on, a request not answered yet nor expired before the server
    * receives it, or a call that may still be offered to it in time; or when a function that was not waited for is
    * going to panic.
    */
  lemma ProcessMayEndIff(clock: int, functions: map<string, FuncInfo>, maxCoroutine: int, run: seq<Action>, s: State)
    requires Reaches(clock, functions, maxCoroutine, run, s) && s.ended.None? && s.client.repliesClosed
    ensures (exists more :: EndsAfter(s, more)) <==> Outstanding(s)
  {
    EveryRunKeeps(clock, functions, maxCoroutine, run, s);
    hide Apply, Inv, Reaches;
    if Outstanding(s) {
      var more;
      if s.passing.Some? || s.callbackChan != [] {
        more := EndFromPipe(s);
      } else if cid :| Unposted(s, cid) {
        more := EndFromRequest(s, cid);
      } else if cid :| MayOffer(s, cid) {
        more := EndFromCall(s, cid);
      } else {
        var cid :| StillRuns(s, cid);
        more := EndFromCrash(s, cid);
      }
      assert EndsAfter(s, more);
    } else {
      assert Runs.Keeps(Apply, Quiet) by {
        forall t, a | Quiet(t) && Apply(t, a).Some? ensures Quiet(Apply(t, a).value) {
          QuietStays(t, a);
        }
      }
      forall more | EndsAfter(s, more) ensures false {
        Runs.RunKeeps(Apply, Quiet, s, more);
      }
    }
  }

  lemma EndFromCrash(s: State, cid: Cid) returns (run: seq<Action>)
    requires Closed(s) && StillRuns(s, cid)
    ensures EndsAfter(s, run)
  {
    hide Inv, StillRuns;
    EndedEnds(Apply(s, Crash(cid)).value);
    EndsBy(s, Crash(cid), []);
    run := [Crash(cid)] + [];
  }

  lemma EndFromRequest(s: State, cid: Cid) returns (run: seq<Action>)
    requires Closed(s) && Unposted(s, cid)
    ensures EndsAfter(s, run)
  {
    hide Inv, Apply;
    match s.requests[cid].pc
    case Offered => run := EndFromOffered(s, cid);
    case Started => run := EndFromStarted(s, cid);
    case Running => run := EndFromRunning(s, cid);
    case _ => run := EndFromPosting(s, cid);
  }

  /** Before the client closes the reply channel only the call of a function, with arguments that do not fit it or
    * panicking itself, can have ended the process.
    */
  lemma OnlyBadCallsBefore(clock: int, functions: map<string, FuncInfo>, maxCoroutine: int, run: seq<Action>, s: State)
    requires Reaches(clock, functions, maxCoroutine, run, s) && s.ended.Some? && !s.client.repliesClosed
    ensures match s.ended.value
            case BadCall => exists cid :: CallsBadly(s.functions, s.requests, cid)
            case LatePanic => exists cid :: StillRuns(s, cid)
            case ReplyClosed => false
  {
    hide EndsProcess;
    EveryRunKeeps(clock, functions, maxCoroutine, run, s);
  }

  /** A value survives the trip back: what the function returned is what the caller decodes, in order, whenever the
    * decoder undoes the encoding and the function reports no fault. The caller never sees a length mismatch.
    */
  lemma CallReturnsValues<V>(functions: map<string, FuncInfo>, call: RpcInfo, script: Script,
                             decode: (string, seq<byte>) -> Option<V>, returned: seq<V>)
    requires Completes(functions, call, script) && FaultText(script.ran.fault) == ""
    requires |returned| == |script.ran.out|
    requires forall i :: 0 <= i < |returned| ==> decode(script.ran.out[i].typ, script.ran.out[i].bytes) == Some(returned[i])
    ensures !EndsProcess(functions, call, script)
    ensures var r := Answer(functions, call, script);
            && r.error == "" && |r.resultsType| == |r.results|
            && RpcClient.DecodeAll(r.resultsType, r.results, decode, 0, []) == RpcClient.Values(returned)
  {
    AnswerMeans(functions, call, script);
    hide Answer;
    var r := Answer(functions, call, script);
    forall i | 0 <= i < |returned| ensures decode(r.resultsType[i], r.results[i]) == Some(returned[i]) {
      assert script.ran.out[i] == Encoded(r.resultsType[i], r.results[i]);
    }
    RpcClient.DecodeAllMeans(r.resultsType, r.results, decode, 0, []);
    var o := RpcClient.DecodeAll(r.resultsType, r.results, decode, 0, []);
    assert o.Values?;
    assert o.values == returned;
  }

  /** The caller sees values only if the function completed without a fault, and every failure as one: the decoder
    * apart, a call is refused exactly if the request did not complete or reported a fault.
    */
  lemma FailureIsSeen<V>(functions: map<string, FuncInfo>, call: RpcInfo, script: Script, decode: (string, seq<byte>) -> Option<V>)
    requires !EndsProcess(functions, call, script) && HasTexts(script)
    ensures var o := RpcClient.OutcomeOf(Some(Answer(functions, call, script)), decode);
            && (o.Refused? <==> !(Completes(functions, call, script) && FaultText(script.ran.fault) == ""))
            && (o.Values? || o.FormatError? || o.Refused?)
  {
    hide Answer, EndsProcess, Completes;
    CompletesReturns(functions, call, script);
    AnswerMeans(functions, call, script);
    if !Completes(functions, call, script) {
      FailureHasText(functions, call, script);
    }
  }

  lemma CompletesReturns(functions: map<string, FuncInfo>, call: RpcInfo, script: Script)
    ensures Completes(functions, call, script) ==> script.ran.Returned?
  {
  }

  /** End to end, a caller that finds values is one whose function completed without a fault. */
  lemma ValuesAreReturned<V>(clock: int, functions: map<string, FuncInfo>, maxCoroutine: int, run: seq<Action>, s: State,
                             cid: Cid, decode: (string, seq<byte>) -> Option<V>)
    requires Reaches(clock, functions, maxCoroutine, run, s)
    requires cid in s.client.calls && s.client.calls[cid].sent != []
    requires cid in s.requests ==> HasTexts(s.requests[cid].script)
    ensures RpcClient.OutcomeOf(Some(s.client.calls[cid].sent[0]), decode).Values? ==>
              && cid in s.requests
              && var q := s.requests[cid]; Completes(functions, q.call, q.script) && FaultText(q.script.ran.fault) == ""
  {
    hide Reaches, Answer, EndsProcess, Completes, HasTexts, TimeoutResult;
    EndToEnd(clock, functions, maxCoroutine, run, s, cid);
    var r := s.client.calls[cid].sent[0];
    RpcClient.TimedOutCaller(cid, decode);
    if r != TimeoutResult(Local, cid) {
      var q := s.requests[cid];
      CompletesReturns(functions, q.call, q.script);
      FailureIsSeen(functions, q.call, q.script, decode);
    }
  }
}
