/** The asynchronous beego logger: producers fill pooled records and queue them, one consumer writes them to every
  * output, and one flusher calls `Flush` and `Close`, in every interleaving.
  */
module AsyncLog {
  import opened Common
  import Runs

  datatype Msg = Msg(level: int, text: string, when: int)
  datatype Signal = Flush | Close

  type Rec = nat

  /** `Filled` has all three fields of its record assigned; `Got` may still have the fields of an earlier use. */
  datatype ProducerPc = Got(rec: Rec, msg: Msg) | Filled(rec: Rec, msg: Msg)

  /** `Writing` has read the record's fields and given them to the first `k` outputs; `sig` is the signal being
    * served, if any. `Receiving` has seen that the queue is not empty, `Serving` that it is.
    */
  datatype ConsumerPc =
    | Selecting
    | Writing(rec: Rec, msg: Msg, k: nat, sig: Option<Signal>)
    | Draining(drain: Signal)
    | Receiving(receive: Signal)
    | Serving(serve: Signal)
    | Over

  /** `mark` is how many messages had been queued when the call began. */
  datatype FlusherPc = Idle | Signalling(signal: Signal, mark: nat) | Waiting(wait: Signal, mark: nat) | Adding | Closed

  /** `store` gives the fields of every record, `free` those in the pool and `gone` those it has forgotten. `queued` are all messages ever queued,
    * `written[k]` those given to output `k`, and `flushed` how many had been queued when the last `Flush` or
    * `Close` to return was called.
    */
  datatype State = State(
    cap: nat, store: map<Rec, Msg>, free: set<Rec>, gone: set<Rec>, producers: map<nat, ProducerPc>, queue: seq<Rec>,
    consumer: ConsumerPc, written: seq<seq<Msg>>, signals: seq<Signal>, wg: int, flusher: FlusherPc,
    queued: seq<Msg>, flushed: nat)

  datatype ProducerAction =
    | Get(p: nat, rec: Rec, msg: Msg)    // a pooled record, or a new one
    | Fill(p: nat)
    | Send(p: nat)
    | Evict(rec: Rec)                    // the pool may forget records at any time

  datatype ConsumerAction =
    | TakeMessage
    | TakeSignal
    | WriteOne
    | PutBack
    | Look                               // the test of the queue's length
    | Receive
    | Done

  datatype FlusherAction =
    | Start(s: Signal)
    | Signal
    | Wait
    | Add

  datatype Action = Producer(p: ProducerAction) | Consumer(c: ConsumerAction) | Flusher(f: FlusherAction)

  function Initial(cap: nat, outputs: nat): (s: State) {
    State(cap, map[], {}, {}, map[], [], Selecting, seq(outputs, i => []), [], 1, Idle, [], 0)
  }

  function ProducerStep(s: State, a: ProducerAction): (r: Option<State>) {
    match a
    case Get(p, rec, msg) =>
      if p in s.producers || (rec in s.store && rec !in s.free) then None
      else Some(s.(store := if rec in s.store then s.store else s.store[rec := Msg(0, "", 0)],
                   free := s.free - {rec}, producers := s.producers[p := Got(rec, msg)]))
    case Fill(p) =>
      if p !in s.producers || !s.producers[p].Got? then None
      else Some(s.(store := s.store[s.producers[p].rec := s.producers[p].msg],
                   producers := s.producers[p := Filled(s.producers[p].rec, s.producers[p].msg)]))
    case Send(p) =>
      if p !in s.producers || !s.producers[p].Filled? || |s.queue| >= s.cap || s.flusher == Closed then None
      else Some(s.(queue := s.queue + [s.producers[p].rec], queued := s.queued + [s.producers[p].msg],
                   producers := s.producers - {p}))
    case Evict(rec) =>
      if rec !in s.free then None else Some(s.(free := s.free - {rec}, gone := s.gone + {rec}))
  }

  function ConsumerStep(s: State, a: ConsumerAction): (r: Option<State>) {
    match a
    case TakeMessage =>
      if s.consumer != Selecting || s.queue == [] || s.queue[0] !in s.store then None
      else Some(s.(consumer := Writing(s.queue[0], s.store[s.queue[0]], 0, None), queue := s.queue[1..]))
    case TakeSignal =>
      if s.consumer != Selecting || s.signals == [] then None
      else Some(s.(consumer := Draining(s.signals[0]), signals := s.signals[1..]))
    case WriteOne =>
      if !s.consumer.Writing? || s.consumer.k >= |s.written| then None
      else
        var k := s.consumer.k;
        Some(s.(written := s.written[k := s.written[k] + [s.consumer.msg]], consumer := s.consumer.(k := k + 1)))
    case PutBack =>
      if !s.consumer.Writing? || s.consumer.k != |s.written| then None
      else Some(s.(free := s.free + {s.consumer.rec},
                   consumer := if s.consumer.sig.None? then Selecting else Draining(s.consumer.sig.value)))
    case Look =>
      if !s.consumer.Draining? then None
      else Some(s.(consumer := if s.queue != [] then Receiving(s.consumer.drain) else Serving(s.consumer.drain)))
    case Receive =>
      if !s.consumer.Receiving? || s.queue == [] || s.queue[0] !in s.store then None
      else Some(s.(consumer := Writing(s.queue[0], s.store[s.queue[0]], 0, Some(s.consumer.receive)), queue := s.queue[1..]))
    case Done =>
      if !s.consumer.Serving? then None
      else Some(s.(wg := s.wg - 1, consumer := if s.consumer.serve == Close then Over else Selecting))
  }

  function FlusherStep(s: State, a: FlusherAction): (r: Option<State>) {
    match a
    case Start(sig) =>
      if s.flusher != Idle then None else Some(s.(flusher := Signalling(sig, |s.queued|)))
    case Signal =>
      if !s.flusher.Signalling? || |s.signals| >= 1 then None
      else Some(s.(signals := s.signals + [s.flusher.signal], flusher := Waiting(s.flusher.signal, s.flusher.mark)))
    case Wait =>
      if !s.flusher.Waiting? || s.wg != 0 then None
      else Some(s.(flusher := if s.flusher.wait == Close then Closed else Adding, flushed := s.flusher.mark))
    case Add =>
      if s.flusher != Adding then None else Some(s.(wg := s.wg + 1, flusher := Idle))
  }

  /** The state after one action, or none while the goroutine that would take it is elsewhere or blocked. */
  function Apply(s: State, a: Action): (r: Option<State>) {
    match a
    case Producer(p) => ProducerStep(s, p)
    case Consumer(c) => ConsumerStep(s, c)
    case Flusher(f) => FlusherStep(s, f)
  }

  /** `s` is what some run from the start of a logger leads to. */
  ghost predicate Reaches(cap: nat, outputs: nat, run: seq<Action>, s: State) {
    Runs.After(Apply, Initial(cap, outputs), run) == Some(s)
  }

  // ---------------------------------------------------------------- what every run keeps

  /** The messages the queued records stand for. */
  function Fields(store: map<Rec, Msg>, queue: seq<Rec>): (msgs: seq<Msg>)
    ensures |msgs| == |queue|
    ensures forall i :: 0 <= i < |queue| && queue[i] in store ==> msgs[i] == store[queue[i]]
  {
    seq(|queue|, i requires 0 <= i < |queue| => if queue[i] in store then store[queue[i]] else Msg(0, "", 0))
  }

  /** Each record is in one place: the pool, a producer's or the consumer's hands, the queue, or nowhere. */
  ghost predicate RecordsOk(s: State) {
    && (forall r :: r in s.free ==> r in s.store && r !in s.queue)
    && (forall i :: 0 <= i < |s.queue| ==> s.queue[i] in s.store)
    && (forall i, j :: 0 <= i < j < |s.queue| ==> s.queue[i] != s.queue[j])
    && (forall p :: p in s.producers ==>
          var rec := s.producers[p].rec;
          rec in s.store && rec !in s.free && rec !in s.queue && (s.producers[p].Filled? ==> s.store[rec] == s.producers[p].msg))
    && (forall p, q :: p in s.producers && q in s.producers && p != q ==> s.producers[p].rec != s.producers[q].rec)
    && (s.consumer.Writing? ==>
          && s.consumer.rec in s.store && s.consumer.rec !in s.free && s.consumer.rec !in s.queue
          && forall p :: p in s.producers ==> s.producers[p].rec != s.consumer.rec)
  }

  /** Every record is somewhere: none is leaked. */
  ghost predicate Accounted(s: State) {
    forall r :: r in s.store ==> r in s.free || r in s.gone || r in s.queue || IsHeld(s, r)
  }

  ghost predicate IsHeld(s: State, r: Rec) {
    (s.consumer.Writing? && s.consumer.rec == r) || exists p :: p in s.producers && s.producers[p].rec == r
  }

  /** What output `k` has still to be given of the message in the consumer's hands. */
  function Held(c: ConsumerPc, k: nat): (held: seq<Msg>) {
    if c.Writing? && c.k <= k then [c.msg] else []
  }

  /** For every output: what it was given, what the consumer holds for it, and the queue are what was queued. */
  ghost predicate OrderOk(s: State) {
    && (forall k :: 0 <= k < |s.written| ==> s.written[k] + Held(s.consumer, k) + Fields(s.store, s.queue) == s.queued)
    && (s.consumer.Writing? ==> s.consumer.k <= |s.written|)
    && (s.consumer.Receiving? ==> s.queue != []) && |s.queue| <= s.cap
  }

  function SignalOf(c: ConsumerPc): (s: Option<Signal>) {
    match c
    case Draining(s) => Some(s)
    case Receiving(s) => Some(s)
    case Serving(s) => Some(s)
    case Writing(_, _, _, s) => s
    case _ => None
  }

  ghost predicate AllGiven(s: State, mark: nat) {
    forall k :: 0 <= k < |s.written| ==> |s.written[k]| >= mark
  }

  /** One flush at a time: its signal is in the channel, or being served, or the wait group is at zero. */
  ghost predicate FlushOk(s: State) {
    && s.flushed <= |s.queued| && AllGiven(s, s.flushed)
    && (s.flusher.Signalling? || s.flusher.Waiting? ==> s.flusher.mark <= |s.queued|)
    && (match s.flusher
        case Idle => s.wg == 1 && s.signals == [] && SignalOf(s.consumer) == None && s.consumer != Over
        case Signalling(_, _) => s.wg == 1 && s.signals == [] && SignalOf(s.consumer) == None && s.consumer != Over
        case Waiting(sig, mark) =>
          || (s.wg == 1 && s.signals == [sig] && SignalOf(s.consumer) == None && s.consumer != Over)
          || (s.wg == 1 && s.signals == [] && SignalOf(s.consumer) == Some(sig)
              && (s.consumer.Serving? ==> AllGiven(s, mark)))
          || (s.wg == 0 && s.signals == [] && SignalOf(s.consumer) == None && AllGiven(s, mark)
              && (s.consumer == Over <==> sig == Close))
        case Adding => s.wg == 0 && s.signals == [] && SignalOf(s.consumer) == None && s.consumer != Over
        case Closed => s.wg == 0 && s.signals == [] && s.consumer == Over)
  }

  ghost predicate Inv(s: State) {
    RecordsOk(s) && Accounted(s) && OrderOk(s) && FlushOk(s)
  }

  lemma SendKeepsRecords(s: State, p: nat)
    requires RecordsOk(s) && ProducerStep(s, Send(p)).Some?
    ensures RecordsOk(ProducerStep(s, Send(p)).value)
  {
  }

  lemma ProducerKeepsRecords(s: State, a: ProducerAction)
    requires RecordsOk(s) && ProducerStep(s, a).Some?
    ensures RecordsOk(ProducerStep(s, a).value)
  {
    if a.Send? {
      hide RecordsOk, ProducerStep;
      SendKeepsRecords(s, a.p);
    }
  }

  lemma HeldStays(s: State, s': State, r: Rec, but: nat)
    requires s'.consumer == s.consumer && forall p :: p in s.producers && p != but ==> p in s'.producers && s'.producers[p].rec == s.producers[p].rec
    requires but in s.producers ==> s.producers[but].rec != r
    requires IsHeld(s, r)
    ensures IsHeld(s', r)
  {
  }

  lemma ProducerKeepsAccounted(s: State, a: ProducerAction)
    requires Accounted(s) && ProducerStep(s, a).Some?
    ensures Accounted(ProducerStep(s, a).value)
  {
    var s' := ProducerStep(s, a).value;
    hide IsHeld;
    forall r | r in s'.store ensures r in s'.free || r in s'.gone || r in s'.queue || IsHeld(s', r) {
      match a
      case Get(p, rec, msg) =>
        if r == rec {
          IsInHand(s', p);
        } else if IsHeld(s, r) {
          HeldStays(s, s', r, p);
        }
      case Fill(p) =>
        if r == s.producers[p].rec {
          IsInHand(s', p);
        } else if IsHeld(s, r) {
          HeldStays(s, s', r, p);
        }
      case Send(p) =>
        if r == s.producers[p].rec {
          assert s'.queue[|s.queue|] == r;
        } else if IsHeld(s, r) {
          HeldStays(s, s', r, p);
        }
      case Evict(rec) =>
        if IsHeld(s, r) {
          SameHands(s, s', r);
        }
    }
  }

  lemma IsInHand(s: State, p: nat)
    requires p in s.producers
    ensures IsHeld(s, s.producers[p].rec)
  {
  }

  lemma SameHands(s: State, s': State, r: Rec)
    requires s'.producers == s.producers && IsHeld(s, r)
    requires s.consumer.Writing? && s.consumer.rec == r ==> s'.consumer.Writing? && s'.consumer.rec == r
    ensures IsHeld(s', r)
  {
  }

  lemma ConsumerKeepsAccounted(s: State, a: ConsumerAction)
    requires Accounted(s) && ConsumerStep(s, a).Some?
    ensures Accounted(ConsumerStep(s, a).value)
  {
    var s' := ConsumerStep(s, a).value;
    forall r | r in s'.store ensures r in s'.free || r in s'.gone || r in s'.queue || IsHeld(s', r) {
      if r in s.queue && r !in s'.queue {
        assert s.queue == [s.queue[0]] + s.queue[1..];
      }
    }
  }

  lemma ProducerKeepsOrder(s: State, a: ProducerAction)
    requires RecordsOk(s) && OrderOk(s) && ProducerStep(s, a).Some?
    ensures OrderOk(ProducerStep(s, a).value)
  {
    var s' := ProducerStep(s, a).value;
    if a.Send? {
      assert Fields(s'.store, s'.queue) == Fields(s.store, s.queue) + [s.producers[a.p].msg];
    } else {
      assert Fields(s'.store, s'.queue) == Fields(s.store, s.queue);
    }
  }

  lemma ProducerKeepsFlush(s: State, a: ProducerAction)
    requires FlushOk(s) && ProducerStep(s, a).Some?
    ensures FlushOk(ProducerStep(s, a).value)
  {
  }

  lemma ConsumerKeepsRecords(s: State, a: ConsumerAction)
    requires RecordsOk(s) && ConsumerStep(s, a).Some?
    ensures RecordsOk(ConsumerStep(s, a).value)
  {
  }

  lemma FieldsHead(store: map<Rec, Msg>, queue: seq<Rec>)
    requires queue != [] && queue[0] in store
    ensures Fields(store, queue) == [store[queue[0]]] + Fields(store, queue[1..])
  {
  }

  lemma TakeOver(given: seq<Msg>, msg: Msg, rest: seq<Msg>)
    ensures given + [] + ([msg] + rest) == given + [msg] + rest
  {
  }

  lemma TakingKeepsOrder(s: State, a: ConsumerAction)
    requires a.TakeMessage? || a.Receive?
    requires OrderOk(s) && ConsumerStep(s, a).Some?
    ensures OrderOk(ConsumerStep(s, a).value)
  {
    hide Fields;
    FieldsHead(s.store, s.queue);
    var s' := ConsumerStep(s, a).value;
    forall k | 0 <= k < |s'.written|
      ensures s'.written[k] + Held(s'.consumer, k) + Fields(s'.store, s'.queue) == s'.queued
    {
      TakeOver(s.written[k], s.store[s.queue[0]], Fields(s'.store, s'.queue));
    }
  }

  lemma WritingKeepsOrder(s: State)
    requires OrderOk(s) && ConsumerStep(s, WriteOne).Some?
    ensures OrderOk(ConsumerStep(s, WriteOne).value)
  {
    var s' := ConsumerStep(s, WriteOne).value;
    forall k | 0 <= k < |s'.written|
      ensures s'.written[k] + Held(s'.consumer, k) + Fields(s'.store, s'.queue) == s'.queued
    {
      assert s.written[k] + Held(s.consumer, k) + Fields(s.store, s.queue) == s.queued;
      assert s'.written[k] + Held(s'.consumer, k) == s.written[k] + Held(s.consumer, k);
    }
  }

  lemma ConsumerKeepsOrder(s: State, a: ConsumerAction)
    requires RecordsOk(s) && OrderOk(s) && ConsumerStep(s, a).Some?
    ensures OrderOk(ConsumerStep(s, a).value)
  {
    hide RecordsOk, Fields;
    match a
    case TakeMessage =>
      TakingKeepsOrder(s, a);
    case Receive =>
      TakingKeepsOrder(s, a);
    case WriteOne =>
      WritingKeepsOrder(s);
    case _ =>
  }

  lemma ConsumerKeepsFlush(s: State, a: ConsumerAction)
    requires OrderOk(s) && FlushOk(s) && ConsumerStep(s, a).Some?
    ensures FlushOk(ConsumerStep(s, a).value)
  {
  }

  lemma FlusherKeeps(s: State, a: FlusherAction)
    requires Inv(s) && FlusherStep(s, a).Some?
    ensures Inv(FlusherStep(s, a).value)
  {
  }

  lemma StepKeeps(s: State, a: Action)
    requires Inv(s) && Apply(s, a).Some?
    ensures Inv(Apply(s, a).value)
  {
    hide RecordsOk, Accounted, OrderOk, FlushOk, ProducerStep, ConsumerStep, FlusherStep;
    match a
    case Producer(p) =>
      ProducerKeepsAccounted(s, p);
      ProducerKeepsRecords(s, p);
      ProducerKeepsOrder(s, p);
      ProducerKeepsFlush(s, p);
    case Consumer(c) =>
      ConsumerKeepsAccounted(s, c);
      ConsumerKeepsRecords(s, c);
      ConsumerKeepsOrder(s, c);
      ConsumerKeepsFlush(s, c);
    case Flusher(f) =>
      FlusherKeeps(s, f);
  }

  lemma EveryRunKeeps(cap: nat, outputs: nat, run: seq<Action>, s: State)
    requires Reaches(cap, outputs, run, s)
    ensures Inv(s)
  {
    InitialIsGood(cap, outputs);
    hide Apply, Inv, Initial;
    assert Runs.Keeps(Apply, Inv) by {
      forall t, a | Inv(t) && Apply(t, a).Some? ensures Inv(Apply(t, a).value) {
        StepKeeps(t, a);
      }
    }
    Runs.RunKeeps(Apply, Inv, Initial(cap, outputs), run);
  }

  lemma InitialIsGood(cap: nat, outputs: nat)
    ensures Inv(Initial(cap, outputs))
  {
  }

  // ---------------------------------------------------------------- what this means

  /** In every run each output has been given the messages queued so far in order and once each, up to the one in
    * the consumer's hands and those still in the queue, although their records are used again and again.
    */
  lemma InOrderExactlyOnce(cap: nat, outputs: nat, run: seq<Action>, s: State, k: nat)
    requires Reaches(cap, outputs, run, s) && k < |s.written|
    ensures s.written[k] + Held(s.consumer, k) + Fields(s.store, s.queue) == s.queued
    ensures s.written[k] <= s.queued && |s.queue| <= s.cap
    ensures forall r :: r in s.store ==> r in s.free || r in s.gone || r in s.queue || IsHeld(s, r)
  {
    EveryRunKeeps(cap, outputs, run, s);
    GivenIsPrefix(s, k);
  }

  lemma GivenIsPrefix(s: State, k: nat)
    requires OrderOk(s) && k < |s.written|
    ensures s.written[k] <= s.queued
  {
    hide Fields, Held;
    var held, queued := Held(s.consumer, k), Fields(s.store, s.queue);
    assert s.written[k] + held + queued == s.written[k] + (held + queued);
  }

  /** When `Flush` or `Close` may return, every output has been given everything queued before the call; and so it
    * stays.
    */
  lemma {:induction false} FlushMeansWritten(cap: nat, outputs: nat, run: seq<Action>, s: State, k: nat)
    requires Reaches(cap, outputs, run, s) && k < |s.written|
    ensures s.flusher.Waiting? && FlusherStep(s, Wait).Some? ==>
              s.flusher.mark <= |s.queued| && s.queued[..s.flusher.mark] <= s.written[k]
    ensures s.flushed <= |s.queued| && s.queued[..s.flushed] <= s.written[k]
  {
    hide Fields, RecordsOk;
    EveryRunKeeps(cap, outputs, run, s);
    GivenIsPrefix(s, k);
  }

  /** The drain never blocks although it tests the queue before it receives, the flusher's signal always finds room,
    * and the wait group never goes below zero.
    */
  lemma DrainNeverBlocks(cap: nat, outputs: nat, run: seq<Action>, s: State)
    requires Reaches(cap, outputs, run, s)
    ensures s.consumer.Receiving? ==> ConsumerStep(s, Receive).Some?
    ensures s.flusher.Signalling? ==> FlusherStep(s, Signal).Some?
    ensures 0 <= s.wg <= 1 && (s.consumer.Serving? ==> s.wg == 1)
  {
    EveryRunKeeps(cap, outputs, run, s);
  }

  // ---------------------------------------------------------------- a flush returns

  /** What the consumer does next for a flush that is waiting. */
  function NextOf(s: State): (a: ConsumerAction) {
    match s.consumer
    case Writing(_, _, k, _) => if k < |s.written| then WriteOne else PutBack
    case Draining(_) => Look
    case Receiving(_) => Receive
    case Serving(_) => Done
    case _ => TakeSignal
  }

  /** Where the consumer is in one round of the drain. */
  function Phase(c: ConsumerPc, outputs: nat): (n: nat) {
    match c
    case Selecting => 1
    case Writing(_, _, k, _) => if k < outputs then 4 + outputs - k else 4
    case Draining(_) => 3
    case Receiving(_) => 2
    case Serving(_) => 1
    case Over => 0
  }

  lemma ConsumerAdvances(s: State)
    requires Inv(s) && s.flusher.Waiting? && s.wg != 0
    ensures ConsumerStep(s, NextOf(s)).Some?
    ensures var s' := ConsumerStep(s, NextOf(s)).value;
            && s'.flusher == s.flusher && |s'.written| == |s.written|
            && (s'.wg == 0 || |s'.signals| < |s.signals|
                || (s'.signals == s.signals && |s'.queue| < |s.queue|)
                || (s'.signals == s.signals && s'.queue == s.queue
                    && Phase(s'.consumer, |s.written|) < Phase(s.consumer, |s.written|)))
  {
    hide Fields;
  }

  /** Steps of the consumer alone let a waiting `Flush` or `Close` return, however long the queue is. */
  lemma {:induction false} ConsumerFinishes(s: State) returns (run: seq<Action>, s': State)
    requires Inv(s) && s.flusher.Waiting?
    ensures Runs.After(Apply, s, run) == Some(s') && FlusherStep(s', Wait).Some? && s'.flusher == s.flusher && s'.wg == 0
    ensures forall a :: a in run ==> a.Consumer?
    decreases if s.wg == 0 then 0 else 1, |s.signals|, |s.queue|, Phase(s.consumer, |s.written|)
  {
    hide Inv, ConsumerStep;
    if s.wg == 0 {
      return [], s;
    }
    ConsumerAdvances(s);
    var a := Consumer(NextOf(s));
    StepKeeps(s, a);
    var t := ConsumerStep(s, NextOf(s)).value;
    var rest;
    rest, s' := ConsumerFinishes(t);
    Runs.StepThen(Apply, s, a, t, rest);
    run := [a] + rest;
  }

  /** However much is queued, steps of the consumer alone let a waiting flush return; with its own last steps the
    * flusher is then ready for the next call, or closed.
    */
  lemma FlushReturns(cap: nat, outputs: nat, run: seq<Action>, s: State) returns (more: seq<Action>, s': State)
    requires Reaches(cap, outputs, run, s) && s.flusher.Waiting?
    ensures Runs.After(Apply, s, more) == Some(s') && forall a :: a in more ==> a.Consumer? || a.Flusher?
    ensures s'.flusher == (if s.flusher.wait == Close then Closed else Idle) && s'.flushed == s.flusher.mark
    ensures s'.wg == if s.flusher.wait == Close then 0 else 1
  {
    EveryRunKeeps(cap, outputs, run, s);
    var first, t := ConsumerFinishes(s);
    hide Inv, ConsumerStep, Reaches;
    var u := FlusherStep(t, Wait).value;
    Runs.OneMore(Apply, s, first, t, Flusher(Wait));
    more, s' := first + [Flusher(Wait)], u;
    if s.flusher.wait == Flush {
      s' := FlusherStep(u, Add).value;
      Runs.OneMore(Apply, s, more, u, Flusher(Add));
      more := more + [Flusher(Add)];
    }
  }

  lemma FlushStarts(s: State, sig: Signal) returns (run: seq<Action>, s': State)
    requires Inv(s) && s.flusher == Idle
    ensures Runs.After(Apply, s, run) == Some(s') && forall a :: a in run ==> a.Flusher?
    ensures s'.flusher == Waiting(sig, |s.queued|)
  {
    var a1, a2 := Flusher(Start(sig)), Flusher(FlusherAction.Signal);
    var s1 := FlusherStep(s, Start(sig)).value;
    s' := FlusherStep(s1, FlusherAction.Signal).value;
    hide FlusherStep;
    Runs.One(Apply, s, a1);
    Runs.OneMore(Apply, s, [a1], s1, a2);
    run := [a1] + [a2];
  }

  /** A call of `Flush` or `Close` gets through: its signal is sent and served, and when it returns everything queued
    * before it has been given to every output.
    */
  lemma FlushIsServed(cap: nat, outputs: nat, run: seq<Action>, s: State, sig: Signal) returns (more: seq<Action>, s': State)
    requires Reaches(cap, outputs, run, s) && s.flusher == Idle
    ensures Runs.After(Apply, s, more) == Some(s') && forall a :: a in more ==> a.Consumer? || a.Flusher?
    ensures s'.flusher == (if sig == Close then Closed else Idle) && s'.flushed == |s.queued| <= |s'.queued|
    ensures forall k :: 0 <= k < |s'.written| ==> s'.queued[..s'.flushed] <= s'.written[k]
  {
    hide Inv, Apply, Initial;
    EveryRunKeeps(cap, outputs, run, s);
    var first, t := FlushStarts(s, sig);
    Runs.Append(Apply, Initial(cap, outputs), run, s, first);
    var rest;
    rest, s' := FlushReturns(cap, outputs, run + first, t);
    Runs.Append(Apply, s, first, t, rest);
    more := first + rest;
    Runs.Append(Apply, Initial(cap, outputs), run, s, more);
    EveryRunKeeps(cap, outputs, run + more, s');
    FlushedIsQueued(s');
    forall k | 0 <= k < |s'.written| ensures s'.queued[..s'.flushed] <= s'.written[k] {
      FlushMeansWritten(cap, outputs, run + more, s', k);
    }
  }

  lemma FlushedIsQueued(s: State)
    requires Inv(s)
    ensures s.flushed <= |s.queued|
  {
  }

  // ---------------------------------------------------------------- every message arrives

  /** A message in a producer's hands stays there until that producer queues it. */
  lemma MessageStays(s: State, a: Action, p: nat)
    requires p in s.producers && Apply(s, a).Some?
    ensures var s', msg := Apply(s, a).value, s.producers[p].msg;
            || (p in s'.producers && s'.producers[p].msg == msg && s'.producers[p].rec == s.producers[p].rec)
            || (a == Producer(Send(p)) && s'.queued == s.queued + [msg])
  {
    match a
    case Producer(q) =>
    case Consumer(c) =>
    case Flusher(f) =>
  }

  lemma {:induction false} FreshRec(store: map<Rec, Msg>) returns (rec: Rec)
    ensures rec !in store && forall r :: r in store ==> r < rec
    decreases |store|
  {
    rec := 0;
    if store != map[] {
      var r :| r in store;
      rec := FreshRec(store - {r});
      if rec <= r {
        rec := r + 1;
      }
      assert forall q :: q in store ==> q == r || q in store - {r};
    }
  }

  /** With room in the queue, a producer that is not at it can queue any message by its own steps. */
  lemma MessageIsQueued(s: State, p: nat, msg: Msg) returns (run: seq<Action>, s': State)
    requires p !in s.producers && |s.queue| < s.cap && s.flusher != Closed
    ensures Runs.After(Apply, s, run) == Some(s') && forall a :: a in run ==> a.Producer?
    ensures s'.queued == s.queued + [msg] && s'.producers == s.producers && s'.consumer == s.consumer && s'.flusher == s.flusher
  {
    var rec := FreshRec(s.store);
    var a1, a2, a3 := Producer(Get(p, rec, msg)), Producer(Fill(p)), Producer(Send(p));
    var s1 := ProducerStep(s, Get(p, rec, msg)).value;
    var s2 := ProducerStep(s1, Fill(p)).value;
    s' := ProducerStep(s2, Send(p)).value;
    hide ProducerStep;
    Runs.One(Apply, s, a1);
    Runs.OneMore(Apply, s, [a1], s1, a2);
    Runs.OneMore(Apply, s, [a1] + [a2], s2, a3);
    run := [a1] + [a2] + [a3];
  }

  /** What the consumer does next while there is something to write. */
  function WriteNext(s: State): (a: ConsumerAction) {
    if s.consumer.Selecting? then TakeMessage else NextOf(s)
  }

  function WritePhase(c: ConsumerPc, outputs: nat): (n: nat) {
    match c
    case Writing(_, _, k, _) => if k < outputs then 5 + outputs - k else 5
    case Draining(_) => 4
    case Serving(_) => 3
    case Receiving(_) => 2
    case _ => 0
  }

  lemma WriteAdvances(s: State)
    requires Inv(s) && s.consumer != Over && SignalOf(s.consumer) != Some(Close)
    requires s.consumer == Selecting ==> s.queue != []
    ensures ConsumerStep(s, WriteNext(s)).Some?
    ensures var s' := ConsumerStep(s, WriteNext(s)).value;
            && s'.consumer != Over && SignalOf(s'.consumer) != Some(Close) && s'.queued == s.queued
            && |s'.written| == |s.written| && WriteNext(s) != TakeSignal
            && (|s'.queue| < |s.queue|
                || (s'.queue == s.queue && WritePhase(s'.consumer, |s.written|) < WritePhase(s.consumer, |s.written|)))
  {
    hide Fields, Accounted, FlushOk;
  }

  /** Unless it has been told to close, the consumer by itself gives everything queued to every output. */
  lemma {:induction false} EverythingIsWritten(s: State) returns (run: seq<Action>, s': State)
    requires Inv(s) && s.consumer != Over && SignalOf(s.consumer) != Some(Close)
    ensures Runs.After(Apply, s, run) == Some(s') && forall a :: a in run ==> a.Consumer? && a.c != TakeSignal
    ensures s'.queued == s.queued && |s'.written| == |s.written| && forall k :: 0 <= k < |s'.written| ==> s'.written[k] == s.queued
    decreases |s.queue|, WritePhase(s.consumer, |s.written|)
  {
    if s.consumer == Selecting && s.queue == [] {
      NothingLeft(s);
      return [], s;
    }
    hide Inv, ConsumerStep;
    WriteAdvances(s);
    var a := Consumer(WriteNext(s));
    StepKeeps(s, a);
    var t := ConsumerStep(s, WriteNext(s)).value;
    var rest;
    rest, s' := EverythingIsWritten(t);
    Runs.StepThen(Apply, s, a, t, rest);
    run := [a] + rest;
  }

  lemma NothingLeft(s: State)
    requires OrderOk(s) && s.consumer == Selecting && s.queue == []
    ensures forall k :: 0 <= k < |s.written| ==> s.written[k] == s.queued
  {
    forall k | 0 <= k < |s.written| ensures s.written[k] == s.queued {
      assert s.written[k] + [] + [] == s.written[k] && Fields(s.store, s.queue) == [];
    }
  }
}
