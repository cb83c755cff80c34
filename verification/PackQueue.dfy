/** The write queue of a connection: `writeLoop` and the goroutine of `ReadPackInLoop`, over four channels,
  * in every interleaving with the producers and consumers at the other ends.
  */
module PackQueue {
  import opened Common
  import opened Mqtt
  import opened MqttRoundTrip
  import Runs

  /** A buffered channel; `closes` counts how often it has been closed. */
  datatype Chan<T> = Chan(buf: seq<T>, cap: nat, closes: nat)

  datatype Kind = NoDelay | Delay | Flush
  datatype Item = Item(pack: Pack, kind: Kind)
  type ReadResult = Result<Pack, ReadError>

  datatype WriterPc = Receiving | Writing(item: Item) | SendingError | SendingFin | WriterDone
  datatype ReaderPc = Reading | Offering(r: ReadResult) | Waiting | Closing(next: nat) | ReaderDone

  /** `queued`, `written` and `readOut` record everything ever put into the write channel, written without
    * error, and put into the read channel; `failed` counts the writes that failed and `told` the errors taken from
    * the error channel; `received` is what has been taken from the read channel. `panicked` is set by a send on, or a close of, a closed channel.
    */
  datatype State = State(
    writeChan: Chan<Item>, readChan: Chan<ReadResult>, errorChan: Chan<()>, noticeFin: Chan<()>,
    writer: WriterPc, reader: ReaderPc, readCount: nat, panicked: bool,
    queued: seq<Item>, written: seq<Item>, readOut: seq<ReadResult>,
    received: seq<ReadResult>, failed: nat, told: nat)

  datatype Action =
    | Enqueue(item: Item)          // WritePack, WriteDelayPack or Flush of some goroutine
    | WriterTakes
    | WriterWrites(ok: bool)
    | WriterSendsError
    | WriterSendsFin
    | ReaderReads                  // ReadPack on the connection
    | ReaderOffers                 // the select picks the read channel
    | ReaderStops                  // the select, or the receive after an error, picks noticeFin
    | ReaderCloses                 // the next of the four closes
    | ConsumerTakes                // Listen_loop takes from the read channel
    | ErrorTaken

  function Initial(writeCap: nat, readCap: nat): (s: State) {
    State(Chan([], writeCap, 0), Chan([], readCap, 0), Chan([], 1, 0), Chan([], 2, 0),
          Receiving, Reading, 0, false, [], [], [], [], 0, 0)
  }

  predicate HasRoom<T>(c: Chan<T>) {
    |c.buf| < c.cap
  }

  function Push<T>(c: Chan<T>, v: T): (c': Chan<T>) {
    c.(buf := c.buf + [v])
  }

  function Pop<T>(c: Chan<T>): (c': Chan<T>)
    requires c.buf != []
  {
    c.(buf := c.buf[1..])
  }

  function Close<T>(c: Chan<T>): (c': Chan<T>) {
    c.(closes := c.closes + 1)
  }

  /** The state after one action, or none while the goroutine that would take it is elsewhere or blocked.
    * `stream(i)` is what the `i`-th `ReadPack` on the connection returns. No producer sends on the write
    * channel once it is closed.
    */
  function Apply(stream: nat -> ReadResult, s: State, a: Action): (r: Option<State>) {
    match a
    case Enqueue(item) =>
      if s.writeChan.closes > 0 || !HasRoom(s.writeChan) then None
      else Some(s.(writeChan := Push(s.writeChan, item), queued := s.queued + [item]))
    case WriterTakes =>
      if s.writer != Receiving then None
      else if s.writeChan.buf != [] then
        Some(s.(writeChan := Pop(s.writeChan), writer := Writing(s.writeChan.buf[0])))
      else if s.writeChan.closes > 0 then Some(s.(writer := WriterDone))
      else None
    case WriterWrites(ok) =>
      if !s.writer.Writing? then None
      else if ok then Some(s.(writer := Receiving, written := s.written + [s.writer.item]))
      else Some(s.(writer := SendingError, failed := s.failed + 1))
    case WriterSendsError =>
      if s.writer != SendingError then None
      else if s.errorChan.closes > 0 then Some(s.(panicked := true))
      else if !HasRoom(s.errorChan) then None
      else Some(s.(errorChan := Push(s.errorChan, ()), writer := SendingFin))
    case WriterSendsFin =>
      if s.writer != SendingFin then None
      else if s.noticeFin.closes > 0 then Some(s.(panicked := true))
      else if !HasRoom(s.noticeFin) then None
      else Some(s.(noticeFin := Push(s.noticeFin, ()), writer := WriterDone))
    case ReaderReads =>
      if s.reader != Reading then None
      else Some(s.(reader := Offering(stream(s.readCount)), readCount := s.readCount + 1))
    case ReaderOffers =>
      if !s.reader.Offering? then None
      else if s.readChan.closes > 0 then Some(s.(panicked := true))
      else if !HasRoom(s.readChan) then None
      else Some(s.(readChan := Push(s.readChan, s.reader.r), readOut := s.readOut + [s.reader.r],
                   reader := if s.reader.r.Ok? then Reading else Waiting))
    case ReaderStops =>
      if !(s.reader.Offering? || s.reader.Waiting?) then None
      else if s.noticeFin.buf != [] then Some(s.(noticeFin := Pop(s.noticeFin), reader := Closing(0)))
      else if s.noticeFin.closes > 0 then Some(s.(reader := Closing(0)))
      else None
    case ReaderCloses =>
      if !s.reader.Closing? then None
      else
        var k := s.reader.next;
        var s' := s.(reader := if k >= 3 then ReaderDone else Closing(k + 1));
        if k == 0 then Some(s'.(writeChan := Close(s.writeChan), panicked := s.panicked || s.writeChan.closes > 0))
        else if k == 1 then Some(s'.(readChan := Close(s.readChan), panicked := s.panicked || s.readChan.closes > 0))
        else if k == 2 then Some(s'.(errorChan := Close(s.errorChan), panicked := s.panicked || s.errorChan.closes > 0))
        else Some(s'.(noticeFin := Close(s.noticeFin), panicked := s.panicked || s.noticeFin.closes > 0))
    case ConsumerTakes =>
      if s.readChan.buf == [] then None
      else Some(s.(readChan := Pop(s.readChan), received := s.received + [s.readChan.buf[0]]))
    case ErrorTaken =>
      if s.errorChan.buf == [] then None else Some(s.(errorChan := Pop(s.errorChan), told := s.told + 1))
  }

  ghost function Steps(stream: nat -> ReadResult): (step: (State, Action) -> Option<State>) {
    (s, a) => Apply(stream, s, a)
  }

  /** `s` is what some run from the start of a queue leads to. */
  ghost predicate Reaches(stream: nat -> ReadResult, writeCap: nat, readCap: nat, run: seq<Action>, s: State) {
    Runs.After(Steps(stream), Initial(writeCap, readCap), run) == Some(s)
  }

  // ---------------------------------------------------------------- what every run keeps

  /** How far the reader has got with its four closes. */
  function Closed(s: State): (n: nat) {
    if s.reader.Closing? then s.reader.next else if s.reader.ReaderDone? then 4 else 0
  }

  predicate Stopping(s: State) {
    s.reader.Closing? || s.reader.ReaderDone?
  }

  /** The one finish notice: sent by the writer last, taken by the reader before it closes anything. */
  ghost predicate Shutdown(s: State) {
    && !s.panicked && (s.reader.Closing? ==> s.reader.next <= 3)
    && s.writeChan.closes == (if Closed(s) > 0 then 1 else 0)
    && s.readChan.closes == (if Closed(s) > 1 then 1 else 0)
    && s.errorChan.closes == (if Closed(s) > 2 then 1 else 0)
    && s.noticeFin.closes == (if Closed(s) > 3 then 1 else 0)
    && s.errorChan.cap == 1 && s.noticeFin.cap == 2
    && (s.writer != WriterDone ==> !Stopping(s))
    && (s.writer == Receiving || s.writer.Writing? || s.writer == SendingError ==> s.errorChan.buf == [])
    && s.noticeFin.buf == (if s.writer == WriterDone && !Stopping(s) then [()] else [])
  }

  /** A write has failed: the writer is on its way out or gone. */
  predicate Failing(w: WriterPc) {
    w == SendingError || w == SendingFin || w == WriterDone
  }

  /** A failed write is the last, and its one error is about to be sent, in the channel, or taken. */
  ghost predicate ErrorOk(s: State) {
    && s.failed == (if Failing(s.writer) then 1 else 0)
    && s.failed == (if s.writer == SendingError then 1 else 0) + |s.errorChan.buf| + s.told
  }

  /** What has been read out has been received or is in the channel, and no channel holds more than it has room for. */
  ghost predicate ReceivedOk(s: State) {
    && s.readOut == s.received + s.readChan.buf
    && |s.readChan.buf| <= s.readChan.cap && |s.writeChan.buf| <= s.writeChan.cap
  }

  /** Everything queued is, in order, written, in the writer's hands, or still in the channel. */
  ghost predicate InOrder(s: State) {
    match s.writer
    case Receiving => s.queued == s.written + s.writeChan.buf
    case Writing(item) => s.queued == s.written + [item] + s.writeChan.buf
    case _ => s.written <= s.queued
  }

  /** Results are read out in stream order, and nothing after an error. */
  ghost predicate ReadInOrder(stream: nat -> ReadResult, readOut: seq<ReadResult>, readCount: nat, reader: ReaderPc) {
    && |readOut| <= readCount <= |readOut| + 1
    && (forall i :: 0 <= i < |readOut| ==> readOut[i] == stream(i))
    && (forall i :: 0 <= i < |readOut| - 1 ==> readOut[i].Ok?)
    && (readOut != [] && readOut[|readOut| - 1].Err? ==> !reader.Reading? && !reader.Offering?)
    && (reader == Reading ==> readCount == |readOut|)
    && (reader.Offering? ==> readCount == |readOut| + 1 && reader.r == stream(|readOut|))
  }

  ghost predicate Inv(stream: nat -> ReadResult, s: State) {
    Shutdown(s) && ErrorOk(s) && ReceivedOk(s) && InOrder(s) && ReadInOrder(stream, s.readOut, s.readCount, s.reader)
  }

  lemma ActionKeepsShutdown(stream: nat -> ReadResult, s: State, a: Action)
    requires Shutdown(s) && Apply(stream, s, a).Some?
    ensures Shutdown(Apply(stream, s, a).value)
  {
  }

  lemma ActionKeepsError(stream: nat -> ReadResult, s: State, a: Action)
    requires Shutdown(s) && ErrorOk(s) && Apply(stream, s, a).Some?
    ensures ErrorOk(Apply(stream, s, a).value)
  {
  }

  lemma MovedOn<T>(before: seq<T>, buf: seq<T>, v: T)
    ensures before + (buf + [v]) == before + buf + [v]
    ensures buf != [] ==> before + [buf[0]] + buf[1..] == before + buf
  {
  }

  lemma ActionKeepsReceived(stream: nat -> ReadResult, s: State, a: Action)
    requires ReceivedOk(s) && Apply(stream, s, a).Some?
    ensures ReceivedOk(Apply(stream, s, a).value)
  {
    if a.ReaderOffers? {
      MovedOn(s.received, s.readChan.buf, s.reader.r);
    } else if a.ConsumerTakes? {
      MovedOn(s.received, s.readChan.buf, s.readChan.buf[0]);
    }
  }

  lemma ActionKeepsOrder(stream: nat -> ReadResult, s: State, a: Action)
    requires Shutdown(s) && InOrder(s) && Apply(stream, s, a).Some?
    ensures InOrder(Apply(stream, s, a).value)
  {
    var s' := Apply(stream, s, a).value;
    match a
    case Enqueue(item) =>
      if s.writer == Receiving {
        assert s.written + (s.writeChan.buf + [item]) == s'.queued;
      } else if s.writer.Writing? {
        assert s.written + [s.writer.item] + (s.writeChan.buf + [item]) == s'.queued;
      } else {
        assert s'.queued[..|s.written|] == s.queued[..|s.written|];
      }
    case WriterTakes =>
      if s.writeChan.buf != [] {
        assert s.written + [s.writeChan.buf[0]] + s.writeChan.buf[1..] == s.queued;
      }
    case WriterWrites(ok) =>
      assert s.written + [s.writer.item] + s.writeChan.buf == s.written + ([s.writer.item] + s.writeChan.buf);
    case _ =>
  }

  lemma OfferKeepsReads(stream: nat -> ReadResult, readOut: seq<ReadResult>, readCount: nat, r: ReadResult, after: ReaderPc)
    requires ReadInOrder(stream, readOut, readCount, Offering(r)) && after == (if r.Ok? then Reading else Waiting)
    ensures ReadInOrder(stream, readOut + [r], readCount, after)
  {
    assert (readOut + [r])[..|readOut|] == readOut;
  }

  lemma ReadKeepsReads(stream: nat -> ReadResult, readOut: seq<ReadResult>, readCount: nat)
    requires ReadInOrder(stream, readOut, readCount, Reading)
    ensures ReadInOrder(stream, readOut, readCount + 1, Offering(stream(readCount)))
  {
  }

  lemma LeavingKeepsReads(stream: nat -> ReadResult, readOut: seq<ReadResult>, readCount: nat, reader: ReaderPc, after: ReaderPc)
    requires ReadInOrder(stream, readOut, readCount, reader) && (after.Closing? || after.ReaderDone?)
    ensures ReadInOrder(stream, readOut, readCount, after)
  {
  }

  lemma ActionKeepsReads(stream: nat -> ReadResult, s: State, a: Action)
    requires Shutdown(s) && ReadInOrder(stream, s.readOut, s.readCount, s.reader) && Apply(stream, s, a).Some?
    ensures var s' := Apply(stream, s, a).value; ReadInOrder(stream, s'.readOut, s'.readCount, s'.reader)
  {
    hide ReadInOrder;
    var s' := Apply(stream, s, a).value;
    if a.ReaderOffers? {
      OfferKeepsReads(stream, s.readOut, s.readCount, s.reader.r, s'.reader);
    } else if a.ReaderReads? {
      ReadKeepsReads(stream, s.readOut, s.readCount);
    } else if a.ReaderStops? || a.ReaderCloses? {
      LeavingKeepsReads(stream, s.readOut, s.readCount, s.reader, s'.reader);
    } else {
      assert s'.readOut == s.readOut && s'.readCount == s.readCount && s'.reader == s.reader;
    }
  }

  lemma ActionKeeps(stream: nat -> ReadResult, s: State, a: Action)
    requires Inv(stream, s) && Apply(stream, s, a).Some?
    ensures Inv(stream, Apply(stream, s, a).value)
  {
    hide Apply, Shutdown, ErrorOk, ReceivedOk, InOrder, ReadInOrder;
    ActionKeepsReceived(stream, s, a);
    ActionKeepsShutdown(stream, s, a);
    ActionKeepsError(stream, s, a);
    ActionKeepsOrder(stream, s, a);
    ActionKeepsReads(stream, s, a);
  }

  ghost function Good(stream: nat -> ReadResult): (inv: State -> bool) {
    s => Inv(stream, s)
  }

  lemma EveryRunKeeps(stream: nat -> ReadResult, writeCap: nat, readCap: nat, run: seq<Action>, s: State)
    requires Reaches(stream, writeCap, readCap, run, s)
    ensures Inv(stream, s)
  {
    InitialIsGood(stream, writeCap, readCap);
    hide Inv, Apply, Initial;
    assert Runs.Keeps(Steps(stream), Good(stream)) by {
      forall t, a | Good(stream)(t) && Steps(stream)(t, a).Some? ensures Good(stream)(Steps(stream)(t, a).value) {
        ActionKeeps(stream, t, a);
      }
    }
    Runs.RunKeeps(Steps(stream), Good(stream), Initial(writeCap, readCap), run);
  }

  lemma InitialIsGood(stream: nat -> ReadResult, writeCap: nat, readCap: nat)
    ensures Inv(stream, Initial(writeCap, readCap))
  {
  }

  /** In every interleaving: no send on a closed channel and no channel closed twice; the writer is never blocked
    * sending its error or its finish notice; it leaves only after a failed write whose one error it has sent; the packs written are a prefix of those queued; and what was
    * read out are the first results of the stream, with nothing after an error.
    */
  lemma QueueIsSafe(stream: nat -> ReadResult, writeCap: nat, readCap: nat, run: seq<Action>, s: State)
    requires Reaches(stream, writeCap, readCap, run, s)
    ensures !s.panicked
    ensures s.writeChan.closes <= 1 && s.readChan.closes <= 1 && s.errorChan.closes <= 1 && s.noticeFin.closes <= 1
    ensures s.writer == SendingError ==> Apply(stream, s, WriterSendsError).Some?
    ensures s.writer == SendingFin ==> Apply(stream, s, WriterSendsFin).Some?
    ensures s.reader.Closing? || s.reader.ReaderDone? ==> s.writer == WriterDone
    ensures s.failed <= 1 && (s.failed == 1 <==> Failing(s.writer))
    ensures s.writer == SendingFin || s.writer == WriterDone ==> s.failed == 1 == |s.errorChan.buf| + s.told
    ensures s.written <= s.queued && s.readOut == s.received + s.readChan.buf
    ensures |s.writeChan.buf| <= s.writeChan.cap && |s.readChan.buf| <= s.readChan.cap
    ensures |s.errorChan.buf| == 1 ==> Apply(stream, s, ErrorTaken).Some?
    ensures forall i :: 0 <= i < |s.readOut| ==> s.readOut[i] == stream(i)
    ensures forall i :: 0 <= i < |s.readOut| - 1 ==> s.readOut[i].Ok?
  {
    EveryRunKeeps(stream, writeCap, readCap, run, s);
  }

  // ---------------------------------------------------------------- the shutdown completes

  /** The next step of the shutdown: the writer's two notices, then the reader up to its last close. */
  function NextOf(s: State): (a: Action) {
    if s.writer == SendingError then WriterSendsError
    else if s.writer == SendingFin then WriterSendsFin
    else if s.reader == Reading then ReaderReads
    else if s.reader.Closing? then ReaderCloses
    else ReaderStops
  }

  function Distance(s: State): (n: int) {
    (if s.writer == SendingError then 2 else if s.writer == SendingFin then 1 else 0)
    + (match s.reader
       case Reading => 7
       case Offering(_) => 6
       case Waiting => 6
       case Closing(next) => 5 - next
       case ReaderDone => 0)
  }

  lemma ShutdownStep(stream: nat -> ReadResult, s: State)
    requires Inv(stream, s) && Failing(s.writer) && s.reader != ReaderDone
    ensures Apply(stream, s, NextOf(s)).Some?
    ensures var s' := Apply(stream, s, NextOf(s)).value; Failing(s'.writer) && 0 <= Distance(s') < Distance(s)
  {
    hide InOrder, ReadInOrder;
  }

  lemma {:induction false} StepsToTheEnd(stream: nat -> ReadResult, s: State) returns (run: seq<Action>, s': State)
    requires Inv(stream, s) && Failing(s.writer)
    ensures Runs.After(Steps(stream), s, run) == Some(s') && Inv(stream, s') && s'.reader == ReaderDone
    ensures forall a :: a in run ==>
              a in {WriterSendsError, WriterSendsFin, ReaderReads, ReaderStops, ReaderCloses}
    decreases Distance(s)
  {
    hide Inv, Apply;
    if s.reader == ReaderDone {
      return [], s;
    }
    ShutdownStep(stream, s);
    ActionKeeps(stream, s, NextOf(s));
    var t := Apply(stream, s, NextOf(s)).value;
    var rest;
    rest, s' := StepsToTheEnd(stream, t);
    Runs.StepThen(Steps(stream), s, NextOf(s), t, rest);
    run := [NextOf(s)] + rest;
  }

  /** Once a write has failed, the finish notice is there for the reader until it takes it, and from wherever the
    * two goroutines are, their own steps lead to the end: every channel closed, each once, and no panic.
    */
  lemma ShutdownCompletes(stream: nat -> ReadResult, writeCap: nat, readCap: nat, run: seq<Action>, s: State)
      returns (more: seq<Action>, s': State)
    requires Reaches(stream, writeCap, readCap, run, s) && Failing(s.writer)
    ensures s.writer == WriterDone && s.reader != ReaderDone && !s.reader.Closing? ==> s.noticeFin.buf == [()]
    ensures Runs.After(Steps(stream), s, more) == Some(s')
    ensures forall a :: a in more ==>
              a in {WriterSendsError, WriterSendsFin, ReaderReads, ReaderStops, ReaderCloses}
    ensures s'.reader == ReaderDone && s'.writer == WriterDone && !s'.panicked
    ensures s'.writeChan.closes == s'.readChan.closes == s'.errorChan.closes == s'.noticeFin.closes == 1
  {
    EveryRunKeeps(stream, writeCap, readCap, run, s);
    more, s' := StepsToTheEnd(stream, s);
  }

  // ---------------------------------------------------------------- nothing gets stuck

  /** What the writer does next as long as no write fails. */
  function WriterNext(w: WriterPc): (a: Action) {
    if w.Writing? then WriterWrites(true) else WriterTakes
  }

  lemma WriterStep(stream: nat -> ReadResult, s: State)
    requires Inv(stream, s) && !Failing(s.writer) && (s.writer == Receiving ==> s.writeChan.buf != [])
    ensures Apply(stream, s, WriterNext(s.writer)).Some?
    ensures var s' := Apply(stream, s, WriterNext(s.writer)).value;
            && !Failing(s'.writer) && s'.queued == s.queued && s'.writeChan.cap == s.writeChan.cap
            && s'.writeChan.closes == s.writeChan.closes
            && 2 * |s'.writeChan.buf| + (if s'.writer.Writing? then 1 else 0)
               < 2 * |s.writeChan.buf| + (if s.writer.Writing? then 1 else 0)
  {
    hide InOrder, ReadInOrder, ReceivedOk;
  }

  /** As long as no write fails, the writer by itself writes everything that has been queued, and then there is room
    * again for whoever waits to queue more.
    */
  lemma {:induction false} WriterCatchesUp(stream: nat -> ReadResult, s: State) returns (run: seq<Action>, s': State)
    requires Inv(stream, s) && !Failing(s.writer)
    ensures Runs.After(Steps(stream), s, run) == Some(s') && forall a :: a in run ==> a == WriterTakes || a == WriterWrites(true)
    ensures s'.queued == s.queued == s'.written && s'.writer == Receiving
    ensures s.writeChan.cap > 0 && s.writeChan.closes == 0 ==> forall item :: Apply(stream, s', Enqueue(item)).Some?
    decreases 2 * |s.writeChan.buf| + (if s.writer.Writing? then 1 else 0)
  {
    if s.writer == Receiving && s.writeChan.buf == [] {
      return [], s;
    }
    hide Inv, Apply;
    WriterStep(stream, s);
    ActionKeeps(stream, s, WriterNext(s.writer));
    var t := Apply(stream, s, WriterNext(s.writer)).value;
    var rest;
    rest, s' := WriterCatchesUp(stream, t);
    Runs.StepThen(Steps(stream), s, WriterNext(s.writer), t, rest);
    run := [WriterNext(s.writer)] + rest;
  }

  /** What the reader and the one who receives from it do next: the channel is emptied before the next offer. */
  function ReadNext(s: State): (a: Action) {
    if s.readChan.buf != [] then ConsumerTakes else if s.reader == Reading then ReaderReads else ReaderOffers
  }

  lemma ReadStep(stream: nat -> ReadResult, s: State)
    requires Inv(stream, s) && s.readChan.cap > 0 && (s.readChan.buf != [] || s.reader == Reading || s.reader.Offering?)
    ensures Apply(stream, s, ReadNext(s)).Some?
    ensures var s' := Apply(stream, s, ReadNext(s)).value;
            && s'.readChan.cap == s.readChan.cap
            && (s.readChan.buf != [] ==> s'.readOut == s.readOut && s'.reader == s.reader && |s'.readChan.buf| < |s.readChan.buf|)
            && (s.readChan.buf == [] && s.reader == Reading ==>
                  s'.readOut == s.readOut && s'.reader.Offering? && s'.readChan.buf == [])
            && (s.readChan.buf == [] && s.reader.Offering? ==> |s'.readOut| == |s.readOut| + 1)
  {
    hide InOrder;
  }

  /** Reader and receiver by themselves bring the next result of the stream to the receiver. */
  lemma {:induction false} NextResultArrives(stream: nat -> ReadResult, s: State, n: nat) returns (run: seq<Action>, s': State)
    requires Inv(stream, s) && s.readChan.cap > 0
    requires (|s.readOut| == n && (s.reader == Reading || s.reader.Offering?)) || |s.readOut| == n + 1
    ensures Runs.After(Steps(stream), s, run) == Some(s')
    ensures forall a :: a in run ==> a in {ConsumerTakes, ReaderReads, ReaderOffers}
    ensures |s'.received| == n + 1 && s'.received[n] == stream(n)
    decreases n + 1 - |s.readOut|, |s.readChan.buf|, if s.reader == Reading then 1 else 0
  {
    if |s.readOut| == n + 1 && s.readChan.buf == [] {
      return [], s;
    }
    ReadStep(stream, s);
    hide Inv, Apply;
    ActionKeeps(stream, s, ReadNext(s));
    var t := Apply(stream, s, ReadNext(s)).value;
    var rest;
    rest, s' := NextResultArrives(stream, t, n);
    Runs.StepThen(Steps(stream), s, ReadNext(s), t, rest);
    run := [ReadNext(s)] + rest;
  }

  // ---------------------------------------------------------------- what the other end sees

  /** The packs among the items, in order; a flush carries none. */
  function PacksOf(items: seq<Item>): (ps: seq<Pack>) {
    if items == [] then []
    else if items[|items| - 1].kind == Flush then PacksOf(items[..|items| - 1])
    else PacksOf(items[..|items| - 1]) + [items[|items| - 1].pack]
  }

  lemma {:induction false} PacksOfPrefix(items: seq<Item>, more: seq<Item>)
    requires items <= more
    ensures PacksOf(items) <= PacksOf(more)
  {
    if |items| < |more| {
      PacksOfPrefix(items, more[..|more| - 1]);
    } else {
      assert items == more;
    }
  }

  /** In every interleaving, a peer that reads the bytes of what has been written reads the packs that were
    * queued, in order, up to the last one written.
    */
  lemma PeerReadsWhatWasQueued(stream: nat -> ReadResult, writeCap: nat, readCap: nat, run: seq<Action>, s: State)
    requires Reaches(stream, writeCap, readCap, run, s)
    requires forall p :: p in PacksOf(s.queued) ==> Matches(p) && Readable(p)
    ensures forall p :: p in PacksOf(s.written) ==> Matches(p)
    ensures var read, queued := ReadStream(StreamBytes(PacksOf(s.written))), PacksOf(s.queued);
            |read| == |PacksOf(s.written)| <= |queued| && forall i :: 0 <= i < |read| ==> read[i] == AsRead(queued[i])
  {
    hide Matches, Readable, AsRead, PacksOf, ReadStream, StreamBytes, Apply;
    QueueIsSafe(stream, writeCap, readCap, run, s);
    hide Reaches;
    PacksOfPrefix(s.written, s.queued);
    var written, queued := PacksOf(s.written), PacksOf(s.queued);
    forall p | p in written ensures p in queued {
      var i :| 0 <= i < |written| && written[i] == p;
      assert queued[i] == p;
    }
    StreamRoundTrip(written);
  }
}
