/** `runFunc` of the RPC server: from a request to its one result, over every way the call can go. */
module RpcServer {
  import opened Common
  import opened Rpc

  type GoType = string

  /** A type a value can be passed as: itself, and which others are assignable to it. */
  datatype Param = Param(typ: GoType, takes: GoType -> bool)

  /** The last parameter of a variadic function: a slice, into which the arguments go one by one. */
  datatype Variadic = Variadic(slice: GoType, elem: Param)

  /** The registered value, which may be no function at all or a nil one. */
  datatype Callable = NotAFunction | Function(fixed: seq<Param>, rest: Option<Variadic>, isNil: bool)

  datatype FuncInfo = FuncInfo(fn: Callable, goroutine: bool)

  // What code outside the server does with one request.

  /** Decoding one argument: the type of its value, or none for nil. */
  datatype Decoding = Decoded(typ: Option<GoType>) | DecodeError(text: string) | DecodePanic(text: string)

  /** Encoding one result. */
  datatype Encoding = Encoded(typ: string, bytes: seq<byte>) | EncodeError(text: string) | EncodePanic(text: string)

  /** The dynamic type and text of the last result, which must be an error or a string. */
  datatype Fault = NoFault | Text(text: string) | Plain(text: string) | Coded(code: int, text: string)
                 | OtherType | FaultPanic(text: string)

  /** The function returns its encodable results and a fault, or returns nothing, or panics, or none of these in
    * time; then it may still panic after the deadline.
    */
  datatype Ran = Returned(out: seq<Encoding>, fault: Fault) | NoResults | Crashes | Late(crashes: bool)

  /** `decoding(k)` is how decoding the `k`-th argument ends; `expired` tells whether the deadline had passed by
    * the time the arguments were ready. The texts are those of the messages the server makes up.
    */
  datatype Script = Script(decoding: nat -> Decoding, expired: bool, ran: Ran, texts: Texts)

  datatype Texts = Texts(notFound: string, notAFunction: string, notAdapted: string, indexPanic: string,
                         expired: string, noOutput: string, badFault: string, stack: string -> string)

  function Wrap32(n: int): (r: int)
    ensures -0x8000_0000 <= r < 0x8000_0000
  {
    (n + 0x8000_0000) % 0x1_0000_0000 - 0x8000_0000
  }

  /** Which is the conversion to 32 bits: the same number modulo 2^32. */
  lemma CodesWrap(n: int)
    ensures (Wrap32(n) - n) % 0x1_0000_0000 == 0
    ensures -0x8000_0000 <= n < 0x8000_0000 ==> Wrap32(n) == n
  {
    var q := (n + 0x8000_0000) / 0x1_0000_0000;
    assert Wrap32(n) - n == 0x1_0000_0000 * (-q);
  }

  // ---------------------------------------------------------------- calling a function

  function NumIn(f: Callable): (n: nat)
    requires f.Function?
  {
    |f.fixed| + if f.rest.Some? then 1 else 0
  }

  predicate Fits(target: Param, typ: GoType) {
    typ == target.typ || target.takes(typ)
  }

  /** What a decoded argument is passed as: nil becomes the zero value of its parameter. */
  function PassedAs(f: Callable, k: nat, typ: Option<GoType>): (passed: GoType)
    requires f.Function? && k < NumIn(f)
  {
    if typ.Some? then typ.value else if k < |f.fixed| then f.fixed[k].typ else f.rest.value.slice
  }

  /** The values handed to the function: none at all when no argument has a type, an invalid one for each argument
    * without a type when others have one.
    */
  function Inputs(f: Callable, call: RpcInfo, s: Script): (ins: seq<Option<GoType>>)
    requires f.Function? && |call.args| == NumIn(f) && FirstBadArg(call.argsType, call.args, s, 0).None?
  {
    FirstBadArgIff(call.argsType, call.args, s, 0);
    if call.argsType == [] then []
    else
      seq(|call.args|, k requires 0 <= k < |call.args| =>
        if k < |call.argsType| then Some(PassedAs(f, k, s.decoding(k).typ)) else None)
  }

  /** Whether calling `f` by reflection panics, check by check. */
  predicate CallPanics(f: Callable, ins: seq<Option<GoType>>)
    requires f.Function?
  {
    || f.isNil
    || |ins| < |f.fixed| || (f.rest.None? && |ins| > |f.fixed|)
    || (exists k :: 0 <= k < |ins| && ins[k].None?)
    || (exists k :: 0 <= k < |f.fixed| && !Fits(f.fixed[k], ins[k].value))
    || (exists k :: |f.fixed| <= k < |ins| && !Fits(f.rest.value.elem, ins[k].value))
  }

  // ---------------------------------------------------------------- what a request is answered with

  /** How the body of a request ends: with a result, in a panic that is recovered from, or in one in the goroutine
    * that calls the function, which ends the process.
    */
  datatype Ending = Answered(r: ResultInfo) | Panicked(text: string) | ProcessEnds

  function Failure(cid: Cid, code: int, text: string): (r: ResultInfo)
    ensures r.cid == cid
  {
    ResultInfo(cid, Wrap32(code), text, [], [])
  }

  /** The first argument from `k` on that does not decode; an argument type without an argument panics. */
  function FirstBadArg(argsType: seq<string>, args: seq<seq<byte>>, s: Script, k: nat): (bad: Option<Decoding>)
    ensures bad.Some? ==> !bad.value.Decoded?
    decreases |argsType| - k
  {
    if k >= |argsType| then None
    else if k >= |args| then Some(DecodePanic(s.texts.indexPanic))
    else if !s.decoding(k).Decoded? then Some(s.decoding(k))
    else FirstBadArg(argsType, args, s, k + 1)
  }

  /** The first result from `i` on that cannot be encoded. */
  function FirstBadResult(out: seq<Encoding>, i: nat): (bad: Option<Encoding>)
    ensures bad.Some? ==> !bad.value.Encoded?
    ensures bad.None? <==> forall j :: i <= j < |out| ==> out[j].Encoded?
    decreases |out| - i
  {
    if i >= |out| then None
    else if !out[i].Encoded? then Some(out[i])
    else FirstBadResult(out, i + 1)
  }

  function Types(out: seq<Encoding>): (r: seq<string>) {
    seq(|out|, i requires 0 <= i < |out| => if out[i].Encoded? then out[i].typ else "")
  }

  function Bytes(out: seq<Encoding>): (r: seq<seq<byte>>) {
    seq(|out|, i requires 0 <= i < |out| => if out[i].Encoded? then out[i].bytes else [])
  }

  function ReturnedEnding(cid: Cid, out: seq<Encoding>, fault: Fault, s: Script): (e: Ending) {
    match FirstBadResult(out, 0)
    case Some(EncodePanic(text)) => Panicked(text)
    case Some(EncodeError(text)) => Answered(Failure(cid, SERVER_FORMAT_ERROR, text))
    case _ =>
      match fault
      case NoFault => Answered(ResultInfo(cid, 0, "", Types(out), Bytes(out)))
      case Text(text) => Answered(ResultInfo(cid, 0, text, Types(out), Bytes(out)))
      case Plain(text) => Answered(ResultInfo(cid, 0, text, Types(out), Bytes(out)))
      case Coded(code, text) => Answered(ResultInfo(cid, Wrap32(code), text, Types(out), Bytes(out)))
      case OtherType => Answered(Failure(cid, SERVER_FORMAT_ERROR, s.texts.badFault))
      case FaultPanic(text) => Panicked(text)
  }

  function BodyEnding(f: Callable, call: RpcInfo, s: Script): (e: Ending)
    requires f.Function? && |call.args| == NumIn(f)
  {
    match FirstBadArg(call.argsType, call.args, s, 0)
    case Some(DecodePanic(text)) => Panicked(text)
    case Some(DecodeError(text)) => Answered(Failure(call.cid, SERVER_FORMAT_ERROR, text))
    case None =>
      if s.expired then Answered(Failure(call.cid, SERVER_EXPIRED, s.texts.expired))
      else if CallPanics(f, Inputs(f, call, s)) then ProcessEnds
      else
        match s.ran
        case Crashes => ProcessEnds
        case Late(_) => Answered(Failure(call.cid, SERVER_EXPIRED, s.texts.expired))
        case NoResults => Answered(Failure(call.cid, 0, s.texts.noOutput))
        case Returned(out, fault) => ReturnedEnding(call.cid, out, fault, s)
  }

  /** The answer of a request whose body runs to its end. */
  function BodyAnswer(f: Callable, call: RpcInfo, s: Script): (r: ResultInfo)
    requires f.Function? && |call.args| == NumIn(f) && BodyEnding(f, call, s) != ProcessEnds
  {
    match BodyEnding(f, call, s)
    case Answered(r) => r
    case Panicked(text) => Failure(call.cid, 0, s.texts.stack(text))
  }

  /** A request is turned away before it takes a slot. */
  function Rejection(functions: map<string, FuncInfo>, call: RpcInfo, s: Script): (r: Option<ResultInfo>) {
    if call.fn !in functions then Some(Failure(call.cid, 0, s.texts.notFound))
    else if functions[call.fn].fn.NotAFunction? then Some(Failure(call.cid, 0, s.texts.notAFunction))
    else if |call.args| != NumIn(functions[call.fn].fn) then
      Some(Failure(call.cid, CLIENT_PARAM_NOT_ADAPTED, s.texts.notAdapted))
    else None
  }

  /** The call of the function, which runs in a goroutine without a recover, ends the process. */
  predicate EndsProcess(functions: map<string, FuncInfo>, call: RpcInfo, s: Script) {
    Rejection(functions, call, s).None? && BodyEnding(functions[call.fn].fn, call, s) == ProcessEnds
  }

  function Answer(functions: map<string, FuncInfo>, call: RpcInfo, s: Script): (r: ResultInfo)
    requires !EndsProcess(functions, call, s)
  {
    match Rejection(functions, call, s)
    case Some(r) => r
    case None => BodyAnswer(functions[call.fn].fn, call, s)
  }

  // ---------------------------------------------------------------- what an answer tells

  /** The arguments do not fit the signature: the function is nil, some but not all arguments have a type, none has
    * though there are parameters before the variadic one, or one cannot be assigned to its parameter.
    */
  predicate Misfits(f: Callable, call: RpcInfo, s: Script)
    requires f.Function? && |call.args| == NumIn(f)
    requires |call.argsType| <= |call.args| && forall k :: 0 <= k < |call.argsType| ==> s.decoding(k).Decoded?
  {
    || f.isNil
    || (call.argsType == [] && f.fixed != [])
    || 0 < |call.argsType| < |call.args|
    || exists k :: 0 <= k < |call.argsType| && !Takes(f, k, s.decoding(k).typ)
  }

  /** Whether parameter `k` takes a value; every fixed one takes nil. */
  predicate Takes(f: Callable, k: nat, typ: Option<GoType>)
    requires f.Function? && k < NumIn(f)
  {
    if k < |f.fixed| then typ.None? || Fits(f.fixed[k], typ.value)
    else Fits(f.rest.value.elem, if typ.None? then f.rest.value.slice else typ.value)
  }

  /** The request gets as far as the call of its function. */
  predicate IsCalled(functions: map<string, FuncInfo>, call: RpcInfo, s: Script) {
    && call.fn in functions && functions[call.fn].fn.Function? && |call.args| == NumIn(functions[call.fn].fn)
    && |call.argsType| <= |call.args| && (forall k :: 0 <= k < |call.argsType| ==> s.decoding(k).Decoded?)
    && !s.expired
  }

  /** The function is left running after its deadline, in the end to panic. */
  predicate Straggles(functions: map<string, FuncInfo>, call: RpcInfo, s: Script) {
    IsCalled(functions, call, s) && !Misfits(functions[call.fn].fn, call, s) && s.ran == Late(true)
  }

  /** Everything went well up to the function's own report. */
  predicate Completes(functions: map<string, FuncInfo>, call: RpcInfo, s: Script) {
    && IsCalled(functions, call, s) && !Misfits(functions[call.fn].fn, call, s) && s.ran.Returned?
    && (forall i :: 0 <= i < |s.ran.out| ==> s.ran.out[i].Encoded?)
    && !s.ran.fault.OtherType? && !s.ran.fault.FaultPanic?
  }

  function FaultText(f: Fault): (text: string) {
    match f
    case NoFault => ""
    case OtherType => ""
    case Text(t) => t
    case Plain(t) => t
    case Coded(_, t) => t
    case FaultPanic(t) => t
  }

  lemma {:induction false} FirstBadArgIff(argsType: seq<string>, args: seq<seq<byte>>, s: Script, k: nat)
    requires k <= |argsType|
    ensures FirstBadArg(argsType, args, s, k).None? <==>
            (|argsType| <= |args| || k == |argsType|) && forall j :: k <= j < |argsType| ==> s.decoding(j).Decoded?
    decreases |argsType| - k
  {
    if k < |argsType| && k < |args| && s.decoding(k).Decoded? {
      FirstBadArgIff(argsType, args, s, k + 1);
    }
  }

  /** Every answer carries the id of its request. A request that completes is answered with all its results, in
    * order, and the function's own fault; any other with no results at all.
    */
  lemma AnswerMeans(functions: map<string, FuncInfo>, call: RpcInfo, s: Script)
    requires !EndsProcess(functions, call, s)
    ensures var r := Answer(functions, call, s);
            && r.cid == call.cid && |r.resultsType| == |r.results|
            && (Completes(functions, call, s) ==>
                  && r.error == FaultText(s.ran.fault)
                  && r.errCode == (if s.ran.fault.Coded? then Wrap32(s.ran.fault.code) else 0)
                  && |r.results| == |s.ran.out|
                  && (forall i :: 0 <= i < |r.results| ==> s.ran.out[i] == Encoded(r.resultsType[i], r.results[i])))
            && (!Completes(functions, call, s) ==> r.results == [])
  {
    FirstBadArgIff(call.argsType, call.args, s, 0);
    if IsCalled(functions, call, s) {
      PanicsIff(functions[call.fn].fn, call, s);
    }
  }

  lemma PanicsIff(f: Callable, call: RpcInfo, s: Script)
    requires f.Function? && |call.args| == NumIn(f) && |call.argsType| <= |call.args|
    requires forall k :: 0 <= k < |call.argsType| ==> s.decoding(k).Decoded?
    ensures FirstBadArg(call.argsType, call.args, s, 0).None?
    ensures CallPanics(f, Inputs(f, call, s)) <==> Misfits(f, call, s)
  {
    FirstBadArgIff(call.argsType, call.args, s, 0);
    var ins := Inputs(f, call, s);
    if call.argsType != [] {
      assert forall k :: 0 <= k < |call.args| ==> (ins[k].None? <==> k >= |call.argsType|);
      if |call.argsType| < |call.args| {
        assert ins[|call.argsType|].None?;
      } else {
        forall k | 0 <= k < |call.args|
          ensures Takes(f, k, s.decoding(k).typ) <==>
                  Fits(if k < |f.fixed| then f.fixed[k] else f.rest.value.elem, ins[k].value)
        {
        }
      }
    }
  }

  /** A request is left without an answer, and the process ends, exactly when it gets as far as the call of its
    * function and its arguments do not fit the signature or the function itself panics.
    */
  lemma UnansweredIff(functions: map<string, FuncInfo>, call: RpcInfo, s: Script)
    ensures EndsProcess(functions, call, s) <==>
              IsCalled(functions, call, s) && (Misfits(functions[call.fn].fn, call, s) || s.ran.Crashes?)
  {
    FirstBadArgIff(call.argsType, call.args, s, 0);
    if IsCalled(functions, call, s) {
      PanicsIff(functions[call.fn].fn, call, s);
    }
  }

  /** Two requests that end the process: a string for an integer, and a missing type. A function of nothing but a
    * variadic parameter can be called without types.
    */
  lemma WrongArguments(cid: Cid, s: Script)
    requires !s.expired && !s.ran.Crashes? && s.decoding(0) == Decoded(Some("string"))
    ensures var number := Param("int", typ => false);
            var one := map["fn" := FuncInfo(Function([number], None, false), false)];
            var rest := map["fn" := FuncInfo(Function([], Some(Variadic("[]int", number)), false), false)];
            && EndsProcess(one, RpcInfo("fn", true, 0, cid, ["string"], [[]]), s)
            && EndsProcess(one, RpcInfo("fn", true, 0, cid, [], [[]]), s)
            && IsCalled(rest, RpcInfo("fn", true, 0, cid, [], [[]]), s)
            && !EndsProcess(rest, RpcInfo("fn", true, 0, cid, [], [[]]), s)
  {
    var number := Param("int", typ => false);
    var one := map["fn" := FuncInfo(Function([number], None, false), false)];
    var rest := map["fn" := FuncInfo(Function([], Some(Variadic("[]int", number)), false), false)];
    var typed, untyped := RpcInfo("fn", true, 0, cid, ["string"], [[]]), RpcInfo("fn", true, 0, cid, [], [[]]);
    UnansweredIff(one, typed, s);
    UnansweredIff(one, untyped, s);
    UnansweredIff(rest, untyped, s);
    assert !Takes(one["fn"].fn, 0, s.decoding(0).typ);
  }

  // ---------------------------------------------------------------- how a request fails

  /** The function is there and takes as many arguments as the request carries. */
  predicate IsAdmitted(functions: map<string, FuncInfo>, call: RpcInfo) {
    call.fn in functions && functions[call.fn].fn.Function? && |call.args| == NumIn(functions[call.fn].fn)
  }

  /** Argument `k` is the first that does not decode, or that is not there for its type. */
  predicate BadArgAt(call: RpcInfo, s: Script, k: nat) {
    && k < |call.argsType| && k <= |call.args| && (forall j :: 0 <= j < k ==> s.decoding(j).Decoded?)
    && (k == |call.args| || !s.decoding(k).Decoded?)
  }

  predicate BadResultAt(out: seq<Encoding>, i: nat) {
    i < |out| && !out[i].Encoded? && forall j :: 0 <= j < i ==> out[j].Encoded?
  }

  function Fails(call: RpcInfo, code: int, text: string): (r: ResultInfo) {
    ResultInfo(call.cid, code, text, [], [])
  }

  lemma {:induction false} FirstBadArgAt(argsType: seq<string>, args: seq<seq<byte>>, s: Script, from: nat, k: nat)
    requires from <= k < |argsType| && k <= |args| && forall j :: from <= j < k ==> s.decoding(j).Decoded?
    requires k == |args| || !s.decoding(k).Decoded?
    ensures FirstBadArg(argsType, args, s, from) == Some(if k == |args| then DecodePanic(s.texts.indexPanic) else s.decoding(k))
    decreases k - from
  {
    if from < k {
      FirstBadArgAt(argsType, args, s, from + 1, k);
    }
  }

  lemma {:induction false} FirstBadResultAt(out: seq<Encoding>, from: nat, i: nat)
    requires from <= i && BadResultAt(out, i)
    ensures FirstBadResult(out, from) == Some(out[i])
    decreases i - from
  {
    if from < i {
      FirstBadResultAt(out, from + 1, i);
    }
  }

  /** What a request is told that never reaches its function. */
  lemma TurnedAway(functions: map<string, FuncInfo>, call: RpcInfo, s: Script)
    requires !IsAdmitted(functions, call)
    ensures !EndsProcess(functions, call, s)
    ensures Answer(functions, call, s) ==
            if call.fn !in functions then Fails(call, 0, s.texts.notFound)
            else if functions[call.fn].fn.NotAFunction? then Fails(call, 0, s.texts.notAFunction)
            else Fails(call, -1, s.texts.notAdapted)
  {
  }

  lemma BadArgument(functions: map<string, FuncInfo>, call: RpcInfo, s: Script, k: nat)
    requires IsAdmitted(functions, call) && BadArgAt(call, s, k)
    ensures !EndsProcess(functions, call, s)
    ensures var r := Answer(functions, call, s);
            if k == |call.args| then r == Fails(call, 0, s.texts.stack(s.texts.indexPanic))
            else if s.decoding(k).DecodeError? then r == Fails(call, 2, s.decoding(k).text)
            else s.decoding(k).DecodePanic? && r == Fails(call, 0, s.texts.stack(s.decoding(k).text))
  {
    FirstBadArgAt(call.argsType, call.args, s, 0, k);
  }

  lemma AllDecode(functions: map<string, FuncInfo>, call: RpcInfo, s: Script)
    requires IsAdmitted(functions, call) && |call.argsType| <= |call.args|
    requires forall k :: 0 <= k < |call.argsType| ==> s.decoding(k).Decoded?
    ensures FirstBadArg(call.argsType, call.args, s, 0).None?
  {
    FirstBadArgIff(call.argsType, call.args, s, 0);
  }

  lemma TooLate(functions: map<string, FuncInfo>, call: RpcInfo, s: Script)
    requires IsAdmitted(functions, call) && |call.argsType| <= |call.args| && s.expired
    requires forall k :: 0 <= k < |call.argsType| ==> s.decoding(k).Decoded?
    ensures !EndsProcess(functions, call, s) && Answer(functions, call, s) == Fails(call, 102, s.texts.expired)
  {
    AllDecode(functions, call, s);
  }

  /** What the call of the function comes to when it does not complete. */
  lemma CallFails(functions: map<string, FuncInfo>, call: RpcInfo, s: Script)
    requires IsCalled(functions, call, s) && !Misfits(functions[call.fn].fn, call, s)
    ensures s.ran.Late? ==> !EndsProcess(functions, call, s) && Answer(functions, call, s) == Fails(call, 102, s.texts.expired)
    ensures s.ran.NoResults? ==> !EndsProcess(functions, call, s) && Answer(functions, call, s) == Fails(call, 0, s.texts.noOutput)
    ensures s.ran.Returned? ==>
              && !EndsProcess(functions, call, s)
              && (forall i: nat :: BadResultAt(s.ran.out, i) ==>
                    var r := Answer(functions, call, s);
                    if s.ran.out[i].EncodeError? then r == Fails(call, 2, s.ran.out[i].text)
                    else s.ran.out[i].EncodePanic? && r == Fails(call, 0, s.texts.stack(s.ran.out[i].text)))
              && ((forall i :: 0 <= i < |s.ran.out| ==> s.ran.out[i].Encoded?) ==>
                    && (s.ran.fault.OtherType? ==> Answer(functions, call, s) == Fails(call, 2, s.texts.badFault))
                    && (s.ran.fault.FaultPanic? ==>
                          Answer(functions, call, s) == Fails(call, 0, s.texts.stack(s.ran.fault.text))))
  {
    AllDecode(functions, call, s);
    PanicsIff(functions[call.fn].fn, call, s);
    if s.ran.Returned? {
      forall i: nat | BadResultAt(s.ran.out, i) ensures FirstBadResult(s.ran.out, 0) == Some(s.ran.out[i]) {
        FirstBadResultAt(s.ran.out, 0, i);
      }
    }
  }

  lemma {:induction false} SomeBadResult(out: seq<Encoding>) returns (i: nat)
    requires exists j :: 0 <= j < |out| && !out[j].Encoded?
    ensures BadResultAt(out, i)
  {
    i := 0;
    while out[i].Encoded?
      invariant i < |out| && forall j :: 0 <= j < i ==> out[j].Encoded?
      decreases |out| - i
    {
      i := i + 1;
    }
  }

  lemma {:induction false} SomeBadArg(call: RpcInfo, s: Script) returns (k: nat)
    requires |call.argsType| > |call.args| || exists j :: 0 <= j < |call.argsType| && !s.decoding(j).Decoded?
    ensures BadArgAt(call, s, k)
  {
    k := 0;
    while k < |call.args| && s.decoding(k).Decoded?
      invariant k <= |call.args| && k < |call.argsType|
      invariant forall j :: 0 <= j < k ==> s.decoding(j).Decoded?
      decreases |call.args| - k
    {
      k := k + 1;
    }
  }

  /** The messages the server makes up, and those of the decoder and the encoder, say something. */
  ghost predicate HasTexts(s: Script) {
    && s.texts.notFound != "" && s.texts.notAFunction != "" && s.texts.notAdapted != "" && s.texts.expired != ""
    && s.texts.noOutput != "" && s.texts.badFault != "" && (forall x :: s.texts.stack(x) != "")
    && (forall k :: s.decoding(k).DecodeError? ==> s.decoding(k).text != "")
    && (s.ran.Returned? ==> forall i :: 0 <= i < |s.ran.out| && s.ran.out[i].EncodeError? ==> s.ran.out[i].text != "")
  }

  /** A request fails for one of these causes: it is not admitted, an argument does not decode, it comes too late, or
    * the call of the function does not complete.
    */
  lemma FailureHasText(functions: map<string, FuncInfo>, call: RpcInfo, s: Script)
    requires !EndsProcess(functions, call, s) && !Completes(functions, call, s) && HasTexts(s)
    ensures Answer(functions, call, s).error != ""
  {
    hide Answer, EndsProcess, Misfits;
    if !IsAdmitted(functions, call) {
      TurnedAway(functions, call, s);
    } else if |call.argsType| > |call.args| || exists j :: 0 <= j < |call.argsType| && !s.decoding(j).Decoded? {
      var k := SomeBadArg(call, s);
      BadArgument(functions, call, s, k);
    } else if s.expired {
      TooLate(functions, call, s);
    } else {
      UnansweredIff(functions, call, s);
      CallFails(functions, call, s);
      if s.ran.Returned? && exists j :: 0 <= j < |s.ran.out| && !s.ran.out[j].Encoded? {
        var i := SomeBadResult(s.ran.out);
        assert s.ran.out[i].EncodeError? || s.ran.out[i].EncodePanic?;
      }
    }
  }

  /** The codes a request can fail with, each with its cause. */
  lemma FailureCodes(functions: map<string, FuncInfo>, call: RpcInfo, s: Script)
    requires !EndsProcess(functions, call, s) && !Completes(functions, call, s)
    ensures var code := Answer(functions, call, s).errCode;
            && (code == -1 || code == 2 || code == 102 || code == 0)
            && (code == -1 <==>
                  call.fn in functions && functions[call.fn].fn.Function? && NumIn(functions[call.fn].fn) != |call.args|)
            && (code == 102 <==>
                  && IsAdmitted(functions, call) && |call.argsType| <= |call.args|
                  && (forall k :: 0 <= k < |call.argsType| ==> s.decoding(k).Decoded?)
                  && (s.expired || s.ran.Late?))
            && (code == 2 <==>
                  || (IsAdmitted(functions, call) && exists k: nat :: BadArgAt(call, s, k) && k < |call.args| && s.decoding(k).DecodeError?)
                  || (IsCalled(functions, call, s) && s.ran.Returned? && BadReturn(s.ran.out, s.ran.fault)))
  {
    hide Answer, EndsProcess, Misfits;
    if !IsAdmitted(functions, call) {
      TurnedAway(functions, call, s);
    } else if |call.argsType| > |call.args| || exists j :: 0 <= j < |call.argsType| && !s.decoding(j).Decoded? {
      var k := SomeBadArg(call, s);
      BadArgument(functions, call, s, k);
      forall l: nat | BadArgAt(call, s, l) ensures l == k {
      }
    } else if s.expired {
      TooLate(functions, call, s);
    } else {
      UnansweredIff(functions, call, s);
      CallFails(functions, call, s);
      if s.ran.Returned? && exists j :: 0 <= j < |s.ran.out| && !s.ran.out[j].Encoded? {
        var i := SomeBadResult(s.ran.out);
        forall j: nat | BadResultAt(s.ran.out, j) ensures j == i {
        }
      }
    }
  }

  /** A result is refused by the encoder, or all are encoded and the fault is of another type. */
  predicate BadReturn(out: seq<Encoding>, fault: Fault) {
    || (exists i :: 0 <= i < |out| && BadResultAt(out, i) && out[i].EncodeError?)
    || ((forall i :: 0 <= i < |out| ==> out[i].Encoded?) && fault.OtherType?)
  }

  // ---------------------------------------------------------------- the server

  /** `slots` is the filling of the control channel, `wg` the wait group, and `callbacks` everything ever sent on
    * the callback channel.
    */
  class RPCServer {
    var functions: map<string, FuncInfo>
    const maxCoroutine: nat
    var slots: nat
    var wg: int
    var callbacks: seq<ResultInfo>

    constructor (configured: int)
      ensures maxCoroutine >= 100 && maxCoroutine >= configured && (maxCoroutine == 100 || maxCoroutine == configured)
      ensures functions == map[] && slots == 0 && wg == 0 && callbacks == []
    {
      maxCoroutine := if configured < 100 then 100 else configured;
      functions, slots, wg, callbacks := map[], 0, 0, [];
    }

    /** A taken id is refused: the program panics there. */
    method Register(id: string, fn: FuncInfo) returns (ok: bool)
      modifies this`functions
      ensures ok == (id !in old(functions))
      ensures functions == if ok then old(functions)[id := fn] else old(functions)
    {
      ok := id !in functions;
      if ok {
        functions := functions[id := fn];
      }
    }

    /** Returns only once there is room. */
    method Wait()
      requires slots < maxCoroutine
      modifies this`slots
      ensures slots == old(slots) + 1
    {
      slots := slots + 1;
    }

    method Finish()
      requires slots > 0
      modifies this`slots
      ensures slots == old(slots) - 1
    {
      slots := slots - 1;
    }

    method ErrorCallback(cid: Cid, code: int, text: string)
      modifies this`callbacks
      ensures callbacks == old(callbacks) + [Failure(cid, code, text)]
    {
      callbacks := callbacks + [ResultInfo(cid, Wrap32(code), text, [], [])];
    }

    /** Decodes the arguments one by one into the values to call the function with. */
    method DecodeArgs(f: Callable, call: RpcInfo, s: Script) returns (bad: Option<Decoding>, ins: seq<Option<GoType>>)
      requires f.Function? && |call.args| == NumIn(f)
      ensures bad == FirstBadArg(call.argsType, call.args, s, 0)
      ensures bad.None? ==> ins == Inputs(f, call, s)
    {
      ins := [];
      if |call.argsType| > 0 {
        ins := seq(|call.args|, k => None);
        var k := 0;
        while k < |call.argsType|
          invariant 0 <= k <= |call.argsType| && |ins| == |call.args| && (k == 0 || k <= |call.args|)
          invariant FirstBadArg(call.argsType, call.args, s, 0) == FirstBadArg(call.argsType, call.args, s, k)
          invariant forall j :: 0 <= j < |ins| ==>
                      ins[j] == if j < k && s.decoding(j).Decoded? then Some(PassedAs(f, j, s.decoding(j).typ)) else None
          invariant forall j :: 0 <= j < k ==> s.decoding(j).Decoded?
        {
          if k >= |call.args| {
            return Some(DecodePanic(s.texts.indexPanic)), ins;
          }
          if !s.decoding(k).Decoded? {
            return Some(s.decoding(k)), ins;
          }
          ins := ins[k := Some(PassedAs(f, k, s.decoding(k).typ))];
          k := k + 1;
        }
      }
      bad := None;
    }

    /** Encodes the results one by one, all but the fault. */
    method EncodeResults(out: seq<Encoding>) returns (bad: Option<Encoding>, types: seq<string>, bytes: seq<seq<byte>>)
      ensures bad == FirstBadResult(out, 0)
      ensures bad.None? ==> types == Types(out) && bytes == Bytes(out)
    {
      types, bytes := [], [];
      var i := 0;
      while i < |out|
        invariant 0 <= i <= |out|
        invariant FirstBadResult(out, 0) == FirstBadResult(out, i)
        invariant types == Types(out)[..i] && bytes == Bytes(out)[..i]
      {
        if !out[i].Encoded? {
          return Some(out[i]), types, bytes;
        }
        types, bytes := types + [out[i].typ], bytes + [out[i].bytes];
        i := i + 1;
      }
      bad := None;
    }

    /** What `_runFunc` does once the function has returned. A panic is handed to the deferred recover. */
    method Report(cid: Cid, out: seq<Encoding>, fault: Fault, s: Script) returns (panic: Option<string>)
      modifies this`callbacks
      ensures match ReturnedEnding(cid, out, fault, s)
              case Answered(r) => panic == None && callbacks == old(callbacks) + [r]
              case Panicked(text) => panic == Some(text) && callbacks == old(callbacks)
    {
      var bad, types, bytes := EncodeResults(out);
      if bad.Some? {
        if bad.value.EncodePanic? {
          return Some(bad.value.text);
        }
        ErrorCallback(cid, SERVER_FORMAT_ERROR, bad.value.text);
        return None;
      }
      var errStr, errCode := "", 0;
      match fault {
        case NoFault =>
        case Text(text) => errStr := text;
        case Plain(text) => errStr := text;
        case Coded(code, text) => errCode, errStr := Wrap32(code), text;
        case OtherType =>
          ErrorCallback(cid, SERVER_FORMAT_ERROR, s.texts.badFault);
          return None;
        case FaultPanic(text) =>
          return Some(text);
      }
      callbacks := callbacks + [ResultInfo(cid, errCode, errStr, types, bytes)];
      panic := None;
    }

    /** The part of `_runFunc` under the deferred recover; `dies` tells that the process has ended in it. */
    method Perform(f: Callable, call: RpcInfo, s: Script) returns (panic: Option<string>, dies: bool)
      requires f.Function? && |call.args| == NumIn(f)
      modifies this`callbacks
      ensures dies == (BodyEnding(f, call, s) == ProcessEnds)
      ensures match BodyEnding(f, call, s)
              case Answered(r) => panic == None && callbacks == old(callbacks) + [r]
              case Panicked(text) => panic == Some(text) && callbacks == old(callbacks)
              case ProcessEnds => dies && callbacks == old(callbacks)
    {
      dies := false;
      var bad, ins := DecodeArgs(f, call, s);
      if bad.Some? {
        if bad.value.DecodePanic? {
          return Some(bad.value.text), false;
        }
        ErrorCallback(call.cid, SERVER_FORMAT_ERROR, bad.value.text);
        return None, false;
      }
      if s.expired {
        ErrorCallback(call.cid, SERVER_EXPIRED, s.texts.expired);
        return None, false;
      }
      if CallPanics(f, ins) || s.ran.Crashes? {
        return None, true;
      }
      if s.ran.Late? {
        ErrorCallback(call.cid, SERVER_EXPIRED, s.texts.expired);
        return None, false;
      }
      if s.ran.NoResults? {
        ErrorCallback(call.cid, 0, s.texts.noOutput);
        return None, false;
      }
      panic := Report(call.cid, s.ran.out, s.ran.fault, s);
    }

    /** `_runFunc`, with its slot taken: one callback on every path, the slot given back, the wait group even,
      * unless the process ends.
      */
    method RunBody(f: Callable, call: RpcInfo, s: Script) returns (dies: bool)
      requires slots > 0 && f.Function? && |call.args| == NumIn(f)
      modifies this`callbacks, this`slots, this`wg
      ensures dies == (BodyEnding(f, call, s) == ProcessEnds)
      ensures !dies ==>
                && callbacks == old(callbacks) + [BodyAnswer(f, call, s)]
                && slots == old(slots) - 1 && wg == old(wg)
      ensures dies ==> callbacks == old(callbacks)
    {
      wg := wg + 1;
      var panic;
      panic, dies := Perform(f, call, s);
      if dies {
        return;
      }
      if panic.Some? {
        ErrorCallback(call.cid, 0, s.texts.stack(panic.value));
      }
      wg := wg - 1;
      Finish();
    }

    /** `runFunc`: exactly one callback, the answer of the request, and every slot taken is given back. A function
      * registered to run in its own goroutine leaves its body, with the slot it holds, to that goroutine.
      */
    method RunFunc(call: RpcInfo, s: Script) returns (left: bool, dies: bool)
      requires Rejection(functions, call, s).None? ==> slots < maxCoroutine
      modifies this`callbacks, this`slots, this`wg
      ensures left == (Rejection(functions, call, s).None? && functions[call.fn].goroutine)
      ensures dies == (!left && EndsProcess(functions, call, s))
      ensures left ==> callbacks == old(callbacks) && slots == old(slots) + 1 && wg == old(wg)
      ensures left && !EndsProcess(functions, call, s) ==>
                BodyAnswer(functions[call.fn].fn, call, s) == Answer(functions, call, s)
      ensures !left && !dies ==>
                && callbacks == old(callbacks) + [Answer(functions, call, s)]
                && slots == old(slots) && wg == old(wg)
      ensures dies ==> callbacks == old(callbacks)
    {
      left, dies := false, false;
      if call.fn !in functions {
        ErrorCallback(call.cid, 0, s.texts.notFound);
        return;
      }
      var f := functions[call.fn];
      if f.fn.NotAFunction? {
        ErrorCallback(call.cid, 0, s.texts.notAFunction);
        return;
      }
      if |call.args| != NumIn(f.fn) {
        ErrorCallback(call.cid, CLIENT_PARAM_NOT_ADAPTED, s.texts.notAdapted);
        return;
      }
      Wait();
      if f.goroutine {
        left := true;
      } else {
        dies := RunBody(f.fn, call, s);
      }
    }
  }
}
