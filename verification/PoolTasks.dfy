/**
 Tasks of the process pool: how Submit serialises a call, how the worker executes it, and what the
 future ends up with. Functions and arguments are bytes; a function is known by its pointer.
 */
module PoolTasks {
  import opened Bytes
  import opened Options
  import opened PoolFraming

  const FUNCTION_SIZE: nat := 8

  const RUN: nat := 1
  const STOP: nat := 2
  const VALUE: nat := 1
  const VOID: nat := 2
  const EXCEPTION: nat := 3

  const TASK_AT: nat := 24
  const RESULT_AT: nat := 16

  // ---------- Payloads ----------

  /** The byte buffer that Submit fills with AppendBytes: the function, then the arguments. */
  function Payload(parts: seq<seq<byte>>): seq<byte> {
    if parts == [] then [] else Payload(parts[..|parts| - 1]) + parts[|parts| - 1]
  }

  /** ReadValue: the object at `offset`, or the exception "invalid serialized payload". */
  function ReadValue(data: seq<byte>, size: nat, offset: nat): Option<seq<byte>> {
    if offset + size > |data| then None else Some(data[offset..offset + size])
  }

  /** The reads of ExecuteTyped one after another: the values and the final offset. */
  function ReadValues(data: seq<byte>, sizes: seq<nat>, offset: nat): Option<(seq<seq<byte>>, nat)>
    decreases |sizes|
  {
    if sizes == [] then Some(([], offset))
    else match ReadValue(data, sizes[0], offset)
      case None => None
      case Some(v) =>
        match ReadValues(data, sizes[1..], offset + sizes[0])
        case None => None
        case Some((vs, end)) => Some(([v] + vs, end))
  }

  predicate Fits(parts: seq<seq<byte>>, sizes: seq<nat>) {
    |parts| == |sizes| && forall i :: 0 <= i < |sizes| ==> |parts[i]| == sizes[i]
  }

  function PayloadFront(parts: seq<seq<byte>>): seq<byte> {
    if parts == [] then [] else parts[0] + PayloadFront(parts[1..])
  }

  lemma {:induction false} PayloadEitherWay(parts: seq<seq<byte>>)
    ensures PayloadFront(parts) == Payload(parts)
    decreases |parts|
  {
    if |parts| == 1 {
      assert parts[1..] == [] && parts[..0] == [];
      assert PayloadFront(parts) == parts[0] == Payload(parts);
    } else if |parts| > 1 {
      var n := |parts|;
      PayloadEitherWay(parts[1..]);
      PayloadEitherWay(parts[..n - 1]);
      PayloadEitherWay(parts[1..n - 1]);
      assert parts[1..][..n - 2] == parts[1..n - 1] && parts[..n - 1][1..] == parts[1..n - 1];
    }
  }

  lemma {:induction false} ReadsBack(data: seq<byte>, before: nat, parts: seq<seq<byte>>, sizes: seq<nat>)
    requires Fits(parts, sizes) && before <= |data| && data[before..] == PayloadFront(parts)
    ensures ReadValues(data, sizes, before) == Some((parts, |data|))
    decreases |parts|
  {
    if parts == [] {
      assert |data[before..]| == 0;
    } else {
      assert data[before..before + sizes[0]] == data[before..][..sizes[0]] == parts[0];
      assert data[before + sizes[0]..] == data[before..][sizes[0]..] == PayloadFront(parts[1..]);
      ReadsBack(data, before + sizes[0], parts[1..], sizes[1..]);
      assert [parts[0]] + parts[1..] == parts;
    }
  }

  /** AppendBytes then ReadValue rebuilds the function and every argument, with the offset equal to the size. */
  lemma PayloadRoundTrip(parts: seq<seq<byte>>, sizes: seq<nat>)
    requires Fits(parts, sizes)
    ensures ReadValues(Payload(parts), sizes, 0) == Some((parts, |Payload(parts)|))
  {
    PayloadEitherWay(parts);
    assert Payload(parts)[0..] == Payload(parts);
    ReadsBack(Payload(parts), 0, parts, sizes);
  }

  function Total(sizes: seq<nat>): nat {
    if sizes == [] then 0 else sizes[0] + Total(sizes[1..])
  }

  /** ReadValues succeeds exactly when the data is long enough, and then ends at the sum of the sizes. */
  lemma {:induction false} ReadValuesExactly(data: seq<byte>, sizes: seq<nat>, offset: nat)
    requires offset <= |data|
    ensures ReadValues(data, sizes, offset).Some? <==> offset + Total(sizes) <= |data|
    ensures ReadValues(data, sizes, offset).Some? ==> ReadValues(data, sizes, offset).value.1 == offset + Total(sizes)
    decreases |sizes|
  {
    if sizes != [] && offset + sizes[0] <= |data| {
      ReadValuesExactly(data, sizes[1..], offset + sizes[0]);
    }
  }

  // ---------- Execution ----------

  /** How a call ends: with the bytes of its result (none for void) or with an exception of some text. */
  datatype Outcome = Returned(bytes: seq<byte>) | Threw(text: seq<byte>)

  /** The two output parameters of an executor. */
  datatype Executed = Executed(result: seq<byte>, error: seq<byte>)

  type Callable = seq<seq<byte>> -> Outcome

  /** The bytes of an ASCII text. */
  function Ascii(text: string): (bytes: seq<byte>)
    ensures |bytes| == |text|
  {
    seq(|text|, i requires 0 <= i < |text| => text[i] as int % 256)
  }

  const INVALID_PAYLOAD: seq<byte> := Ascii("invalid serialized payload")
  const TAIL_BYTES: seq<byte> := Ascii("payload has unexpected tail bytes")

  /** ExecuteTyped: decodes function pointer and arguments of the given sizes and calls the function. */
  function ExecuteTyped(call: Callable, sizes: seq<nat>, data: seq<byte>): Executed {
    match ReadValues(data, [FUNCTION_SIZE] + sizes, 0)
    case None => Executed([], INVALID_PAYLOAD)
    case Some((parts, offset)) =>
      if offset != |data| then Executed([], TAIL_BYTES)
      else match call(parts)
        case Returned(bytes) => Executed(bytes, [])
        case Threw(text) => Executed([], text)
  }

  function OfOutcome(o: Outcome): Executed {
    match o
    case Returned(bytes) => Executed(bytes, [])
    case Threw(text) => Executed([], text)
  }

  /** The executor calls the very function with the very arguments that Submit serialised. */
  lemma ExecutesWhatWasSubmitted(call: Callable, fn: seq<byte>, args: seq<seq<byte>>, sizes: seq<nat>)
    requires |fn| == FUNCTION_SIZE && Fits(args, sizes)
    ensures ExecuteTyped(call, sizes, Payload([fn] + args)) == OfOutcome(call([fn] + args))
  {
    PayloadRoundTrip([fn] + args, [FUNCTION_SIZE] + sizes);
  }

  /** It refuses every payload that is not exactly as long as function pointer and arguments together. */
  lemma ExecutorRefusesOtherSizes(call: Callable, sizes: seq<nat>, data: seq<byte>)
    ensures |data| < FUNCTION_SIZE + Total(sizes) ==> ExecuteTyped(call, sizes, data).error == INVALID_PAYLOAD
    ensures |data| > FUNCTION_SIZE + Total(sizes) ==> ExecuteTyped(call, sizes, data).error == TAIL_BYTES
  {
    ReadValuesExactly(data, [FUNCTION_SIZE] + sizes, 0);
    assert ([FUNCTION_SIZE] + sizes)[1..] == sizes;
  }

  // ---------- Frames ----------

  function TaskFrame(command: nat, id: nat, executor: nat, payload: seq<byte>): Frame {
    Frame(Le(command, 4) + Zeros(4) + Le(id, 8) + Le(executor, 8) + Le(|payload|, 8), payload)
  }

  function StopFrame(): Frame {
    TaskFrame(STOP, 0, 0, [])
  }

  function CommandOf(f: Frame): nat requires |f.header| == 32 { FromLe(f.header[..4]) }
  function TaskIdOf(f: Frame): nat requires |f.header| == 32 { FromLe(f.header[8..16]) }
  function ExecutorOf(f: Frame): nat requires |f.header| == 32 { FromLe(f.header[16..24]) }

  function ResultFrame(id: nat, status: nat, payload: seq<byte>): Frame {
    Frame(Le(id, 8) + Le(status, 4) + Zeros(4) + Le(|payload|, 8), payload)
  }

  function ResultIdOf(f: Frame): nat requires |f.header| == 24 { FromLe(f.header[..8]) }
  function StatusOf(f: Frame): nat requires |f.header| == 24 { FromLe(f.header[8..12]) }

  lemma Powers()
    ensures Pow256(4) == 0x1_0000_0000 && Pow256(8) == WORD64
  {
    assert Pow256(4) == 0x1_0000_0000;
    assert Pow256(6) == 0x1_0000_0000_0000;
  }

  lemma TaskFrameRoundTrip(command: nat, id: nat, executor: nat, payload: seq<byte>)
    requires command < 0x1_0000_0000 && id < WORD64 && executor < WORD64 && |payload| < WORD64
    ensures var f := TaskFrame(command, id, executor, payload);
            && WellFramed(TASK_AT, f) && f.body == payload
            && CommandOf(f) == command && TaskIdOf(f) == id && ExecutorOf(f) == executor
  {
    hide Le, FromLe, Pow256;
    Powers();
    FromLeLe(command, 4);
    FromLeLe(id, 8);
    FromLeLe(executor, 8);
    FromLeLe(|payload|, 8);
    var h := TaskFrame(command, id, executor, payload).header;
    assert h[..4] == Le(command, 4) && h[8..16] == Le(id, 8);
    assert h[16..24] == Le(executor, 8) && h[24..] == Le(|payload|, 8);
  }

  lemma ResultFrameRoundTrip(id: nat, status: nat, payload: seq<byte>)
    requires id < WORD64 && status < 0x1_0000_0000 && |payload| < WORD64
    ensures var f := ResultFrame(id, status, payload);
            && WellFramed(RESULT_AT, f) && f.body == payload && ResultIdOf(f) == id && StatusOf(f) == status
  {
    hide Le, FromLe, Pow256;
    Powers();
    FromLeLe(id, 8);
    FromLeLe(status, 4);
    FromLeLe(|payload|, 8);
    var h := ResultFrame(id, status, payload).header;
    assert h[..8] == Le(id, 8) && h[8..12] == Le(status, 4) && h[16..] == Le(|payload|, 8);
  }

  /** What WorkerLoop answers when the executor left `e`. */
  function Answer(id: nat, e: Executed): Frame {
    if e.error != [] then ResultFrame(id, EXCEPTION, e.error)
    else if e.result == [] then ResultFrame(id, VOID, [])
    else ResultFrame(id, VALUE, e.result)
  }

  // ---------- Futures ----------

  /** `resultSize` is the size of the result type, None for void. */
  datatype Task = Task(executor: nat, payload: seq<byte>, resultSize: Option<nat>)

  datatype Future = Unready | Done | Value(bytes: seq<byte>) | Failed(text: seq<byte>)

  const BAD_SIZE: seq<byte> := Ascii("invalid payload size for result")
  const SHUTDOWN: seq<byte> := Ascii("process pool shutdown")

  /** PendingValue::SetValue or PendingVoid::SetValue. */
  function SetValue(resultSize: Option<nat>, payload: seq<byte>): Future {
    if resultSize.None? then Done
    else if |payload| != resultSize.value then Failed(BAD_SIZE)
    else Value(payload)
  }

  /** What ReaderLoop makes of a result frame. */
  function Complete(resultSize: Option<nat>, f: Frame): Future
    requires |f.header| == 24
  {
    if StatusOf(f) == EXCEPTION then Failed(f.body) else SetValue(resultSize, f.body)
  }

  /** What a future holds once its task was executed and answered. */
  function Delivery(resultSize: Option<nat>, e: Executed): Future {
    if e.error != [] then Failed(e.error) else SetValue(resultSize, e.result)
  }

  /** The reader completes a future with what the executor left, whatever the task id. */
  lemma AnswerDelivers(resultSize: Option<nat>, id: nat, e: Executed)
    requires id < WORD64 && |e.result| < WORD64 && |e.error| < WORD64
    ensures var f := Answer(id, e);
            && WellFramed(RESULT_AT, f) && ResultIdOf(f) == id
            && Complete(resultSize, f) == Delivery(resultSize, e)
  {
    hide Le, FromLe;
    ResultFrameRoundTrip(id, EXCEPTION, e.error);
    ResultFrameRoundTrip(id, VOID, []);
    ResultFrameRoundTrip(id, VALUE, e.result);
  }

  function Expected(resultSize: Option<nat>, o: Outcome): Future {
    match o
    case Returned(bytes) => if resultSize.None? then Done else Value(bytes)
    case Threw(text) => Failed(text)
  }

  /** A call returns as many bytes as its result type has, and none if that is void. */
  predicate WellTyped(resultSize: Option<nat>, o: Outcome) {
    && (resultSize.Some? ==> resultSize.value > 0)
    && (o.Returned? ==> |o.bytes| == if resultSize.None? then 0 else resultSize.value)
  }

  /**
   A future holds what the call produced, value or exception text, exactly unless the call threw an
   exception with an empty text: the worker takes an empty text for success.
   */
  lemma DeliveryIsExact(resultSize: Option<nat>, o: Outcome)
    requires WellTyped(resultSize, o)
    ensures Delivery(resultSize, OfOutcome(o)) == Expected(resultSize, o) <==> o != Threw([])
  {
    assert |BAD_SIZE| == |"invalid payload size for result"| > 0;
  }

  /** With an empty text a void call that threw looks as if it had succeeded. */
  lemma EmptyTextLooksLikeSuccess()
    ensures Delivery(None, OfOutcome(Threw([]))) == Done && Expected(None, Threw([])) == Failed([])
  {
  }
}
