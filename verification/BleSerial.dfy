/** The write buffer of a Bluetooth LE serial port (android/src/BleSerialWriteBuffer.java), driven
    by the GATT callbacks of android/src/BleSerialPort.java.

    `Step` is one stretch of code inside the monitor; the class holds the code, and the lemmas are
    about every sequence of steps. */
module BleSerial {
  import opened Common

  const BUFFER_SIZE := 256
  const DEFAULT_MTU := 20
  const ATT_HEADER_SIZE := 3

  /** The operation the Bluetooth stack is working on. */
  datatype Operation = NoOperation | Reading | Writing

  /** A call that waits; `awake` means that it was notified since. */
  datatype Caller =
    | Writer(data: seq<byte>, hasDeviceName: bool, awake: bool)
    | Drainer(awake: bool)

  /** An accepted byte that has left the buffer: it was handed over to the stack or discarded. */
  datatype Departure = Departure(b: byte, handed: bool)

  /** The last five fields are history: what is outstanding in the stack, whether two operations
      ever overlapped, what was accepted and which chunks were handed over since the last error
      or reset, and which accepted bytes have left the buffer so far, and how. */
  datatype State = State(buffer: seq<byte>, head: int, tail: int, mtu: int, error: bool, gattBusy: bool,
                         callers: map<int, Caller>,
                         pending: Operation, clash: bool,
                         accepted: seq<byte>, chunks: seq<seq<byte>>, gone: seq<Departure>)

  /** `gattOk` is the stack's answer to the request the step makes, if it makes one. */
  datatype Action =
    | CallWrite(id: int, data: seq<byte>, hasDeviceName: bool, gattOk: bool)
    | ResumeWrite(id: int, timeLeft: bool, interrupted: bool, gattOk: bool)
    | CallDrain(id: int)
    | ResumeDrain(id: int, timeLeft: bool, interrupted: bool)
    | OnMtuChanged(attMtu: int, success: bool)
    | OnCharacteristicRead(gattOk: bool)
    | OnCharacteristicWrite(success: bool, gattOk: bool)
    | Reset

  datatype Outcome = Returns(value: int) | Waits | NoCall

  function Init(): State {
    State(seq(BUFFER_SIZE, _ => 0), 0, 0, DEFAULT_MTU, false, false, map[], NoOperation, false, [], [], [])
  }

  predicate Sane(s: State) {
    |s.buffer| == BUFFER_SIZE && 0 <= s.head <= s.tail <= BUFFER_SIZE && 1 <= s.mtu
  }

  function NotifyAll(s: State): State {
    s.(callers := map id | id in s.callers :: s.callers[id].(awake := true))
  }

  /** clear(), for whatever reason the buffered bytes are given up. */
  function Clear(s: State): State {
    NotifyAll(s.(head := 0, tail := 0))
  }

  function Departed(bytes: seq<byte>, handed: bool): (d: seq<Departure>)
    ensures |d| == |bytes| && forall i :: 0 <= i < |d| ==> d[i] == Departure(bytes[i], handed)
  {
    seq(|bytes|, i requires 0 <= i < |bytes| => Departure(bytes[i], handed))
  }

  function Buffered(s: State): seq<byte>
    requires Sane(s)
  {
    s.buffer[s.head..s.tail]
  }

  /** The accepted bytes `lost` are discarded, and the chunks before them are forgotten. */
  function NewHistory(s: State, lost: seq<byte>): State {
    s.(accepted := [], chunks := [], gone := s.gone + Departed(lost, false))
  }

  function SetError(s: State, lost: seq<byte>): State {
    Clear(NewHistory(s, lost).(error := true, gattBusy := false))
  }

  function DoReset(s: State): State
    requires Sane(s)
  {
    Clear(NewHistory(s, Buffered(s)).(error := false, gattBusy := false, pending := NoOperation))
  }

  /** The stack accepts a request. */
  function StartOperation(s: State, op: Operation): State {
    s.(pending := op, clash := s.clash || s.pending != NoOperation)
  }

  /** The stack accepts a chunk. */
  function Handed(s: State, chunk: seq<byte>): State {
    StartOperation(s, Writing).(gattBusy := true, chunks := s.chunks + [chunk], gone := s.gone + Departed(chunk, true))
  }

  function ChunkSize(s: State): int {
    if s.tail - s.head <= s.mtu then s.tail - s.head else s.mtu
  }

  function BeginWriteNextChunk(s: State, gattOk: bool): (State, bool)
    requires Sane(s)
  {
    var s0 := s.(gattBusy := false);
    if s.head == s.tail then (s0, false)
    else
      var n := ChunkSize(s);
      var chunk := s.buffer[s.head..s.head + n];
      var s1 := s0.(head := s.head + n);
      if !gattOk then (SetError(s1, Buffered(s)), false)
      else (NotifyAll(Handed(s1, chunk)), true)
  }

  function Shift(s: State): State
    requires Sane(s)
  {
    s.(buffer := s.buffer[s.head..s.tail] + s.buffer[s.tail - s.head..], head := 0, tail := s.tail - s.head)
  }

  function Room(s: State, data: seq<byte>): (n: int)
    requires Sane(s)
    ensures 0 <= n <= |data| && s.tail + n <= BUFFER_SIZE
  {
    if |data| <= BUFFER_SIZE - s.tail then |data| else BUFFER_SIZE - s.tail
  }

  function Append(s: State, data: seq<byte>): State
    requires Sane(s)
  {
    var n := Room(s, data);
    s.(buffer := s.buffer[..s.tail] + data[..n] + s.buffer[s.tail + n..],
       tail := s.tail + n, accepted := s.accepted + data[..n])
  }

  /** The end of write(), once drainSome() has succeeded.  The bytes of a write() that returns 0 do
      not count as accepted; others in the buffer would be discarded, but there are none. */
  function Store(s: State, data: seq<byte>, hasDeviceName: bool, gattOk: bool): (State, Outcome)
    requires Sane(s)
  {
    var s1 := if s.head > 0 then Shift(s) else s;
    var n := Room(s1, data);
    var s2 := Append(s1, data);
    if s.gattBusy then (s2, Returns(n))
    else if hasDeviceName then
      if gattOk then (StartOperation(s2, Reading).(gattBusy := true), Returns(n))
      else (Clear(s2.(accepted := s.accepted, gone := NewHistory(s, Buffered(s)).gone)), Returns(0))
    else
      var (s3, ok) := BeginWriteNextChunk(s2, gattOk);
      if ok then (s3, Returns(n)) else (s3.(gone := NewHistory(s, Buffered(s)).gone), Returns(0))
  }

  function Full(s: State): bool {
    s.head == 0 && s.tail == BUFFER_SIZE
  }

  function Leave(s: State, id: int): State {
    s.(callers := s.callers - {id})
  }

  function AsInt(b: bool): int {
    if b then 1 else 0
  }

  function Step(s: State, a: Action): (State, Outcome)
    requires Sane(s)
  {
    match a
    case CallWrite(id, data, hasDeviceName, gattOk) =>
      if id in s.callers then (s, NoCall)
      else if data == [] then (s, Returns(0))
      else if s.error then (s.(error := false), Returns(0))
      else if Full(s) then (s.(callers := s.callers[id := Writer(data, hasDeviceName, false)]), Waits)
      else Store(s, data, hasDeviceName, gattOk)
    case ResumeWrite(id, timeLeft, interrupted, gattOk) =>
      if id !in s.callers || !s.callers[id].Writer? then (s, NoCall)
      else
        var c, s1 := s.callers[id], Leave(s, id);
        if interrupted then (s1, Returns(0))
        else if !Full(s) then Store(s1, c.data, c.hasDeviceName, gattOk)
        else if !timeLeft then (s1, Returns(0))
        else (s.(callers := s.callers[id := c.(awake := false)]), Waits)
    case CallDrain(id) =>
      if id in s.callers then (s, NoCall)
      else if s.error then (s.(error := false), Returns(AsInt(false)))
      else if s.head == s.tail then (s, Returns(AsInt(true)))
      else (s.(callers := s.callers[id := Drainer(false)]), Waits)
    case ResumeDrain(id, timeLeft, interrupted) =>
      if id !in s.callers || !s.callers[id].Drainer? then (s, NoCall)
      else if interrupted then (Leave(s, id), Returns(AsInt(false)))
      else if s.head == s.tail then (Leave(s, id), Returns(AsInt(true)))
      else if !timeLeft then (Leave(s, id), Returns(AsInt(false)))
      else (s.(callers := s.callers[id := Drainer(false)]), Waits)
    case OnMtuChanged(attMtu, success) =>
      (if success && attMtu > ATT_HEADER_SIZE then s.(mtu := attMtu - ATT_HEADER_SIZE) else s, NoCall)
    case OnCharacteristicRead(gattOk) =>
      if !s.pending.Reading? then (s, NoCall)
      else (BeginWriteNextChunk(s.(pending := NoOperation), gattOk).0, NoCall)
    case OnCharacteristicWrite(success, gattOk) =>
      if !s.pending.Writing? then (s, NoCall)
      else
        var s1 := s.(pending := NoOperation);
        (if success then BeginWriteNextChunk(s1, gattOk).0 else SetError(s1, Buffered(s)), NoCall)
    case Reset => (DoReset(s), NoCall)
  }

  // The invariant

  function Concat(chunks: seq<seq<byte>>): seq<byte> {
    if chunks == [] then [] else Concat(chunks[..|chunks| - 1]) + chunks[|chunks| - 1]
  }

  predicate HasReason(s: State, c: Caller) {
    c.awake || if c.Writer? then Full(s) else s.head != s.tail
  }

  ghost predicate BytesInOrder(s: State) {
    Sane(s) && s.accepted == Concat(s.chunks) + s.buffer[s.head..s.tail]
  }

  /** The part of the invariant that does not depend on who sleeps. */
  ghost predicate Core(s: State) {
    && BytesInOrder(s)
    && !s.clash
    && (forall i :: 0 <= i < |s.chunks| ==> s.chunks[i] != [])
    && (forall id :: id in s.callers && s.callers[id].Writer? ==> s.callers[id].data != [])
  }

  /** The operation flag is right, and no accepted byte waits without an operation. */
  predicate Driven(s: State) {
    (s.gattBusy <==> s.pending != NoOperation) && (!s.gattBusy ==> s.head == s.tail)
  }

  ghost predicate Inv(s: State) {
    Core(s) && Driven(s) && forall id :: id in s.callers ==> HasReason(s, s.callers[id])
  }

  lemma NotifyAllSettles(s: State)
    requires Core(s) && Driven(s)
    ensures Inv(NotifyAll(s))
  {
  }

  lemma OrderIsSane(s: State)
    requires BytesInOrder(s)
    ensures Sane(s)
  {
  }

  lemma AppendKeepsOrder(s: State, data: seq<byte>)
    requires BytesInOrder(s)
    ensures BytesInOrder(Append(s, data))
  {
    var t, n := Append(s, data), Room(s, data);
    assert t.buffer[s.head..t.tail] == s.buffer[s.head..s.tail] + data[..n];
  }

  lemma ShiftKeepsOrder(s: State)
    requires BytesInOrder(s)
    ensures BytesInOrder(Shift(s)) && Shift(s).tail == s.tail - s.head
  {
    var t := Shift(s);
    assert t.buffer[0..t.tail] == s.buffer[s.head..s.tail];
  }

  lemma ChunkKeepsOrder(s: State, t: State)
    requires BytesInOrder(s) && s.head < s.tail
    requires t.buffer == s.buffer && t.head == s.head + ChunkSize(s) && t.tail == s.tail && t.mtu == s.mtu
    requires t.accepted == s.accepted && t.chunks == s.chunks + [s.buffer[s.head..t.head]]
    ensures BytesInOrder(t)
  {
    var chunk, rest := s.buffer[s.head..t.head], s.buffer[t.head..s.tail];
    assert t.chunks[..|s.chunks|] == s.chunks;
    SplitSlice(s.buffer, s.head, t.head, s.tail);
    assert Concat(t.chunks) == Concat(s.chunks) + chunk;
    assert Concat(s.chunks) + (chunk + rest) == Concat(s.chunks) + chunk + rest;
  }

  lemma ErrorKeepsInv(s: State, lost: seq<byte>)
    requires Core(s)
    ensures s.pending == NoOperation ==> Inv(SetError(s, lost))
    ensures Inv(DoReset(s))
  {
    hide NotifyAll, Departed, Buffered;
    NotifyAllSettles(NewHistory(s, Buffered(s)).(error := false, gattBusy := false, pending := NoOperation, head := 0,
                                                 tail := 0));
    if s.pending == NoOperation {
      NotifyAllSettles(NewHistory(s, lost).(error := true, gattBusy := false, head := 0, tail := 0));
    }
  }

  lemma BeginKeepsInv(s: State, gattOk: bool)
    requires Core(s) && s.pending == NoOperation
    requires s.head == s.tail ==> forall id :: id in s.callers ==> HasReason(s, s.callers[id])
    ensures Inv(BeginWriteNextChunk(s, gattOk).0)
    ensures gattOk && s.head < s.tail ==> BeginWriteNextChunk(s, gattOk).0.accepted == s.accepted
  {
    hide NotifyAll, SetError, Handed;
    if s.head < s.tail {
      var t := s.(gattBusy := false, head := s.head + ChunkSize(s));
      if gattOk {
        HandedChunkKeepsInv(s, t, s.buffer[s.head..t.head]);
      } else {
        FailedChunkKeepsInv(s, t, Buffered(s));
      }
    }
  }

  lemma HandedChunkKeepsInv(s: State, t: State, chunk: seq<byte>)
    requires Core(s) && s.pending == NoOperation && s.head < s.tail
    requires t == s.(gattBusy := false, head := s.head + ChunkSize(s)) && chunk == s.buffer[s.head..t.head]
    ensures Inv(NotifyAll(Handed(t, chunk))) && NotifyAll(Handed(t, chunk)).accepted == s.accepted
  {
    hide NotifyAll, Departed;
    var u := Handed(t, chunk);
    ChunkKeepsOrder(s, u);
    assert |chunk| == ChunkSize(s) > 0;
    hide BytesInOrder;
    NotifyAllSettles(u);
    NotifyKeepsHistory(u);
  }

  lemma NotifyKeepsHistory(s: State)
    ensures NotifyAll(s).accepted == s.accepted && NotifyAll(s).chunks == s.chunks
  {
  }

  /** A chunk that the stack refuses is discarded with the rest. */
  lemma FailedChunkKeepsInv(s: State, t: State, lost: seq<byte>)
    requires Core(s) && s.pending == NoOperation && s.head < s.tail
    requires t == s.(gattBusy := false, head := s.head + ChunkSize(s))
    ensures Inv(SetError(t, lost))
  {
    hide NotifyAll, Departed;
    NotifyAllSettles(NewHistory(t, lost).(error := true, gattBusy := false, head := 0, tail := 0));
  }

  function Appended(s: State, data: seq<byte>): State
    requires Sane(s)
  {
    Append(if s.head > 0 then Shift(s) else s, data)
  }

  lemma AppendedKeepsOrder(s: State, data: seq<byte>)
    requires BytesInOrder(s)
    ensures Sane(s) && BytesInOrder(Appended(s, data))
  {
    OrderIsSane(s);
    ShiftKeepsOrder(s);
    hide BytesInOrder, Shift, Append;
    AppendKeepsOrder(if s.head > 0 then Shift(s) else s, data);
  }

  lemma AppendedIsNotEmpty(s: State, data: seq<byte>)
    requires Sane(s) && !Full(s) && data != []
    ensures Appended(s, data).head < Appended(s, data).tail
  {
  }

  lemma AppendedKeepsCore(s: State, data: seq<byte>)
    requires Core(s) && !Full(s) && data != []
    ensures Sane(s) && Core(Appended(s, data)) && Appended(s, data).head < Appended(s, data).tail
  {
    AppendedKeepsOrder(s, data);
    AppendedIsNotEmpty(s, data);
    AppendedKeepsRest(s, data);
    hide BytesInOrder, Appended, Sane;
  }

  lemma AppendedKeepsRest(s: State, data: seq<byte>)
    requires Sane(s)
    ensures var t := Appended(s, data);
            t == s.(buffer := t.buffer, head := 0, tail := t.tail, accepted := t.accepted)
  {
  }

  lemma StoreKeepsInv(s: State, data: seq<byte>, hasDeviceName: bool, gattOk: bool)
    requires Inv(s) && !Full(s) && data != []
    ensures Inv(Store(s, data, hasDeviceName, gattOk).0)
  {
    OrderIsSane(s);
    AppendedKeepsCore(s, data);
    AppendedKeepsRest(s, data);
    AllAwake(s);
    var s2 := Appended(s, data);
    hide NotifyAll, BytesInOrder, BeginWriteNextChunk, NewHistory, Buffered, Append, Shift;
    if !s.gattBusy {
      var gone := NewHistory(s, Buffered(s)).gone;
      if hasDeviceName && gattOk {
        FlagsKeepOrder(s2, StartOperation(s2, Reading).(gattBusy := true));
      } else if hasDeviceName {
        var t := s2.(accepted := s.accepted, gone := gone, head := 0, tail := 0);
        SaneBuffer(s2);
        EmptyIsInOrder(s, t);
        RefusedReadKeepsInv(s, t);
      } else {
        BeginKeepsInv(s2, gattOk);
        GoneDoesNotMatter(BeginWriteNextChunk(s2, gattOk).0, gone);
      }
    }
  }

  lemma AllAwake(s: State)
    requires Inv(s) && !Full(s)
    ensures forall id :: id in s.callers && s.callers[id].Writer? ==> s.callers[id].awake
  {
    hide BytesInOrder;
  }

  lemma SaneBuffer(s: State)
    requires BytesInOrder(s)
    ensures |s.buffer| == BUFFER_SIZE
  {
  }

  /** A read of the device name that the stack refuses gives up the bytes just buffered. */
  lemma RefusedReadKeepsInv(s: State, t: State)
    requires Inv(s) && !s.gattBusy && BytesInOrder(t)
    requires t == s.(buffer := t.buffer, head := 0, tail := 0, gone := t.gone)
    ensures Inv(NotifyAll(t))
  {
    hide NotifyAll, BytesInOrder;
    NotifyAllSettles(t);
  }

  lemma GoneDoesNotMatter(s: State, gone: seq<Departure>)
    requires Inv(s)
    ensures Inv(s.(gone := gone))
  {
  }

  lemma FlagsKeepOrder(s: State, t: State)
    requires BytesInOrder(s) && t == s.(gattBusy := t.gattBusy, pending := t.pending, clash := t.clash)
    ensures BytesInOrder(t)
  {
  }

  lemma EmptyIsInOrder(s: State, t: State)
    requires BytesInOrder(s) && s.head == s.tail
    requires |t.buffer| == BUFFER_SIZE && t.head == t.tail == 0 && t.mtu == s.mtu
    requires t.accepted == s.accepted && t.chunks == s.chunks
    ensures BytesInOrder(t)
  {
  }

  lemma LeaveKeepsInv(s: State, id: int)
    requires Inv(s)
    ensures Inv(Leave(s, id))
  {
  }

  lemma WaitKeepsInv(s: State, id: int, c: Caller)
    requires Inv(s) && HasReason(s, c) && (c.Writer? ==> c.data != [])
    ensures Inv(s.(callers := s.callers[id := c]))
  {
  }

  lemma WriteKeepsInv(s: State, a: Action)
    requires Inv(s) && (a.CallWrite? || a.ResumeWrite?)
    ensures Inv(Step(s, a).0)
  {
    hide BytesInOrder, Store, HasReason;
    OrderIsSane(s);
    if a.CallWrite? {
      if a.id !in s.callers && a.data != [] && !s.error {
        if Full(s) {
          assert HasReason(s, Writer(a.data, a.hasDeviceName, false)) by {
            FullIsAReason(s, Writer(a.data, a.hasDeviceName, false));
          }
          WaitKeepsInv(s, a.id, Writer(a.data, a.hasDeviceName, false));
        } else {
          StoreKeepsInv(s, a.data, a.hasDeviceName, a.gattOk);
        }
      } else {
        SettingsKeepInv(s, s.mtu, false);
      }
    } else if a.id in s.callers && s.callers[a.id].Writer? {
      var c := s.callers[a.id];
      LeaveKeepsInv(s, a.id);
      if !a.interrupted && !Full(s) {
        StoreKeepsInv(Leave(s, a.id), c.data, c.hasDeviceName, a.gattOk);
      } else if !a.interrupted && a.timeLeft {
        FullIsAReason(s, c.(awake := false));
        WaitKeepsInv(s, a.id, c.(awake := false));
      }
    }
  }

  lemma FullIsAReason(s: State, c: Caller)
    requires c.Writer? && Full(s)
    ensures HasReason(s, c)
  {
  }

  lemma SettingsKeepInv(s: State, mtu: int, error: bool)
    requires Inv(s) && mtu >= 1
    ensures Inv(s.(mtu := mtu)) && Inv(s.(error := error))
  {
  }

  lemma StepKeepsInv(s: State, a: Action)
    requires Inv(s)
    ensures Inv(Step(s, a).0)
  {
    hide *;
    match a {
      case CallWrite(_, _, _, _) => WriteKeepsInv(s, a);
      case ResumeWrite(_, _, _, _) => WriteKeepsInv(s, a);
      case CallDrain(_) => DrainKeepsInv(s, a);
      case ResumeDrain(_, _, _) => DrainKeepsInv(s, a);
      case OnMtuChanged(_, _) => MtuKeepsInv(s, a);
      case OnCharacteristicRead(_) => OnCharacteristicKeepsInv(s, a);
      case OnCharacteristicWrite(_, _) => OnCharacteristicKeepsInv(s, a);
      case Reset => ResetKeepsInv(s);
    }
  }

  lemma DrainKeepsInv(s: State, a: Action)
    requires Inv(s) && (a.CallDrain? || a.ResumeDrain?)
    ensures Sane(s) && Inv(Step(s, a).0)
  {
    OrderIsSane(s);
    SettingsKeepInv(s, 1, false);
    LeaveKeepsInv(s, a.id);
    if s.head != s.tail {
      WaitKeepsInv(s, a.id, Drainer(false));
    }
    hide Inv, Leave;
  }

  lemma MtuKeepsInv(s: State, a: Action)
    requires Inv(s) && a.OnMtuChanged?
    ensures Sane(s) && Inv(Step(s, a).0)
  {
    OrderIsSane(s);
    hide Inv;
    if a.attMtu > ATT_HEADER_SIZE {
      SettingsKeepInv(s, a.attMtu - ATT_HEADER_SIZE, false);
    }
  }

  lemma OnCharacteristicKeepsInv(s: State, a: Action)
    requires Inv(s) && (a.OnCharacteristicRead? || a.OnCharacteristicWrite?)
    ensures Sane(s) && Inv(Step(s, a).0)
  {
    OrderIsSane(s);
    hide Inv, BeginWriteNextChunk, SetError;
    CallbackKeepsInv(s, a.gattOk);
  }

  lemma ResetKeepsInv(s: State)
    requires Inv(s)
    ensures Sane(s) && Inv(Step(s, Reset).0)
  {
    OrderIsSane(s);
    ErrorKeepsInv(s, []);
    hide Inv, DoReset;
  }

  lemma CallbackKeepsInv(s: State, gattOk: bool)
    requires Inv(s)
    ensures var s1 := s.(pending := NoOperation);
            Inv(BeginWriteNextChunk(s1, gattOk).0) && Inv(SetError(s1, Buffered(s)))
  {
    hide BeginWriteNextChunk, SetError;
    var s1 := s.(pending := NoOperation);
    assert Core(s1);
    ErrorKeepsInv(s1, Buffered(s));
    BeginKeepsInv(s1, gattOk);
  }

  // Whole runs

  function StepAll(s: State, actions: seq<Action>): (t: State)
    requires Inv(s)
    ensures Inv(t)
    decreases |actions|
  {
    if actions == [] then s
    else
      StepKeepsInv(s, actions[0]);
      StepAll(Step(s, actions[0]).0, actions[1..])
  }

  function Run(actions: seq<Action>): (s: State)
    ensures Inv(s)
  {
    assert Inv(Init());
    StepAll(Init(), actions)
  }

  /** Between errors and resets: the chunks handed to the stack, followed by the buffered bytes,
      are the accepted bytes in order; no operation is started while one is pending; and whenever
      none is pending nothing is left in the buffer. */
  lemma ChunksCarryTheAcceptedBytes(actions: seq<Action>)
    ensures var s := Run(actions);
            && s.accepted == Concat(s.chunks) + s.buffer[s.head..s.tail]
            && !s.clash
            && (s.pending == NoOperation ==> s.accepted == Concat(s.chunks) && !s.gattBusy)
  {
  }

  predicate OneMoreChunk(s: State, t: State) {
    || t.chunks == s.chunks
    || t.chunks == []
    || (|t.chunks| == |s.chunks| + 1 && t.chunks[..|s.chunks|] == s.chunks
        && 1 <= |t.chunks[|s.chunks|]| <= s.mtu)
  }

  lemma BeginAddsAChunk(s: State, gattOk: bool)
    requires Sane(s)
    ensures OneMoreChunk(s, BeginWriteNextChunk(s, gattOk).0)
  {
    hide NotifyAll;
    var t := s.(gattBusy := false, head := s.head + (if s.head == s.tail then 0 else ChunkSize(s)));
    NotifyKeepsFlags(NewHistory(t, Buffered(s)).(error := true, gattBusy := false, head := 0, tail := 0));
    if s.head < s.tail {
      NotifyKeepsFlags(Handed(t, s.buffer[s.head..t.head]));
    }
  }

  lemma StoreAddsAChunk(s: State, data: seq<byte>, hasDeviceName: bool, gattOk: bool)
    requires Sane(s)
    ensures OneMoreChunk(s, Store(s, data, hasDeviceName, gattOk).0)
  {
    AppendedKeepsRest(s, data);
    var s2 := Appended(s, data);
    hide NotifyAll, BeginWriteNextChunk, Append, Shift, Departed;
    BeginAddsAChunk(s2, gattOk);
    NotifyKeepsFlags(s2.(accepted := s.accepted, gone := NewHistory(s, Buffered(s)).gone, head := 0, tail := 0));
  }

  /** The data of the write() that a step makes or resumes. */
  function Written(s: State, a: Action): seq<byte> {
    if a.CallWrite? then a.data
    else if a.ResumeWrite? && a.id in s.callers && s.callers[a.id].Writer? then s.callers[a.id].data
    else []
  }

  /** The write() gets as far as to store its data. */
  predicate Proceeds(s: State, a: Action) {
    || (a.CallWrite? && a.id !in s.callers && a.data != [] && !s.error && !Full(s))
    || (a.ResumeWrite? && a.id in s.callers && s.callers[a.id].Writer? && !a.interrupted && !Full(s))
  }

  function Proceeding(s: State, a: Action): State
    requires Proceeds(s, a)
  {
    if a.ResumeWrite? then Leave(s, a.id) else s
  }

  function NameOf(s: State, a: Action): bool
    requires Proceeds(s, a)
  {
    if a.ResumeWrite? then s.callers[a.id].hasDeviceName else a.hasDeviceName
  }

  lemma ProceedingWrite(s: State, a: Action)
    requires Sane(s) && Proceeds(s, a)
    ensures Sane(Proceeding(s, a))
    ensures Step(s, a) == Store(Proceeding(s, a), Written(s, a), NameOf(s, a), a.gattOk)
  {
    hide Store;
  }

  /** Every chunk a step hands over has at least one byte and at most the MTU of that moment. */
  lemma ChunksFitTheMtu(s: State, a: Action)
    requires Inv(s)
    ensures OneMoreChunk(s, Step(s, a).0)
  {
    OrderIsSane(s);
    hide NotifyAll, BeginWriteNextChunk, Store, Inv, OneMoreChunk;
    var t := Step(s, a).0;
    if Proceeds(s, a) {
      ProceedingWrite(s, a);
      StoreAddsAChunk(Proceeding(s, a), Written(s, a), NameOf(s, a), a.gattOk);
      SameMtu(s, Proceeding(s, a), t);
    } else if a.OnCharacteristicRead? || a.OnCharacteristicWrite? {
      var s1 := s.(pending := NoOperation);
      BeginAddsAChunk(s1, a.gattOk);
      SameMtu(s, s1, t);
      NotifyKeepsFlags(NewHistory(s1, Buffered(s)).(error := true, gattBusy := false, head := 0, tail := 0));
      SameChunks(s, t);
    } else {
      NotifyKeepsFlags(NewHistory(s, Buffered(s)).(error := false, gattBusy := false, pending := NoOperation,
                                                   head := 0, tail := 0));
      SameChunks(s, t);
    }
  }

  lemma SameChunks(s: State, t: State)
    ensures t.chunks == s.chunks || t.chunks == [] ==> OneMoreChunk(s, t)
  {
  }

  lemma SameMtu(s: State, u: State, t: State)
    requires u.mtu == s.mtu && u.chunks == s.chunks
    ensures OneMoreChunk(u, t) ==> OneMoreChunk(s, t)
  {
  }

  /** write() reports exactly how many bytes it accepted. */
  lemma StoreIsAccounted(s: State, data: seq<byte>, hasDeviceName: bool, gattOk: bool)
    requires Inv(s) && !Full(s) && data != []
    ensures var (t, o) := Store(s, data, hasDeviceName, gattOk);
            o.Returns? && 0 <= o.value <= |data|
            && (o.value > 0 ==> t.accepted == s.accepted + data[..o.value])
            && (o.value == 0 ==> t.accepted == s.accepted || (t.error && t.accepted == []))
            && (gattOk || s.gattBusy ==> o.value > 0)
  {
    hide NotifyAll, BytesInOrder, Concat, Departed;
    OrderIsSane(s);
    forall x: State
      ensures NotifyAll(x).accepted == x.accepted && NotifyAll(x).error == x.error
    {
      NotifyKeepsFlags(x);
    }
  }

  lemma NotifyKeepsFlags(s: State)
    ensures NotifyAll(s).accepted == s.accepted && NotifyAll(s).error == s.error && NotifyAll(s).chunks == s.chunks
  {
  }

  lemma NotifyKeepsBuffer(s: State)
    ensures NotifyAll(s).head == s.head && NotifyAll(s).tail == s.tail && NotifyAll(s).buffer == s.buffer
    ensures NotifyAll(s).mtu == s.mtu && NotifyAll(s).pending == s.pending && NotifyAll(s).gone == s.gone
  {
  }

  // What every call does

  function Least(a: int, b: int): int {
    if a < b then a else b
  }

  /** What the stack is asked for when data has been stored: nothing while it is busy; otherwise the
      device name, or the first chunk. */
  lemma StoreOutcome(s: State, data: seq<byte>, hasDeviceName: bool, gattOk: bool)
    requires Inv(s) && data != [] && !(s.head == 0 && s.tail == 256)
    ensures Sane(s)
    ensures var (t, o) := Store(s, data, hasDeviceName, gattOk);
            var room := 256 - (s.tail - s.head);
            && 0 < room
            && (o == Returns(0) <==> !s.gattBusy && !gattOk)
            && (s.gattBusy || gattOk ==> o == Returns(Least(|data|, room)))
            && (s.gattBusy ==> t.gattBusy && t.pending == s.pending && t.chunks == s.chunks)
            && (!s.gattBusy && gattOk && hasDeviceName ==> t.gattBusy && t.pending == Reading && t.chunks == s.chunks)
            && (!s.gattBusy && gattOk && !hasDeviceName ==>
                  && t.gattBusy && t.pending == Writing
                  && t.chunks == s.chunks + [data[..Least(|data|, Least(room, s.mtu))]])
            && (!s.gattBusy && !gattOk ==> !t.gattBusy && t.head == t.tail && (t.error <==> s.error || !hasDeviceName))
  {
    OrderIsSane(s);
    AppendedIsMore(s, data);
    FirstChunk(s, data);
    AppendedKeepsRest(s, data);
    if !s.gattBusy {
      NotGattBusy(s);
    }
    hide Inv, NotifyAll, Append, Shift, Departed, Buffered, NewHistory;
    var s2 := Appended(s, data);
    if !s.gattBusy {
      NotifyKeepsFlags(s2.(accepted := s.accepted, gone := NewHistory(s, Buffered(s)).gone, head := 0, tail := 0));
      NotifyKeepsBuffer(s2.(accepted := s.accepted, gone := NewHistory(s, Buffered(s)).gone, head := 0, tail := 0));
      BeginOutcome(s2, gattOk);
      hide BeginWriteNextChunk;
    }
  }

  lemma NotGattBusy(s: State)
    requires Inv(s) && !s.gattBusy
    ensures s.head == s.tail && s.pending == NoOperation
  {
  }

  lemma FirstChunk(s: State, data: seq<byte>)
    requires Sane(s) && data != []
    ensures var t, room := Appended(s, data), 256 - (s.tail - s.head);
            && Sane(t) && t.tail - t.head == s.tail - s.head + Least(|data|, room)
            && (s.head == s.tail ==>
                  t.buffer[t.head..t.head + ChunkSize(t)] == data[..Least(|data|, Least(room, s.mtu))])
  {
  }

  /** The next chunk is as long as the MTU and the buffer allow. */
  lemma BeginOutcome(s: State, gattOk: bool)
    requires Sane(s)
    ensures var (t, ok) := BeginWriteNextChunk(s, gattOk);
            var n := Least(s.mtu, s.tail - s.head);
            && (ok <==> s.head < s.tail && gattOk)
            && (ok ==> t.gattBusy && t.pending == Writing && t.chunks == s.chunks + [s.buffer[s.head..s.head + n]]
                       && t.head == s.head + n && t.tail == s.tail && t.error == s.error
                       && forall id :: id in t.callers ==> t.callers[id].awake)
            && (s.head == s.tail ==> t == s.(gattBusy := false))
            && (s.head < s.tail && !gattOk ==>
                  && t.error && !t.gattBusy && t.pending == s.pending && t.head == t.tail
                  && forall id :: id in t.callers ==> t.callers[id].awake)
  {
    hide Departed, Buffered;
  }

  /** write() accepts nothing if there is no data, after an error, which it consumes, and if the
      stack refuses; it waits exactly if the buffer is full. */
  lemma WriteOutcome(s: State, id: int, data: seq<byte>, hasDeviceName: bool, gattOk: bool)
    requires Inv(s) && id !in s.callers
    ensures Sane(s)
    ensures var (t, o) := Step(s, CallWrite(id, data, hasDeviceName, gattOk));
            var full, room := s.head == 0 && s.tail == 256, 256 - (s.tail - s.head);
            && (data == [] ==> t == s)
            && (data != [] && s.error ==> t == s.(error := false))
            && (o == Waits <==> data != [] && !s.error && full)
            && (o == Returns(0) <==> data == [] || s.error || (!full && !s.gattBusy && !gattOk))
            && (data != [] && !s.error && !full && (s.gattBusy || gattOk) ==> o == Returns(Least(|data|, room)))
  {
    OrderIsSane(s);
    if data != [] && !s.error && !Full(s) {
      StoreOutcome(s, data, hasDeviceName, gattOk);
    }
    hide Store, Inv;
  }

  lemma ResumedWriteOutcome(s: State, id: int, timeLeft: bool, interrupted: bool, gattOk: bool)
    requires Inv(s) && id in s.callers && s.callers[id].Writer?
    ensures Sane(s)
    ensures var (t, o) := Step(s, ResumeWrite(id, timeLeft, interrupted, gattOk));
            var full, room := s.head == 0 && s.tail == 256, 256 - (s.tail - s.head);
            && (o == Waits <==> !interrupted && full && timeLeft)
            && (o == Returns(0) <==> interrupted || (full && !timeLeft) || (!full && !s.gattBusy && !gattOk))
            && (!interrupted && !full && (s.gattBusy || gattOk) ==>
                  o == Returns(Least(|s.callers[id].data|, room)))
  {
    OrderIsSane(s);
    LeaveKeepsInv(s, id);
    assert s.callers[id].data != [];
    if !interrupted && !Full(s) {
      StoreOutcome(Leave(s, id), s.callers[id].data, s.callers[id].hasDeviceName, gattOk);
    }
    hide Store, Inv;
  }

  /** drain() looks at the error flag, which it consumes, and at the buffer. */
  lemma DrainOutcome(s: State, id: int)
    requires Inv(s) && id !in s.callers
    ensures Sane(s)
    ensures var (t, o) := Step(s, CallDrain(id));
            && (o == Returns(0) <==> s.error) && (s.error ==> t == s.(error := false))
            && (o == Returns(1) <==> !s.error && s.head == s.tail)
            && (o == Waits <==> !s.error && s.head < s.tail)
  {
    OrderIsSane(s);
  }

  lemma ResumedDrainOutcome(s: State, id: int, timeLeft: bool, interrupted: bool)
    requires Inv(s) && id in s.callers && s.callers[id].Drainer?
    ensures Sane(s)
    ensures var (t, o) := Step(s, ResumeDrain(id, timeLeft, interrupted));
            && (o == Returns(1) <==> !interrupted && s.head == s.tail)
            && (o == Returns(0) <==> interrupted || (s.head < s.tail && !timeLeft))
            && (o == Waits <==> !interrupted && s.head < s.tail && timeLeft)
            && t.callers.Keys == (if o == Waits then s.callers.Keys else s.callers.Keys - {id})
  {
    OrderIsSane(s);
    hide Inv;
  }

  /** The MTU for data is that of the protocol less three bytes, 20 at first. */
  lemma MtuOutcome(s: State, attMtu: int, success: bool)
    requires Inv(s)
    ensures Sane(s) && Init().mtu == 20
    ensures Step(s, OnMtuChanged(attMtu, success)).0
            == if success && attMtu > 3 then s.(mtu := attMtu - 3) else s
  {
    OrderIsSane(s);
  }

  /** A callback goes on with the next chunk, or ends the operation if nothing is left; a failed
      write or a refused chunk gives up everything and raises the flag. */
  lemma CallbackOutcome(s: State, a: Action)
    requires Inv(s)
    requires (a.OnCharacteristicRead? && s.pending.Reading?) || (a.OnCharacteristicWrite? && s.pending.Writing?)
    ensures Sane(s)
    ensures var t := Step(s, a).0;
            var n, success := Least(s.mtu, s.tail - s.head), a.OnCharacteristicRead? || a.success;
            && (success && s.head < s.tail && a.gattOk ==>
                  && t.gattBusy && t.pending == Writing && t.error == s.error
                  && t.chunks == s.chunks + [s.buffer[s.head..s.head + n]] && t.head == s.head + n && t.tail == s.tail)
            && (success && s.head == s.tail ==> t == s.(gattBusy := false, pending := NoOperation))
            && (!success || (s.head < s.tail && !a.gattOk) ==>
                  && t.error && !t.gattBusy && t.pending == NoOperation && t.head == t.tail
                  && forall id :: id in t.callers ==> t.callers[id].awake)
  {
    OrderIsSane(s);
    BeginOutcome(s.(pending := NoOperation), a.gattOk);
    hide Inv, BeginWriteNextChunk, Departed, Buffered;
  }

  lemma ResetOutcome(s: State)
    requires Inv(s)
    ensures Sane(s)
    ensures var t := Step(s, Reset).0;
            && !t.error && !t.gattBusy && t.pending == NoOperation && t.head == t.tail && t.mtu == s.mtu
            && t.callers.Keys == s.callers.Keys && forall id :: id in t.callers ==> t.callers[id].awake
  {
    OrderIsSane(s);
    hide Inv, Departed, Buffered;
  }

  // What becomes of every accepted byte

  function Bytes(d: seq<Departure>): (r: seq<byte>)
    ensures |r| == |d| && forall i :: 0 <= i < |r| ==> r[i] == d[i].b
  {
    seq(|d|, i requires 0 <= i < |d| => d[i].b)
  }

  /** All bytes accepted so far, as far as their fate tells. */
  function Accounted(s: State): seq<byte>
    requires Sane(s)
  {
    Bytes(s.gone) + Buffered(s)
  }

  predicate AllHanded(d: seq<Departure>) {
    forall i :: 0 <= i < |d| ==> d[i].handed
  }

  /** The guard of the branches that discard accepted bytes: a write failed, the next chunk was
      refused, or the port was reset, with bytes in the buffer. */
  predicate Discards(s: State, a: Action) {
    && s.head < s.tail
    && match a
       case OnCharacteristicRead(gattOk) => s.pending.Reading? && !gattOk
       case OnCharacteristicWrite(success, gattOk) => s.pending.Writing? && (!success || !gattOk)
       case Reset => true
       case _ => false
  }

  /** What a step accepts: the bytes of a write() up to the number it returns. */
  function Gain(s: State, a: Action): seq<byte>
    requires Sane(s)
  {
    var data, o := Written(s, a), Step(s, a).1;
    if o.Returns? && 0 <= o.value <= |data| then data[..o.value] else []
  }

  /** From `s` to `t` the bytes `gain` were accepted, and the oldest ones left the buffer: all that
      were buffered were discarded, or some were handed over. */
  predicate Conserves(s: State, t: State, gain: seq<byte>, discards: bool)
    requires Sane(s) && Sane(t)
  {
    && s.gone <= t.gone && Accounted(t) == Accounted(s) + gain
    && (if discards then t.gone == s.gone + Departed(Buffered(s), false) else AllHanded(t.gone[|s.gone|..]))
  }

  lemma SameIsConserved(s: State, t: State)
    requires Sane(s) && Sane(t) && t.gone == s.gone && Buffered(t) == Buffered(s)
    ensures Conserves(s, t, [], false)
  {
    assert Accounted(s) + [] == Accounted(s);
  }

  lemma DiscardingConserves(s: State, t: State)
    requires Sane(s) && Sane(t) && t.gone == s.gone + Departed(Buffered(s), false) && t.head == t.tail
    ensures Conserves(s, t, [], true)
  {
    assert Bytes(t.gone) == Bytes(s.gone) + Buffered(s);
    assert Accounted(t) == Bytes(t.gone) + [] == Accounted(s) + [];
  }

  lemma HandingConserves(s: State, t: State, chunk: seq<byte>)
    requires Sane(s) && Sane(t) && t.gone == s.gone + Departed(chunk, true) && Buffered(s) == chunk + Buffered(t)
    ensures Conserves(s, t, [], false)
  {
    HandedBytes(s.gone, chunk);
    hide Bytes, Departed, Buffered, AllHanded;
    Associate(Bytes(s.gone), chunk, Buffered(t));
    assert Accounted(t) == Accounted(s) + [];
  }

  lemma HandedBytes(gone: seq<Departure>, chunk: seq<byte>)
    ensures Bytes(gone + Departed(chunk, true)) == Bytes(gone) + chunk
    ensures AllHanded((gone + Departed(chunk, true))[|gone|..])
  {
  }

  lemma BeginConserves(s: State, gattOk: bool)
    requires Sane(s)
    ensures var t := BeginWriteNextChunk(s, gattOk).0;
            && Sane(t) && Conserves(s, t, [], s.head < s.tail && !gattOk)
            && (s.head == s.tail || !gattOk ==> t.head == t.tail)
            && (s.head < s.tail && gattOk ==>
                  && t.gone == s.gone + Departed(s.buffer[s.head..s.head + ChunkSize(s)], true)
                  && t.head == s.head + ChunkSize(s) && t.tail == s.tail && t.buffer == s.buffer)
  {
    hide NotifyAll, Conserves, Departed, Accounted;
    var t := BeginWriteNextChunk(s, gattOk).0;
    if s.head == s.tail {
      SameIsConserved(s, t);
    } else {
      var s1 := s.(gattBusy := false, head := s.head + ChunkSize(s));
      var chunk := s.buffer[s.head..s1.head];
      if gattOk {
        NotifyKeepsBuffer(Handed(s1, chunk));
        SplitSlice(s.buffer, s.head, s1.head, s.tail);
        HandingConserves(s, t, chunk);
      } else {
        NotifyKeepsBuffer(NewHistory(s1, Buffered(s)).(error := true, gattBusy := false, head := 0, tail := 0));
        DiscardingConserves(s, t);
      }
    }
  }

  lemma SplitSlice(b: seq<byte>, lo: nat, mid: nat, hi: nat)
    requires lo <= mid <= hi <= |b|
    ensures b[lo..hi] == b[lo..mid] + b[mid..hi]
  {
  }

  lemma AppendAccounts(s: State, data: seq<byte>)
    requires Sane(s)
    ensures var s1 := if s.head > 0 then Shift(s) else s;
            && Sane(s1) && Sane(Appended(s, data)) && Appended(s, data).gone == s.gone
            && Buffered(Appended(s, data)) == Buffered(s) + data[..Room(s1, data)]
  {
    var s1 := if s.head > 0 then Shift(s) else s;
    assert Buffered(s1) == Buffered(s);
    var s2 := Append(s1, data);
    assert s2.buffer[s1.head..s2.tail] == s1.buffer[s1.head..s1.tail] + data[..Room(s1, data)];
  }

  lemma AppendingConserves(s: State, t: State, gain: seq<byte>)
    requires Sane(s) && Sane(t) && t.gone == s.gone && Buffered(t) == Buffered(s) + gain
    ensures Conserves(s, t, gain, false)
  {
    assert Bytes(s.gone) + (Buffered(s) + gain) == Accounted(s) + gain;
  }

  lemma ConservesThen(s: State, t: State, u: State, gain: seq<byte>)
    requires Sane(s) && Sane(t) && Sane(u) && Conserves(s, t, gain, false) && Conserves(t, u, [], false)
    ensures Conserves(s, u, gain, false)
  {
    hide Accounted;
    var m, n := |s.gone|, |t.gone|;
    assert u.gone[m..] == t.gone[m..] + u.gone[n..];
    AllHandedConcat(t.gone[m..], u.gone[n..]);
    assert Accounted(s) + gain + [] == Accounted(s) + gain;
  }

  lemma NothingBuffered(s: State, t: State)
    requires Sane(s) && Sane(t) && s.head == s.tail && t.head == t.tail
    requires t.gone == NewHistory(s, Buffered(s)).gone
    ensures Conserves(s, t, [], false)
  {
    assert s.gone + Departed(Buffered(s), false) == s.gone;
    SameIsConserved(s, t);
  }

  lemma StoreConserves(s: State, data: seq<byte>, hasDeviceName: bool, gattOk: bool)
    requires Sane(s) && (!s.gattBusy ==> s.head == s.tail)
    ensures var (t, o) := Store(s, data, hasDeviceName, gattOk);
            Sane(t) && o.Returns? && 0 <= o.value <= |data| && Conserves(s, t, data[..o.value], false)
  {
    AppendAccounts(s, data);
    hide NotifyAll, BeginWriteNextChunk, Shift, Append, Conserves, NewHistory, Departed, Buffered;
    var n, s2 := Room(if s.head > 0 then Shift(s) else s, data), Appended(s, data);
    var (t, o) := Store(s, data, hasDeviceName, gattOk);
    if s.gattBusy || (hasDeviceName && gattOk) {
      SameBuffer(s2, t);
      AppendingConserves(s, t, data[..n]);
    } else if hasDeviceName {
      NotifyKeepsBuffer(s2.(accepted := s.accepted, gone := NewHistory(s, Buffered(s)).gone, head := 0, tail := 0));
      NothingBuffered(s, t);
    } else {
      BeginSucceeds(s2, gattOk);
      BeginConserves(s2, gattOk);
      if BeginWriteNextChunk(s2, gattOk).1 {
        AppendingConserves(s, s2, data[..n]);
        ConservesThen(s, s2, t, data[..n]);
      } else {
        NothingBuffered(s, t);
      }
    }
  }

  lemma BeginSucceeds(s: State, gattOk: bool)
    requires Sane(s)
    ensures BeginWriteNextChunk(s, gattOk).1 <==> s.head < s.tail && gattOk
  {
  }

  /** Every accepted byte is, in the order of acceptance, handed over, discarded or still in the
      buffer: what a step accepts is what the write() returns, and it discards only where the guard
      says so, and then everything. */
  lemma StepConserves(s: State, a: Action)
    requires Inv(s)
    ensures var t := Step(s, a).0; Sane(t) && Conserves(s, t, Gain(s, a), Discards(s, a))
  {
    if a.CallWrite? || a.ResumeWrite? {
      WriteConserves(s, a);
    } else {
      OrderIsSane(s);
      NothingGained(s, a);
      if a.OnCharacteristicRead? || a.OnCharacteristicWrite? {
        CallbackConserves(s, a);
      } else if a.Reset? {
        ResetConserves(s);
      } else {
        hide Inv, Conserves;
        SameIsConserved(s, Step(s, a).0);
      }
    }
  }

  lemma NothingGained(s: State, a: Action)
    requires Sane(s) && !a.CallWrite? && !a.ResumeWrite?
    ensures Gain(s, a) == []
  {
    hide Step;
  }

  lemma WriteConserves(s: State, a: Action)
    requires Inv(s) && (a.CallWrite? || a.ResumeWrite?)
    ensures var t := Step(s, a).0; Sane(s) && Sane(t) && Conserves(s, t, Gain(s, a), false)
  {
    OrderIsSane(s);
    hide NotifyAll, Core, HasReason, Conserves;
    if Proceeds(s, a) {
      hide Store, Buffered;
      ProceedingWrite(s, a);
      var u := Proceeding(s, a);
      SameBuffer(s, u);
      StoreConserves(u, Written(s, a), NameOf(s, a), a.gattOk);
      SameHistory(s, u, Step(s, a).0, Gain(s, a));
    } else {
      hide Store;
      WaitingWrite(s, a);
      SameIsConserved(s, Step(s, a).0);
    }
  }

  lemma WaitingWrite(s: State, a: Action)
    requires Sane(s) && (a.CallWrite? || a.ResumeWrite?) && !Proceeds(s, a)
    ensures var t := Step(s, a).0;
            && t == s.(error := t.error, callers := t.callers)
            && Gain(s, a) == []
  {
    hide Store;
  }

  lemma SameHistory(s: State, u: State, t: State, gain: seq<byte>)
    requires Sane(s) && Sane(u) && Sane(t) && u.gone == s.gone && Buffered(u) == Buffered(s)
    requires Conserves(u, t, gain, false)
    ensures Conserves(s, t, gain, false)
  {
  }

  lemma SameBuffer(s: State, t: State)
    requires Sane(s) && Sane(t) && t.buffer == s.buffer && t.head == s.head && t.tail == s.tail
    ensures Buffered(t) == Buffered(s)
  {
  }

  lemma GivingUpConserves(s: State, t: State)
    requires Sane(s) && Sane(t) && t.gone == s.gone + Departed(Buffered(s), false) && t.head == t.tail
    ensures Conserves(s, t, [], s.head < s.tail)
  {
    if s.head < s.tail {
      DiscardingConserves(s, t);
    } else {
      NothingBuffered(s, t);
    }
  }

  lemma ResetConserves(s: State)
    requires Inv(s)
    ensures Sane(s) && Sane(DoReset(s)) && Conserves(s, DoReset(s), [], s.head < s.tail)
  {
    OrderIsSane(s);
    hide NotifyAll, Departed, Inv, Conserves;
    NotifyKeepsBuffer(NewHistory(s, Buffered(s)).(error := false, gattBusy := false, pending := NoOperation,
                                                  head := 0, tail := 0));
    GivingUpConserves(s, DoReset(s));
  }

  lemma CallbackConserves(s: State, a: Action)
    requires Inv(s) && (a.OnCharacteristicRead? || a.OnCharacteristicWrite?)
    ensures var t := Step(s, a).0; Sane(s) && Sane(t) && Conserves(s, t, [], Discards(s, a))
  {
    OrderIsSane(s);
    hide NotifyAll, BeginWriteNextChunk, Departed, Inv, Conserves, Buffered;
    var s1, t := s.(pending := NoOperation), Step(s, a).0;
    SameBuffer(s, s1);
    if (if a.OnCharacteristicRead? then !s.pending.Reading? else !s.pending.Writing?) {
      SameIsConserved(s, t);
    } else if a.OnCharacteristicWrite? && !a.success {
      NotifyKeepsBuffer(NewHistory(s1, Buffered(s)).(error := true, gattBusy := false, head := 0, tail := 0));
      GivingUpConserves(s, t);
    } else {
      BeginConserves(s1, a.gattOk);
      SameConserves(s, s1, t, s.head < s.tail && !a.gattOk);
    }
  }

  lemma SameConserves(s: State, u: State, t: State, discards: bool)
    requires Sane(s) && Sane(u) && Sane(t) && u.gone == s.gone && Buffered(u) == Buffered(s)
    requires Conserves(u, t, [], discards)
    ensures Conserves(s, t, [], discards)
  {
  }

  /** All bytes accepted in a run, in order. */
  ghost function Accepted(s: State, actions: seq<Action>): seq<byte>
    requires Inv(s)
    decreases |actions|
  {
    if actions == [] then []
    else
      OrderIsSane(s);
      StepKeepsInv(s, actions[0]);
      Gain(s, actions[0]) + Accepted(Step(s, actions[0]).0, actions[1..])
  }

  /** Conservation over whole runs, across errors and resets. */
  lemma {:induction false} EveryByteIsAccountedFor(s: State, actions: seq<Action>)
    requires Inv(s)
    ensures var t := StepAll(s, actions);
            Sane(s) && Sane(t) && s.gone <= t.gone && Accounted(t) == Accounted(s) + Accepted(s, actions)
    decreases |actions|
  {
    if actions == [] {
      OrderIsSane(s);
      assert Accounted(s) + [] == Accounted(s);
    } else {
      hide *;
      FirstStep(s, actions);
      var s1, gain := Step(s, actions[0]).0, Gain(s, actions[0]);
      StepConserves(s, actions[0]);
      ConservesMeans(s, s1, gain, Discards(s, actions[0]));
      EveryByteIsAccountedFor(s1, actions[1..]);
      Associate(Accounted(s), gain, Accepted(s1, actions[1..]));
    }
  }

  lemma FirstStep(s: State, actions: seq<Action>)
    requires Inv(s) && actions != []
    ensures Sane(s)
    ensures var s1 := Step(s, actions[0]).0;
            && Inv(s1) && StepAll(s, actions) == StepAll(s1, actions[1..])
            && Accepted(s, actions) == Gain(s, actions[0]) + Accepted(s1, actions[1..])
  {
    OrderIsSane(s);
    hide Step, Inv, Gain;
    StepKeepsInv(s, actions[0]);
  }

  lemma ConservesMeans(s: State, t: State, gain: seq<byte>, discards: bool)
    requires Sane(s) && Sane(t) && Conserves(s, t, gain, discards)
    ensures s.gone <= t.gone && Accounted(t) == Accounted(s) + gain
  {
  }

  lemma Associate(a: seq<byte>, b: seq<byte>, c: seq<byte>)
    ensures a + b + c == a + (b + c)
  {
  }

  // When drain() tells the truth

  /** Some step of the run discards bytes, at a moment when fewer than `limit` have left. */
  ghost predicate DiscardsBefore(s: State, actions: seq<Action>, limit: nat)
    requires Inv(s)
    decreases |actions|
  {
    actions != [] && (
      StepKeepsInv(s, actions[0]);
      (Discards(s, actions[0]) && |s.gone| < limit) || DiscardsBefore(Step(s, actions[0]).0, actions[1..], limit))
  }

  lemma FirstDiscard(s: State, actions: seq<Action>, limit: nat)
    requires Inv(s) && actions != []
    ensures Sane(s)
    ensures var s1, d := Step(s, actions[0]).0, Discards(s, actions[0]);
            && Inv(s1)
            && (DiscardsBefore(s, actions, limit)
                <==> (d && |s.gone| < limit) || DiscardsBefore(s1, actions[1..], limit))
            && (DiscardsSome(s, actions) <==> d || DiscardsSome(s1, actions[1..]))
  {
    OrderIsSane(s);
    hide Step, Discards, Inv;
    StepKeepsInv(s, actions[0]);
  }

  lemma {:induction false} NothingBefore(s: State, actions: seq<Action>, limit: nat)
    requires Inv(s) && limit <= |s.gone|
    ensures !DiscardsBefore(s, actions, limit)
    decreases |actions|
  {
    if actions != [] {
      FirstDiscard(s, actions, limit);
      hide *;
      GoneGrows(s, actions[0]);
      NothingBefore(Step(s, actions[0]).0, actions[1..], limit);
    }
  }

  lemma GoneGrows(s: State, a: Action)
    requires Inv(s)
    ensures Sane(s) && s.gone <= Step(s, a).0.gone
    ensures Discards(s, a) ==> |s.gone| < |Step(s, a).0.gone| && !Step(s, a).0.gone[|s.gone|].handed
    ensures !Discards(s, a) ==> AllHanded(Step(s, a).0.gone[|s.gone|..])
  {
    OrderIsSane(s);
    StepConserves(s, a);
    hide Step, Inv, Gain, Accounted;
  }

  /** Of the first `m` bytes that leave, those that leave in a run are all handed over if and only
      if no step discards while fewer than `m` have left. */
  lemma {:induction false} HandedOverIff(s: State, actions: seq<Action>, m: nat)
    requires Inv(s) && |s.gone| <= m <= |StepAll(s, actions).gone|
    ensures s.gone <= StepAll(s, actions).gone
    ensures AllHanded(StepAll(s, actions).gone[|s.gone|..m]) <==> !DiscardsBefore(s, actions, m)
    decreases |actions|
  {
    if actions != [] {
      FirstStep(s, actions);
      FirstDiscard(s, actions, m);
      hide *;
      var s1, rest, t := Step(s, actions[0]).0, actions[1..], StepAll(s, actions);
      GoneGrows(s, actions[0]);
      EveryByteIsAccountedFor(s1, rest);
      if m <= |s1.gone| {
        NothingBefore(s1, rest, m);
        HandedOverFirst(s.gone, s1.gone, t.gone, m);
      } else {
        HandedOverIff(s1, rest, m);
        HandedOverSplit(s.gone, s1.gone, t.gone, m);
      }
    }
  }

  lemma HandedOverSplit(g: seq<Departure>, g1: seq<Departure>, h: seq<Departure>, m: nat)
    requires g <= g1 <= h && |g1| <= m <= |h|
    ensures AllHanded(h[|g|..m]) <==> AllHanded(g1[|g|..]) && AllHanded(h[|g1|..m])
    ensures |g| < |g1| && !g1[|g|].handed ==> !AllHanded(g1[|g|..])
  {
    assert h[|g|..m] == g1[|g|..] + h[|g1|..m];
    AllHandedConcat(g1[|g|..], h[|g1|..m]);
  }

  lemma HandedOverFirst(g: seq<Departure>, g1: seq<Departure>, h: seq<Departure>, m: nat)
    requires g <= g1 <= h && |g| <= m <= |g1|
    ensures AllHanded(g1[|g|..]) ==> AllHanded(h[|g|..m])
    ensures |g| < m && !g1[|g|].handed ==> !AllHanded(h[|g|..m])
  {
    if |g| < m {
      assert h[|g|..m][0] == g1[|g|];
    }
    assert forall i :: 0 <= i < m - |g| ==> h[|g|..m][i] == g1[|g|..][i];
  }

  lemma AllHandedConcat(a: seq<Departure>, b: seq<Departure>)
    ensures AllHanded(a + b) <==> AllHanded(a) && AllHanded(b)
  {
    var c := a + b;
    assert forall i :: 0 <= i < |a| ==> c[i] == a[i];
    assert forall i :: 0 <= i < |b| ==> c[|a| + i] == b[i];
  }

  /** drain() looks at the error flag only on entry, so when it returns true it promises only that
      the buffer is empty.  It is right about the bytes that were in the buffer at any earlier
      moment `s`, such as its call, if and only if since then no step discarded the buffer while
      one of them was left; and about all bytes accepted up to its return if and only if no step
      discarded anything. */
  lemma DrainTellsTheTruthIff(s: State, actions: seq<Action>, a: Action)
    requires Inv(s) && (a.CallDrain? || a.ResumeDrain?)
    requires Step(StepAll(s, actions), a).1 == Returns(1)
    ensures var t, n, k := StepAll(s, actions), |s.gone|, s.tail - s.head;
            && 0 <= k && n + k <= |t.gone| && s.gone <= t.gone
            && Sane(s) && Bytes(t.gone) == Accounted(s) + Accepted(s, actions)
            && Bytes(t.gone[n..n + k]) == Buffered(s)
            && (AllHanded(t.gone[n..n + k]) <==> !DiscardsBefore(s, actions, n + k))
            && (AllHanded(t.gone[n..]) <==> !DiscardsSome(s, actions))
  {
    hide *;
    InvIsSane(s);
    var t, n, k, more := StepAll(s, actions), |s.gone|, s.tail - s.head, Accepted(s, actions);
    DrainedIsEmpty(t, a);
    EveryByteIsAccountedFor(s, actions);
    DrainedLengths(s, t, more);
    FirstBytes(s.gone, t.gone, Buffered(s), more);
    HandedOverIff(s, actions, n + k);
    HandedOverIff(s, actions, |t.gone|);
    assert t.gone[n..|t.gone|] == t.gone[n..];
    LimitAtTheEnd(s, actions);
  }

  lemma DrainedLengths(s: State, t: State, more: seq<byte>)
    requires Sane(s) && Bytes(t.gone) == Accounted(s) + more
    ensures |Buffered(s)| == s.tail - s.head >= 0 && |s.gone| + |Buffered(s)| <= |t.gone|
    ensures Bytes(t.gone) == Bytes(s.gone) + Buffered(s) + more
  {
    assert |Bytes(t.gone)| == |t.gone| && |Bytes(s.gone)| == |s.gone|;
  }

  lemma FirstBytes(g: seq<Departure>, h: seq<Departure>, buffered: seq<byte>, more: seq<byte>)
    requires g <= h && Bytes(h) == Bytes(g) + buffered + more
    ensures Bytes(h[|g|..|g| + |buffered|]) == buffered
  {
    var r := Bytes(h[|g|..|g| + |buffered|]);
    forall i | 0 <= i < |buffered|
      ensures r[i] == buffered[i]
    {
      assert r[i] == h[|g| + i].b == Bytes(h)[|g| + i];
    }
  }

  lemma DrainedIsEmpty(t: State, a: Action)
    requires Inv(t) && (a.CallDrain? || a.ResumeDrain?) && Step(t, a).1 == Returns(1)
    ensures Sane(t) && Accounted(t) == Bytes(t.gone)
  {
    OrderIsSane(t);
    hide Inv;
    assert t.head == t.tail;
    assert Bytes(t.gone) + [] == Bytes(t.gone);
  }

  /** Some step of the run discards bytes. */
  ghost predicate DiscardsSome(s: State, actions: seq<Action>)
    requires Inv(s)
    decreases |actions|
  {
    actions != [] && (
      StepKeepsInv(s, actions[0]);
      Discards(s, actions[0]) || DiscardsSome(Step(s, actions[0]).0, actions[1..]))
  }

  lemma {:induction false} LimitAtTheEnd(s: State, actions: seq<Action>)
    requires Inv(s)
    ensures DiscardsSome(s, actions) <==> DiscardsBefore(s, actions, |StepAll(s, actions).gone|)
    decreases |actions|
  {
    if actions != [] {
      FirstStep(s, actions);
      FirstDiscard(s, actions, |StepAll(s, actions).gone|);
      hide *;
      var s1 := Step(s, actions[0]).0;
      GoneGrows(s, actions[0]);
      EveryByteIsAccountedFor(s1, actions[1..]);
      LimitAtTheEnd(s1, actions[1..]);
    }
  }

  /** As long as the stack succeeds, its callbacks alone hand over the whole buffer. */
  function Flushed(s: State): (t: State)
    requires Inv(s)
    ensures Inv(t) && t.pending == NoOperation
    ensures t.accepted == s.accepted == Concat(t.chunks)
    ensures Sane(s) && t.gone == s.gone + Departed(Buffered(s), true)
    decreases s.tail - s.head + (if s.pending == NoOperation then 0 else 1)
  {
    if s.pending == NoOperation then
      assert Buffered(s) == [];
      assert s.gone + Departed([], true) == s.gone;
      s
    else
      var a := if s.pending.Reading? then OnCharacteristicRead(true) else OnCharacteristicWrite(true, true);
      StepKeepsInv(s, a);
      CallbackMakesProgress(s);
      Flushed(Step(s, a).0)
  }

  lemma CallbackMakesProgress(s: State)
    requires Inv(s) && s.pending != NoOperation
    ensures var a := if s.pending.Reading? then OnCharacteristicRead(true) else OnCharacteristicWrite(true, true);
            var t := Step(s, a).0;
            t.accepted == s.accepted && Sane(s) && Sane(t)
            && t.gone + Departed(Buffered(t), true) == s.gone + Departed(Buffered(s), true)
            && (if s.head == s.tail then t.pending == NoOperation && t.head == t.tail
                else t.tail - t.head < s.tail - s.head)
  {
    OrderIsSane(s);
    hide BeginWriteNextChunk, Departed, Buffered, Inv;
    var s1 := s.(pending := NoOperation);
    SameBuffer(s, s1);
    BeginProgresses(s1);
  }

  lemma BeginProgresses(s: State)
    requires Sane(s) && s.pending == NoOperation
    ensures var t := BeginWriteNextChunk(s, true).0;
            t.accepted == s.accepted && Sane(t)
            && t.gone + Departed(Buffered(t), true) == s.gone + Departed(Buffered(s), true)
            && (if s.head == s.tail then t.pending == NoOperation && t.head == t.tail
                else t.tail - t.head < s.tail - s.head)
  {
    assert 0 <= s.head <= s.tail <= |s.buffer|;
    hide *;
    BeginConserves(s, true);
    BeginKeepsAccepted(s);
    if s.head < s.tail {
      ChunkSizeFits(s);
      HandedAndRest(s, BeginWriteNextChunk(s, true).0, s.head + ChunkSize(s));
    } else {
      BeginIdle(s);
      SameBuffer(s, BeginWriteNextChunk(s, true).0);
    }
  }

  lemma HandedAndRest(s: State, t: State, head: int)
    requires Sane(s) && Sane(t) && s.head <= head <= s.tail
    requires t.gone == s.gone + Departed(s.buffer[s.head..head], true)
    requires t.head == head && t.tail == s.tail && t.buffer == s.buffer
    ensures t.gone + Departed(Buffered(t), true) == s.gone + Departed(Buffered(s), true)
  {
    hide Departed;
    ChunkAndRest(s.gone, s.buffer[s.head..head], s.buffer[head..s.tail]);
    SplitSlice(s.buffer, s.head, head, s.tail);
  }

  lemma ChunkSizeFits(s: State)
    requires Sane(s) && s.head < s.tail
    ensures 0 < ChunkSize(s) <= s.tail - s.head && s.tail <= |s.buffer|
  {
  }

  lemma BeginIdle(s: State)
    requires Sane(s) && s.head == s.tail
    ensures BeginWriteNextChunk(s, true).0 == s.(gattBusy := false)
  {
  }

  lemma BeginKeepsAccepted(s: State)
    requires Sane(s)
    ensures BeginWriteNextChunk(s, true).0.accepted == s.accepted
  {
    hide NotifyAll;
    if s.head < s.tail {
      var t := s.(gattBusy := false, head := s.head + ChunkSize(s));
      NotifyKeepsFlags(Handed(t, s.buffer[s.head..t.head]));
    }
  }

  lemma ChunkAndRest(gone: seq<Departure>, chunk: seq<byte>, rest: seq<byte>)
    ensures gone + Departed(chunk, true) + Departed(rest, true) == gone + Departed(chunk + rest, true)
  {
    assert Departed(chunk, true) + Departed(rest, true) == Departed(chunk + rest, true);
  }

  /** drain() reports success only with an empty buffer: everything accepted since the last error
      or reset was handed to the stack, and everything accepted before has left in order. */
  lemma DrainMeansHandedOver(actions: seq<Action>, a: Action)
    requires a.CallDrain? || a.ResumeDrain?
    requires Step(Run(actions), a).1 == Returns(1)
    ensures Run(actions).accepted == Concat(Run(actions).chunks)
    ensures Inv(Init()) && Bytes(Run(actions).gone) == Accepted(Init(), actions)
    ensures AllHanded(Run(actions).gone) <==> !DiscardsSome(Init(), actions)
  {
    assert Inv(Init());
    DrainTellsTheTruthIff(Init(), actions, a);
    var g := Run(actions).gone;
    assert g[0..] == g && Bytes([]) + [] == [];
  }

  // What the error flag says

  /** The guard of the branches that end in setError(). */
  predicate Fails(s: State, a: Action) {
    match a
    case OnCharacteristicRead(gattOk) => s.pending.Reading? && !gattOk && s.head < s.tail
    case OnCharacteristicWrite(success, gattOk) =>
      s.pending.Writing? && (!success || (!gattOk && s.head < s.tail))
    case ResumeWrite(id, _, interrupted, gattOk) =>
      && id in s.callers && s.callers[id].Writer? && !interrupted && !Full(s)
      && !s.gattBusy && !s.callers[id].hasDeviceName && !gattOk
    case _ => false
  }

  /** Neither consumes the error flag nor resets the port. */
  predicate LeavesFlag(a: Action) {
    !a.CallWrite? && !a.CallDrain? && !a.Reset?
  }

  predicate Extends(s: State, t: State) {
    s.accepted <= t.accepted && s.chunks <= t.chunks && s.gone <= t.gone && AllHanded(t.gone[|s.gone|..])
  }

  lemma BeginFails(s: State, gattOk: bool)
    requires Sane(s)
    ensures var t := BeginWriteNextChunk(s, gattOk).0;
            && t.error == (s.error || (!gattOk && s.head < s.tail))
            && (gattOk || s.head == s.tail ==> Extends(s, t))
  {
    hide NotifyAll;
    var t := s.(gattBusy := false, head := s.head + (if s.head == s.tail then 0 else ChunkSize(s)));
    var e := NewHistory(t, Buffered(s)).(error := true, gattBusy := false, head := 0, tail := 0);
    NotifyKeepsFlags(e);
    var u := Handed(t, s.buffer[s.head..t.head]);
    NotifyKeepsFlags(u);
    NotifyKeepsBuffer(u);
  }

  lemma StoreFails(s: State, data: seq<byte>, hasDeviceName: bool, gattOk: bool)
    requires Sane(s) && !Full(s) && data != [] && (!s.gattBusy ==> s.head == s.tail)
    ensures var t := Store(s, data, hasDeviceName, gattOk).0;
            var fails := !s.gattBusy && !hasDeviceName && !gattOk;
            t.error == (s.error || fails) && (!fails ==> Extends(s, t))
  {
    var s2 := Appended(s, data);
    AppendedKeepsRest(s, data);
    AppendedIsMore(s, data);
    hide NotifyAll, BeginWriteNextChunk, Append, Shift, Departed, Extends, NewHistory, Buffered;
    var t := Store(s, data, hasDeviceName, gattOk).0;
    if s.gattBusy || (hasDeviceName && gattOk) {
      SameLogsExtend(s, t);
    } else if hasDeviceName {
      var c := s2.(accepted := s.accepted, gone := NewHistory(s, Buffered(s)).gone, head := 0, tail := 0);
      NothingIsLost(s);
      NotifyKeepsFlags(c);
      NotifyKeepsBuffer(c);
      SameLogsExtend(s, t);
    } else {
      BeginFails(s2, gattOk);
      BeginSucceeds(s2, gattOk);
      ExtendsFurther(s, s2, t);
    }
  }

  lemma SameLogsExtend(s: State, t: State)
    requires s.accepted <= t.accepted && t.chunks == s.chunks && t.gone == s.gone
    ensures Extends(s, t)
  {
  }

  lemma ExtendsFurther(s: State, u: State, t: State)
    requires s.accepted <= u.accepted && u.chunks == s.chunks && u.gone == s.gone
    ensures Extends(u, t) ==> Extends(s, t)
  {
  }

  lemma NothingIsLost(s: State)
    requires Sane(s) && s.head == s.tail
    ensures NewHistory(s, Buffered(s)).gone == s.gone
  {
  }

  lemma AppendedIsMore(s: State, data: seq<byte>)
    requires Sane(s) && !Full(s) && data != []
    ensures var t := Appended(s, data);
            Sane(t) && t.head < t.tail && s.accepted <= t.accepted
  {
  }

  lemma ResumedWriteFails(s: State, a: Action)
    requires Inv(s) && a.ResumeWrite?
    ensures var t := Step(s, a).0;
            t.error == (s.error || Fails(s, a)) && (!Fails(s, a) ==> Extends(s, t))
  {
    OrderIsSane(s);
    assert forall id :: id in s.callers && s.callers[id].Writer? ==> s.callers[id].data != [];
    assert !s.gattBusy ==> s.head == s.tail;
    hide Inv, Store, NotifyAll;
    if Proceeds(s, a) {
      ProceedingWrite(s, a);
      StoreFails(Proceeding(s, a), Written(s, a), NameOf(s, a), a.gattOk);
      hide Step;
    }
  }

  lemma CallbackFails(s: State, a: Action)
    requires Inv(s) && (a.OnCharacteristicRead? || a.OnCharacteristicWrite?)
    ensures var t := Step(s, a).0;
            t.error == (s.error || Fails(s, a)) && (!Fails(s, a) ==> Extends(s, t))
  {
    OrderIsSane(s);
    hide NotifyAll, BeginWriteNextChunk, Inv;
    var s1 := s.(pending := NoOperation);
    BeginFails(s1, a.gattOk);
    if a.OnCharacteristicWrite? {
      NotifyKeepsFlags(NewHistory(s1, Buffered(s)).(error := true, gattBusy := false, head := 0, tail := 0));
    }
  }

  lemma StepFails(s: State, a: Action)
    requires Inv(s) && LeavesFlag(a)
    ensures var t := Step(s, a).0;
            t.error == (s.error || Fails(s, a)) && (!Fails(s, a) ==> Extends(s, t))
  {
    OrderIsSane(s);
    if a.ResumeWrite? {
      ResumedWriteFails(s, a);
    } else if a.OnCharacteristicRead? || a.OnCharacteristicWrite? {
      CallbackFails(s, a);
    } else {
      hide Inv;
    }
  }

  ghost predicate SomeFailure(s: State, actions: seq<Action>)
    requires Inv(s)
    decreases |actions|
  {
    actions != [] && (
      StepKeepsInv(s, actions[0]);
      Fails(s, actions[0]) || SomeFailure(Step(s, actions[0]).0, actions[1..]))
  }

  /** As long as no call consumes the error flag and the port is not reset, the flag is up exactly
      if a request failed, and nothing was discarded while it is down.  It says more than that of
      drain(): a failure with an empty buffer raises it too, and another caller may consume it. */
  lemma {:induction false} ErrorFlagTellsTheTruth(s: State, actions: seq<Action>)
    requires Inv(s) && !s.error && forall i :: 0 <= i < |actions| ==> LeavesFlag(actions[i])
    ensures var t := StepAll(s, actions);
            (!t.error <==> !SomeFailure(s, actions)) && (!t.error ==> Extends(s, t))
    decreases |actions|
  {
    if actions != [] {
      hide Step, Fails;
      StepFails(s, actions[0]);
      StepKeepsInv(s, actions[0]);
      var s1 := Step(s, actions[0]).0;
      if !s1.error {
        ErrorFlagTellsTheTruth(s1, actions[1..]);
      } else {
        ErrorStays(s1, actions[1..]);
      }
    }
  }

  lemma {:induction false} ErrorStays(s: State, actions: seq<Action>)
    requires Inv(s) && s.error && forall i :: 0 <= i < |actions| ==> LeavesFlag(actions[i])
    ensures StepAll(s, actions).error
    decreases |actions|
  {
    if actions != [] {
      hide Step, Fails;
      StepFails(s, actions[0]);
      StepKeepsInv(s, actions[0]);
      ErrorStays(Step(s, actions[0]).0, actions[1..]);
    }
  }

  /** drain() can return true although bytes were discarded while it slept: of 40 accepted bytes the
      last 20 are, and only the next drain() reports the error. */
  lemma DrainCanHideAnError(data: seq<byte>)
    requires |data| == 40
    ensures var s1 := Step(Init(), CallWrite(1, data, false, true)).0;
            var s2 := Step(s1, CallDrain(2)).0;
            var s3 := Step(s2, OnCharacteristicWrite(false, true)).0;
            var (s4, o) := Step(s3, ResumeDrain(2, true, false));
            && s1.accepted == data && s3.gone == Departed(data[..20], true) + Departed(data[20..], false)
            && o == Returns(1)
            && Step(s4, CallDrain(2)).1 == Returns(0)
  {
    var s1 := Step(Init(), CallWrite(1, data, false, true)).0;
    assert Room(Init(), data) == 40 && data[..40] == data;
    assert s1.head == 20 && s1.tail == 40 && s1.pending == Writing && s1.callers == map[];
    assert s1.buffer[..40] == data && s1.gone == Departed(data[..20], true);
    var s2 := Step(s1, CallDrain(2)).0;
    assert s2.callers == map[2 := Drainer(false)];
    var s3 := Step(s2, OnCharacteristicWrite(false, true)).0;
    assert Buffered(s2) == data[20..];
    assert s3.callers == map[2 := Drainer(true)] && s3.head == s3.tail && s3.error;
  }

  /** A refused chunk takes all accepted bytes with it, and drain() returns true. */
  lemma DrainCanHideARefusedChunk(data: seq<byte>)
    requires |data| == 10
    ensures var (s1, n) := Step(Init(), CallWrite(1, data, true, true));
            var s2 := Step(s1, CallDrain(2)).0;
            var s3 := Step(s2, OnCharacteristicRead(false)).0;
            && n == Returns(10) && s3.gone == Departed(data, false)
            && Step(s3, ResumeDrain(2, true, false)).1 == Returns(1)
  {
    var s1 := Step(Init(), CallWrite(1, data, true, true)).0;
    assert Room(Init(), data) == 10 && data[..10] == data;
    assert s1.head == 0 && s1.tail == 10 && s1.pending == Reading && s1.callers == map[] && s1.gone == [];
    assert Buffered(s1) == data;
    var s2 := Step(s1, CallDrain(2)).0;
    assert s2.callers == map[2 := Drainer(false)];
    var s3 := Step(s2, OnCharacteristicRead(false)).0;
    assert s3.callers == map[2 := Drainer(true)] && s3.head == s3.tail;
  }

  // The code

  class WriteBuffer {
    var mtu: int
    const buffer: array<byte>
    var head: int
    var tail: int
    var lastChunkWriteError: bool
    var gattBusy: bool

    ghost var callers: map<int, Caller>
    ghost var pending: Operation
    ghost var clash: bool
    ghost var accepted: seq<byte>
    ghost var chunks: seq<seq<byte>>
    ghost var gone: seq<Departure>

    ghost function View(): State
      reads this, buffer
    {
      State(buffer[..], head, tail, mtu, lastChunkWriteError, gattBusy,
            callers, pending, clash, accepted, chunks, gone)
    }

    ghost predicate Valid()
      reads this, buffer
    {
      buffer.Length == BUFFER_SIZE && Inv(View())
    }

    constructor ()
      ensures Valid() && fresh(buffer) && View() == Init()
    {
      buffer := new byte[BUFFER_SIZE](_ => 0);
      mtu, head, tail, lastChunkWriteError, gattBusy := DEFAULT_MTU, 0, 0, false, false;
      callers, pending, clash, accepted, chunks, gone := map[], NoOperation, false, [], [], [];
    }

    ghost method Notify()
      modifies this`callers
      ensures View() == NotifyAll(old(View()))
    {
      callers := map id | id in callers :: callers[id].(awake := true);
    }

    ghost method RecordOperation(op: Operation)
      modifies this`pending, this`clash
      ensures View() == StartOperation(old(View()), op)
    {
      clash := clash || pending != NoOperation;
      pending := op;
    }

    ghost method RecordChunk(chunk: seq<byte>)
      modifies this`chunks, this`gone
      ensures View() == old(View()).(chunks := old(chunks) + [chunk], gone := old(gone) + Departed(chunk, true))
    {
      chunks, gone := chunks + [chunk], gone + Departed(chunk, true);
    }

    ghost method ForgetHistory(lost: seq<byte>)
      modifies this`accepted, this`chunks, this`gone
      ensures View() == NewHistory(old(View()), lost)
    {
      accepted, chunks, gone := [], [], gone + Departed(lost, false);
    }

    method ClearBuffer()
      modifies this`head, this`tail, this`callers
      ensures View() == Clear(old(View()))
    {
      head, tail := 0, 0;
      Notify();
    }

    /** setError(); `lost` are the accepted bytes that are given up. */
    method RaiseError(ghost lost: seq<byte>)
      modifies this
      ensures View() == SetError(old(View()), lost)
    {
      ForgetHistory(lost);
      lastChunkWriteError := true;
      gattBusy := false;
      ClearBuffer();
    }

    method ResetBuffer()
      requires Valid()
      modifies this
      ensures Valid() && View() == Step(old(View()), Reset).0
    {
      StepKeepsInv(View(), Reset);
      InvIsSane(View());
      hide Inv;
      ForgetHistory(buffer[head..tail]);
      pending := NoOperation;
      lastChunkWriteError := false;
      gattBusy := false;
      ClearBuffer();
    }

    /** The chunk is what the source passes to writeCharacteristic(), `gattOk` its answer. */
    method BeginChunk(gattOk: bool) returns (ok: bool, chunk: seq<byte>)
      requires buffer.Length == BUFFER_SIZE && Sane(View())
      modifies this
      ensures (View(), ok) == BeginWriteNextChunk(old(View()), gattOk)
      ensures ok ==> chunks == old(chunks) + [chunk]
    {
      hide NotifyAll, Departed;
      gattBusy := false;
      chunk := [];
      if head == tail {
        return false, [];
      }
      ghost var buffered := buffer[head..tail];
      var nbytes := if tail - head <= mtu then tail - head else mtu;
      chunk := buffer[head..head + nbytes];
      head := head + nbytes;
      if !gattOk {
        RaiseError(buffered);
        return false, [];
      }
      gattBusy := true;
      RecordOperation(Writing);
      RecordChunk(chunk);
      Notify();
      ok := true;
    }

    method ShiftBuffer()
      requires buffer.Length == BUFFER_SIZE && Sane(View())
      modifies this`head, this`tail, buffer
      ensures View() == Shift(old(View())) && Sane(View())
    {
      forall i | 0 <= i < tail - head {
        buffer[i] := buffer[head + i];
      }
      tail := tail - head;
      head := 0;
      assert buffer[..] == old(buffer[head..tail]) + old(buffer[tail - head..]);
    }

    method AppendData(data: seq<byte>) returns (nbytes: int)
      requires buffer.Length == BUFFER_SIZE && Sane(View())
      modifies this`tail, this`accepted, buffer
      ensures View() == Append(old(View()), data) && nbytes == Room(old(View()), data) && Sane(View())
    {
      nbytes := if |data| <= BUFFER_SIZE - tail then |data| else BUFFER_SIZE - tail;
      forall i | 0 <= i < nbytes {
        buffer[tail + i] := data[i];
      }
      accepted := accepted + data[..nbytes];
      tail := tail + nbytes;
      assert buffer[..] == old(buffer[..tail]) + data[..nbytes] + old(buffer[tail + nbytes..]);
    }

    /** The part of write() after drainSome(). */
    method StoreData(data: seq<byte>, hasDeviceName: bool, gattOk: bool) returns (o: Outcome)
      requires buffer.Length == BUFFER_SIZE && Sane(View())
      modifies this, buffer
      ensures (View(), o) == Store(old(View()), data, hasDeviceName, gattOk)
    {
      hide BeginWriteNextChunk, NotifyAll, Shift, Append, Departed;
      ghost var before, goneBefore := accepted, gone + Departed(buffer[head..tail], false);
      if head > 0 {
        ShiftBuffer();
      }
      var nbytes := AppendData(data);
      if !gattBusy {
        if hasDeviceName {
          if !gattOk {
            accepted, gone := before, goneBefore;
            ClearBuffer();
            return Returns(0);
          }
          RecordOperation(Reading);
        } else {
          var ok, _ := BeginChunk(gattOk);
          if !ok {
            gone := goneBefore;
            return Returns(0);
          }
          return Returns(nbytes);
        }
        gattBusy := true;
      }
      o := Returns(nbytes);
    }

    /** write(), up to the point where it returns or waits. */
    method Write(ghost id: int, data: seq<byte>, hasDeviceName: bool, gattOk: bool) returns (o: Outcome)
      requires Valid() && id !in callers && data != []
      modifies this, buffer
      ensures Valid() && (View(), o) == Step(old(View()), CallWrite(id, data, hasDeviceName, gattOk))
    {
      StepKeepsInv(View(), CallWrite(id, data, hasDeviceName, gattOk));
      InvIsSane(View());
      hide Inv, Store;
      if lastChunkWriteError {
        lastChunkWriteError := false;
        return Returns(0);
      }
      if head == 0 && tail == BUFFER_SIZE {
        callers := callers[id := Writer(data, hasDeviceName, false)];
        return Waits;
      }
      o := StoreData(data, hasDeviceName, gattOk);
    }

    /** The rest of a write() that waited. */
    method FinishWrite(ghost id: int, data: seq<byte>, hasDeviceName: bool, timeLeft: bool, interrupted: bool,
                       gattOk: bool) returns (o: Outcome)
      requires Valid() && id in callers && callers[id].Writer?
      requires callers[id].data == data && callers[id].hasDeviceName == hasDeviceName
      modifies this, buffer
      ensures Valid() && (View(), o) == Step(old(View()), ResumeWrite(id, timeLeft, interrupted, gattOk))
    {
      StepKeepsInv(View(), ResumeWrite(id, timeLeft, interrupted, gattOk));
      InvIsSane(View());
      ResumedWrite(View(), id, timeLeft, interrupted, gattOk);
      ghost var s := View();
      assert Full(s) <==> head == 0 && tail == BUFFER_SIZE;
      assert Leave(s, id) == s.(callers := callers - {id});
      hide Inv, Store, Step, Sane, Full, Leave;
      if !interrupted && head == 0 && tail == BUFFER_SIZE && timeLeft {
        callers := callers[id := Writer(data, hasDeviceName, false)];
        o := Waits;
      } else {
        callers := callers - {id};
        assert View() == Leave(s, id);
        if interrupted || (head == 0 && tail == BUFFER_SIZE) {
          o := Returns(0);
        } else {
          o := StoreData(data, hasDeviceName, gattOk);
        }
      }
    }

    method Drain(ghost id: int) returns (o: Outcome)
      requires Valid() && id !in callers
      modifies this`callers, this`lastChunkWriteError
      ensures Valid() && (View(), o) == Step(old(View()), CallDrain(id))
    {
      StepKeepsInv(View(), CallDrain(id));
      InvIsSane(View());
      hide Inv;
      if lastChunkWriteError {
        lastChunkWriteError := false;
        return Returns(AsInt(false));
      }
      if head != tail {
        callers := callers[id := Drainer(false)];
        return Waits;
      }
      o := Returns(AsInt(true));
    }

    method ResumeDraining(ghost id: int, timeLeft: bool, interrupted: bool) returns (o: Outcome)
      requires Valid() && id in callers && callers[id].Drainer?
      modifies this`callers
      ensures Valid() && (View(), o) == Step(old(View()), ResumeDrain(id, timeLeft, interrupted))
    {
      StepKeepsInv(View(), ResumeDrain(id, timeLeft, interrupted));
      InvIsSane(View());
      hide Inv;
      if !interrupted && head != tail && timeLeft {
        callers := callers[id := Drainer(false)];
        return Waits;
      }
      callers := callers - {id};
      o := Returns(AsInt(!interrupted && head == tail));
    }

    // The callbacks of BleSerialPort

    method MtuChanged(attMtu: int, success: bool)
      requires Valid()
      modifies this`mtu
      ensures Valid() && View() == Step(old(View()), OnMtuChanged(attMtu, success)).0
    {
      StepKeepsInv(View(), OnMtuChanged(attMtu, success));
      InvIsSane(View());
      hide Inv;
      if success && attMtu > ATT_HEADER_SIZE {
        mtu := attMtu - ATT_HEADER_SIZE;
      }
    }

    method CharacteristicRead(gattOk: bool)
      requires Valid() && pending.Reading?
      modifies this
      ensures Valid() && View() == Step(old(View()), OnCharacteristicRead(gattOk)).0
    {
      StepKeepsInv(View(), OnCharacteristicRead(gattOk));
      InvIsSane(View());
      hide Inv, BeginWriteNextChunk;
      pending := NoOperation;
      var _, _ := BeginChunk(gattOk);
    }

    method CharacteristicWrite(success: bool, gattOk: bool)
      requires Valid() && pending.Writing?
      modifies this
      ensures Valid() && View() == Step(old(View()), OnCharacteristicWrite(success, gattOk)).0
    {
      StepKeepsInv(View(), OnCharacteristicWrite(success, gattOk));
      InvIsSane(View());
      hide Inv, BeginWriteNextChunk, SetError;
      pending := NoOperation;
      if success {
        var _, _ := BeginChunk(gattOk);
      } else {
        RaiseError(buffer[head..tail]);
      }
    }
  }

  lemma ResumedWrite(s: State, id: int, timeLeft: bool, interrupted: bool, gattOk: bool)
    requires Sane(s) && id in s.callers && s.callers[id].Writer?
    ensures var c := s.callers[id];
            && Sane(Leave(s, id))
            && Step(s, ResumeWrite(id, timeLeft, interrupted, gattOk))
               == if !interrupted && Full(s) && timeLeft
                  then (s.(callers := s.callers[id := c.(awake := false)]), Waits)
                  else if interrupted || Full(s) then (Leave(s, id), Returns(0))
                  else Store(Leave(s, id), c.data, c.hasDeviceName, gattOk)
  {
    hide Store, NotifyAll;
  }

  lemma InvIsSane(s: State)
    requires Inv(s)
    ensures Sane(s)
  {
  }
}
