/** The Android output buffer (android/src/OutputThread.java): any number of writers and drainers
    share a 256-byte buffer with one output thread, which copies bytes under the monitor, writes
    them without it, and only then advances `head`.

    The class holds the code, one method for each stretch of code that runs inside the monitor
    without waiting.  Its methods are proved against `Step`, and the lemmas are about every
    sequence of steps. */
module OutputThread {
  import opened Common

  const BUFFER_SIZE := 256

  /** Where the output thread is in run().  `written` counts the bytes of the current chunk that
      the stream has taken; a stream may take a chunk piecemeal before it returns or throws. */
  datatype Pc =
    | Sleeping
    | Ready
    | Writing(chunk: seq<byte>, written: nat)
    | Failing(written: nat)
    | Finished(written: nat)

  /** A call that waits; `awake` means that it was notified since. */
  datatype Caller = Writer(data: seq<byte>, awake: bool) | Drainer(awake: bool)

  datatype State = State(buffer: seq<byte>, head: int, tail: int, open: bool, timeout: int,
                         thread: Pc, callers: map<int, Caller>,
                         accepted: seq<byte>, stream: seq<byte>)

  datatype Action =
    | CallWrite(id: int, data: seq<byte>)
    | ResumeWrite(id: int, interrupted: bool)
    | CallDrain(id: int)
    | ResumeDrain(id: int, timeLeft: bool, interrupted: bool)
    | SetTimeout(value: int)
    | Close
    | Wake                    // the thread's wait() ends without a notification
    | Take                    // the thread enters the monitor at the top of its loop
    | StreamTakes(n: nat)     // the stream accepts n more bytes of the chunk
    | StreamThrows
    | ThreadDies              // an exception that run() does not catch
    | Advance
    | HandleException

  /** What a call does in a step: it returns a value, or it waits. */
  datatype Outcome = Returns(value: int) | Waits | NoCall

  const FAILED := -1

  function Init(): State {
    State(seq(BUFFER_SIZE, _ => 0), 0, 0, true, 0, Ready, map[], [], [])
  }

  function NotifyAll(s: State): State {
    s.(thread := if s.thread == Sleeping then Ready else s.thread,
       callers := map id | id in s.callers :: s.callers[id].(awake := true))
  }

  predicate Sane(s: State) {
    |s.buffer| == BUFFER_SIZE && 0 <= s.head <= s.tail <= BUFFER_SIZE
  }

  function Shift(s: State): State
    requires Sane(s)
  {
    s.(buffer := s.buffer[s.head..s.tail] + s.buffer[s.tail - s.head..], head := 0, tail := s.tail - s.head)
  }

  function Room(s: State, data: seq<byte>): (n: int)
    requires Sane(s)
    ensures 0 <= n <= |data| && s.tail + n <= BUFFER_SIZE
  {
    if |data| <= BUFFER_SIZE - s.tail then |data| else BUFFER_SIZE - s.tail
  }

  /** Store as much as there is room for. */
  function Append(s: State, data: seq<byte>): State
    requires Sane(s)
  {
    var n := Room(s, data);
    var s1 := s.(buffer := s.buffer[..s.tail] + data[..n] + s.buffer[s.tail + n..],
                 tail := s.tail + n, accepted := s.accepted + data[..n]);
    if s.head == s.tail then NotifyAll(s1) else s1
  }

  function Leave(s: State, id: int): State {
    s.(callers := s.callers - {id})
  }

  function DrainDone(s: State): bool {
    !(s.open && s.head < s.tail)
  }

  function DoClose(s: State): State {
    if s.open then NotifyAll(s.(open := false)) else s
  }

  function AsInt(b: bool): int {
    if b then 1 else 0
  }

  function Step(s: State, a: Action): (State, Outcome)
    requires Sane(s)
  {
    match a
    case CallWrite(id, data) =>
      if id in s.callers then (s, NoCall)
      else if !s.open then (s, Returns(FAILED))
      else if s.tail >= BUFFER_SIZE && s.head == 0 then
        if s.timeout <= 0 then (s, Returns(FAILED))
        else (s.(callers := s.callers[id := Writer(data, false)]), Waits)
      else
        var s1 := if s.tail >= BUFFER_SIZE then Shift(s) else s;
        (Append(s1, data), Returns(Room(s1, data)))
    case ResumeWrite(id, interrupted) =>
      if id !in s.callers || !s.callers[id].Writer? then (s, NoCall)
      else
        var s1 := Leave(s, id);
        if interrupted || !s.open || s.head == 0 then (s1, Returns(FAILED))
        else (Append(Shift(s1), s.callers[id].data), Returns(Room(Shift(s1), s.callers[id].data)))
    case CallDrain(id) =>
      if id in s.callers then (s, NoCall)
      else if DrainDone(s) then (s, Returns(AsInt(s.open)))
      else (s.(callers := s.callers[id := Drainer(false)]), Waits)
    case ResumeDrain(id, timeLeft, interrupted) =>
      if id !in s.callers || !s.callers[id].Drainer? then (s, NoCall)
      else if interrupted then (Leave(s, id), Returns(AsInt(false)))
      else if DrainDone(s) then (Leave(s, id), Returns(AsInt(s.open)))
      else if !timeLeft then (Leave(s, id), Returns(AsInt(false)))
      else (s.(callers := s.callers[id := Drainer(false)]), Waits)
    case SetTimeout(value) => (s.(timeout := value), NoCall)
    case Close => (DoClose(s), NoCall)
    case Wake => (if s.thread.Sleeping? then s.(thread := Ready) else s, NoCall)
    case Take =>
      if !s.thread.Ready? then (s, NoCall)
      else if s.open && s.head >= s.tail then (s.(thread := Sleeping), NoCall)
      else if !s.open then (NotifyAll(s.(thread := Finished(0))), NoCall)
      else (s.(thread := Writing(s.buffer[s.head..s.tail], 0)), NoCall)
    case StreamTakes(n) =>
      if s.thread.Writing? && s.thread.written + n <= |s.thread.chunk| then
        var w := s.thread.written;
        (s.(thread := s.thread.(written := w + n), stream := s.stream + s.thread.chunk[w..w + n]), NoCall)
      else (s, NoCall)
    case StreamThrows =>
      (if s.thread.Writing? then s.(thread := Failing(s.thread.written)) else s, NoCall)
    case ThreadDies =>
      (if s.thread.Writing? then NotifyAll(s.(thread := Finished(s.thread.written))) else s, NoCall)
    case Advance =>
      if s.thread.Writing? && s.thread.written == |s.thread.chunk| && s.head + |s.thread.chunk| <= s.tail then
        (NotifyAll(s.(head := s.head + |s.thread.chunk|, thread := Ready)), NoCall)
      else (s, NoCall)
    case HandleException =>
      if s.thread.Failing? then (NotifyAll(DoClose(s).(thread := Finished(s.thread.written))), NoCall)
      else (s, NoCall)
  }

  // The invariant

  /** How many buffered bytes, from `head` on, the stream already has. */
  function Ahead(s: State): nat {
    if s.thread.Sleeping? || s.thread.Ready? then 0 else s.thread.written
  }

  /** A caller that sleeps without a pending notification has a reason to. */
  predicate CallerHasReason(s: State, c: Caller) {
    c.awake || (s.open && if c.Writer? then s.head == 0 && s.tail == BUFFER_SIZE else s.head < s.tail)
  }

  ghost predicate BytesInOrder(s: State) {
    && Sane(s)
    && s.head + Ahead(s) <= s.tail
    && s.accepted == s.stream + s.buffer[s.head + Ahead(s)..s.tail]
    && (s.thread.Writing? ==>
          && 0 < |s.thread.chunk| && s.thread.written <= |s.thread.chunk|
          && s.head + |s.thread.chunk| <= s.tail
          && s.thread.chunk == s.buffer[s.head..s.head + |s.thread.chunk|])
  }

  ghost predicate Inv(s: State) {
    && BytesInOrder(s)
    && (s.thread.Sleeping? ==> s.open && s.head == s.tail)
    && forall id :: id in s.callers ==> CallerHasReason(s, s.callers[id])
  }

  lemma NotifyAllSettles(s: State)
    requires BytesInOrder(s)
    ensures Inv(NotifyAll(s))
  {
  }

  lemma ShiftKeepsOrder(s: State)
    requires BytesInOrder(s)
    ensures BytesInOrder(Shift(s))
  {
    var t, k := Shift(s), Ahead(s);
    assert t.buffer[k..t.tail] == s.buffer[s.head + k..s.tail] by {
      ShiftedSlice(s.buffer, s.head, s.tail, k, s.tail - s.head);
    }
    if s.thread.Writing? {
      var n := |s.thread.chunk|;
      assert t.buffer[0..n] == s.buffer[s.head..s.head + n] by {
        ShiftedSlice(s.buffer, s.head, s.tail, 0, n);
      }
    }
  }

  /** The contents of a shifted buffer. */
  lemma ShiftedSlice(b: seq<byte>, head: nat, tail: nat, i: nat, j: nat)
    requires head <= tail <= |b| && i <= j <= tail - head
    ensures (b[head..tail] + b[tail - head..])[i..j] == b[head + i..head + j]
  {
    var shifted := b[head..tail] + b[tail - head..];
    var x, y := shifted[i..j], b[head + i..head + j];
    forall k | 0 <= k < |x|
      ensures x[k] == y[k]
    {
      assert x[k] == shifted[i + k] == b[head..tail][i + k];
    }
  }

  lemma ShiftKeepsInv(s: State)
    requires Inv(s) && s.head > 0
    ensures Inv(Shift(s)) && Shift(s).tail < BUFFER_SIZE && Shift(s).accepted == s.accepted
    ensures Shift(s).callers == s.callers
    ensures forall id :: id in s.callers && s.callers[id].Writer? ==> s.callers[id].awake
  {
    ShiftKeepsOrder(s);
    OrderIsSane(s);
    hide BytesInOrder;
  }

  lemma StoreKeepsOrder(s: State, data: seq<byte>, t: State)
    requires BytesInOrder(s)
    requires var n := Room(s, data);
             t == s.(buffer := s.buffer[..s.tail] + data[..n] + s.buffer[s.tail + n..],
                     tail := s.tail + n, accepted := s.accepted + data[..n])
    ensures BytesInOrder(t)
  {
    var n, k := Room(s, data), s.head + Ahead(s);
    assert t.buffer[k..t.tail] == s.buffer[k..s.tail] + data[..n] by {
      StoredSlice(s.buffer, s.tail, data[..n], k);
    }
    if s.thread.Writing? {
      var c := s.head + |s.thread.chunk|;
      assert t.buffer[s.head..c] == s.buffer[s.head..c] by {
        KeptSlice(s.buffer, s.tail, data[..n], s.head, c);
      }
    }
  }

  lemma StoredSlice(b: seq<byte>, tail: nat, data: seq<byte>, k: nat)
    requires k <= tail && tail + |data| <= |b|
    ensures (b[..tail] + data + b[tail + |data|..])[k..tail + |data|] == b[k..tail] + data
  {
  }

  lemma KeptSlice(b: seq<byte>, tail: nat, data: seq<byte>, i: nat, j: nat)
    requires i <= j <= tail && tail + |data| <= |b|
    ensures (b[..tail] + data + b[tail + |data|..])[i..j] == b[i..j]
  {
  }

  lemma AppendKeepsInv(s: State, data: seq<byte>)
    requires Inv(s) && s.tail < BUFFER_SIZE
    requires forall id :: id in s.callers && s.callers[id].Writer? ==> s.callers[id].awake
    ensures Inv(Append(s, data))
    ensures Append(s, data).accepted == s.accepted + data[..Room(s, data)]
    ensures data != [] ==> Room(s, data) > 0
  {
    hide BytesInOrder;
    assert Sane(s) by {
      OrderIsSane(s);
    }
    var n := Room(s, data);
    var t := s.(buffer := s.buffer[..s.tail] + data[..n] + s.buffer[s.tail + n..],
                tail := s.tail + n, accepted := s.accepted + data[..n]);
    StoreKeepsOrder(s, data, t);
    NotifyAllSettles(t);
  }

  lemma InvIsSane(s: State)
    requires Inv(s)
    ensures Sane(s)
  {
  }

  lemma OrderIsSane(s: State)
    requires BytesInOrder(s)
    ensures Sane(s)
  {
  }

  lemma ChunkPrefix(b: seq<byte>, head: nat, tail: nat, size: nat, w: nat, n: nat)
    requires head + size <= tail <= |b| && w + n <= size
    ensures b[head + w..tail] == b[head..head + size][w..w + n] + b[head + w + n..tail]
  {
    var chunk, whole := b[head..head + size], b[head + w..tail];
    var parts := chunk[w..w + n] + b[head + w + n..tail];
    forall k | 0 <= k < |whole|
      ensures whole[k] == parts[k]
    {
      if k < n {
        assert chunk[w + k] == b[head + w + k];
      }
    }
  }

  lemma StreamTakesKeepsInv(s: State, n: nat)
    requires Inv(s)
    ensures Inv(Step(s, StreamTakes(n)).0)
  {
    OrderIsSane(s);
    if s.thread.Writing? && s.thread.written + n <= |s.thread.chunk| {
      StreamTakesKeepsOrder(s, Step(s, StreamTakes(n)).0, n);
      hide BytesInOrder;
    }
  }

  /** `n` more bytes of the chunk go to the stream. */
  lemma StreamTakesKeepsOrder(s: State, t: State, n: nat)
    requires BytesInOrder(s) && s.thread.Writing? && s.thread.written + n <= |s.thread.chunk|
    requires var w, chunk := s.thread.written, s.thread.chunk;
             t == s.(thread := Writing(chunk, w + n), stream := s.stream + chunk[w..w + n])
    ensures BytesInOrder(t)
  {
    var size, k := |s.thread.chunk|, Ahead(t);
    StreamedBytes(s.accepted, s.stream, s.buffer, s.head, s.tail, size, s.thread.written, n);
    assert t.accepted == t.stream + t.buffer[t.head + k..t.tail];
  }

  lemma StreamedBytes(accepted: seq<byte>, stream: seq<byte>, b: seq<byte>,
                      head: nat, tail: nat, size: nat, w: nat, n: nat)
    requires head + size <= tail <= |b| && w + n <= size && accepted == stream + b[head + w..tail]
    ensures accepted == (stream + b[head..head + size][w..w + n]) + b[head + (w + n)..tail]
  {
    ChunkPrefix(b, head, tail, size, w, n);
    assert stream + (b[head..head + size][w..w + n] + b[head + w + n..tail])
           == (stream + b[head..head + size][w..w + n]) + b[head + w + n..tail];
  }

  lemma WaitKeepsInv(s: State, id: int, c: Caller)
    requires Inv(s) && CallerHasReason(s, c)
    ensures Inv(s.(callers := s.callers[id := c]))
  {
  }

  lemma WriteKeepsInv(s: State, a: Action)
    requires Inv(s) && (a.CallWrite? || a.ResumeWrite?)
    ensures Inv(Step(s, a).0)
  {
    hide BytesInOrder, Append, Shift;
    OrderIsSane(s);
    if a.CallWrite? {
      if a.id !in s.callers && s.open && !(s.tail >= BUFFER_SIZE && s.head == 0) {
        if s.tail >= BUFFER_SIZE {
          ShiftKeepsInv(s);
          AppendKeepsInv(Shift(s), a.data);
        } else {
          AppendKeepsInv(s, a.data);
        }
      } else {
        var c := Writer(a.data, !s.open || s.tail < BUFFER_SIZE || s.head > 0);
        WaitKeepsInv(s, a.id, c);
      }
    } else if a.id in s.callers && s.callers[a.id].Writer? {
      LeaveKeepsInv(s, a.id);
      var s1 := Leave(s, a.id);
      if !a.interrupted && s.open && s.head > 0 {
        ShiftKeepsInv(s1);
        AppendKeepsInv(Shift(s1), s.callers[a.id].data);
      }
    }
  }

  lemma LeaveKeepsInv(s: State, id: int)
    requires Inv(s)
    ensures Inv(Leave(s, id))
  {
  }

  lemma DrainKeepsInv(s: State, a: Action)
    requires Inv(s) && (a.CallDrain? || a.ResumeDrain?)
    ensures Inv(Step(s, a).0)
  {
    hide BytesInOrder;
    LeaveKeepsInv(s, a.id);
    WaitKeepsInv(s, a.id, Drainer(DrainDone(s)));
    hide Inv, Leave;
  }

  lemma AdvanceKeepsInv(s: State)
    requires Inv(s)
    ensures Inv(Step(s, Advance).0)
  {
    hide NotifyAll;
    if s.thread.Writing? && s.thread.written == |s.thread.chunk| {
      NotifyAllSettles(s.(head := s.head + |s.thread.chunk|, thread := Ready));
    }
  }

  lemma CloseKeepsInv(s: State)
    requires Inv(s)
    ensures Inv(DoClose(s)) && !DoClose(s).open && DoClose(s).thread == Wakened(s.thread)
  {
    if s.open {
      NotifyAllSettles(s.(open := false));
    }
  }

  function Wakened(pc: Pc): Pc {
    if pc.Sleeping? then Ready else pc
  }

  lemma EndKeepsInv(s: State, written: nat)
    requires Inv(s) && Ahead(s) == written
    ensures Inv(NotifyAll(s.(thread := Finished(written))))
  {
    hide NotifyAll;
    NotifyAllSettles(s.(thread := Finished(written)));
  }

  lemma ThreadKeepsInv(s: State, a: Action)
    requires Inv(s) && (a.Take? || a.Advance? || a.StreamThrows? || a.ThreadDies? || a.HandleException? || a.Close?)
    ensures Inv(Step(s, a).0)
  {
    InvIsSane(s);
    hide NotifyAll, DoClose, Inv;
    match a {
      case Close =>
        CloseKeepsInv(s);
      case Take =>
        TakeKeepsInv(s);
      case ThreadDies =>
        EndKeepsInv(s, Ahead(s));
      case HandleException =>
        CloseKeepsInv(s);
        EndKeepsInv(DoClose(s), Ahead(DoClose(s)));
      case Advance =>
        AdvanceKeepsInv(s);
      case StreamThrows =>
        ThrowKeepsInv(s);
    }
  }

  lemma TakeKeepsInv(s: State)
    requires Inv(s)
    ensures Sane(s) && Inv(Step(s, Take).0)
  {
    hide NotifyAll;
    EndKeepsInv(s, Ahead(s));
  }

  lemma ThrowKeepsInv(s: State)
    requires Inv(s)
    ensures Sane(s) && Inv(Step(s, StreamThrows).0)
  {
  }

  lemma StepKeepsInv(s: State, a: Action)
    requires Inv(s)
    ensures Inv(Step(s, a).0)
  {
    if a.CallWrite? || a.ResumeWrite? {
      WriteKeepsInv(s, a);
    } else if a.CallDrain? || a.ResumeDrain? {
      DrainKeepsInv(s, a);
    } else if a.StreamTakes? {
      StreamTakesKeepsInv(s, a.n);
    } else if !a.SetTimeout? && !a.Wake? {
      ThreadKeepsInv(s, a);
    } else {
      hide NotifyAll, Append, Shift, DoClose;
    }
  }

  // Whole runs

  function Run(actions: seq<Action>): (s: State)
    ensures Inv(s)
  {
    if actions == [] then
      assert Inv(Init());
      Init()
    else
      var s := Run(actions[..|actions| - 1]);
      StepKeepsInv(s, actions[|actions| - 1]);
      Step(s, actions[|actions| - 1]).0
  }

  /** What the output thread still has to write. */
  function Unwritten(s: State): seq<byte>
    requires Inv(s)
  {
    s.buffer[s.head + Ahead(s)..s.tail]
  }

  /** At every moment of every run, the stream followed by the unwritten part of the buffer is
      exactly what the writers were told was accepted, in order: also while a chunk is in flight
      and the buffer moves beneath it, and after a failure. */
  lemma NothingLostOrReordered(actions: seq<Action>)
    ensures var s := Run(actions);
            && s.accepted == s.stream + Unwritten(s)
            && |s.accepted| <= |s.stream| + BUFFER_SIZE
  {
    hide Run, Step;
  }

  /** write() reports exactly how many bytes it accepted, and accepts something unless it fails. */
  lemma WriteIsAccounted(s: State, a: Action)
    requires Inv(s)
    requires a.CallWrite? || (a.ResumeWrite? && a.id in s.callers && s.callers[a.id].Writer?)
    ensures var (t, o) := Step(s, a);
            var data := if a.CallWrite? then a.data else s.callers[a.id].data;
            match o
            case Returns(n) =>
              if n == FAILED then t.accepted == s.accepted
              else s.open && 0 <= n <= |data| && t.accepted == s.accepted + data[..n] && (data != [] ==> n > 0)
            case _ => t.accepted == s.accepted
  {
    hide BytesInOrder, Append, Shift;
    OrderIsSane(s);
    if a.CallWrite? && s.tail < BUFFER_SIZE && s.open {
      AppendKeepsInv(s, a.data);
    } else if a.CallWrite? && s.head > 0 {
      ShiftKeepsInv(s);
      AppendKeepsInv(Shift(s), a.data);
    } else if a.ResumeWrite? && s.head > 0 {
      LeaveKeepsInv(s, a.id);
      ShiftKeepsInv(Leave(s, a.id));
      AppendKeepsInv(Shift(Leave(s, a.id)), s.callers[a.id].data);
    }
  }

  /** drain() reports success only when every byte accepted so far has reached the stream. */
  lemma DrainMeansWritten(actions: seq<Action>, a: Action)
    requires a.CallDrain? || a.ResumeDrain?
    requires Step(Run(actions), a).1 == Returns(1)
    ensures Run(actions).open && Run(actions).stream == Run(actions).accepted
  {
  }

  /** No wakeup is lost: whoever sleeps has nothing to do, and the output thread does not sleep
      while a writer or a drainer sleeps. */
  lemma NobodySleepsInVain(actions: seq<Action>)
    ensures var s := Run(actions);
            && (s.thread.Sleeping? ==> s.open && s.stream == s.accepted)
            && (forall id :: id in s.callers && !s.callers[id].awake ==>
                  s.open && !s.thread.Sleeping?
                  && if s.callers[id].Writer? then s.tail - s.head == BUFFER_SIZE
                     else s.stream + Unwritten(s) == s.accepted && s.head < s.tail)
  {
  }

  /** What the thread does next when nobody disturbs it. */
  function ThreadActions(s: State): seq<Action>
    requires Inv(s)
  {
    if s.thread.Ready? then
      if s.head == s.tail then [] else [Take, StreamTakes(s.tail - s.head), Advance]
    else if s.thread.Writing? then
      [StreamTakes(|s.thread.chunk| - s.thread.written), Advance]
    else []
  }

  function StepAll(s: State, actions: seq<Action>): (t: State)
    requires Inv(s)
    ensures Inv(t)
    decreases |actions|
  {
    if actions == [] then s
    else
      StepKeepsInv(s, actions[0]);
      StepAll(Step(s, actions[0]).0, actions[1..])
  }

  lemma ReadyThreadFinishes(s: State)
    requires Inv(s) && s.open && s.thread.Ready?
    ensures var t := StepAll(s, ThreadActions(s));
            t.open && t.thread.Ready? && t.accepted == s.accepted == t.stream
  {
    if s.head < s.tail {
      StepThree(s, Take, StreamTakes(s.tail - s.head), Advance);
      OneRound(s);
      hide Inv, StepAll, Step;
    }
  }

  lemma StepTwo(s: State, a: Action, b: Action)
    requires Inv(s)
    ensures Inv(Step(s, a).0) && Inv(Step(Step(s, a).0, b).0)
    ensures StepAll(s, [a, b]) == Step(Step(s, a).0, b).0
  {
    hide Step, Inv;
    InvIsSane(s);
    var s1 := Step(s, a).0;
    StepKeepsInv(s, a);
    InvIsSane(s1);
    StepKeepsInv(s1, b);
    assert [a, b][1..] == [b] && [b][1..] == [];
    assert StepAll(s1, [b]) == StepAll(Step(s1, b).0, []);
  }

  lemma StepThree(s: State, a: Action, b: Action, c: Action)
    requires Inv(s)
    ensures Inv(Step(s, a).0) && Inv(Step(Step(s, a).0, b).0) && Inv(Step(Step(Step(s, a).0, b).0, c).0)
    ensures StepAll(s, [a, b, c]) == Step(Step(Step(s, a).0, b).0, c).0
  {
    hide Step, Inv;
    InvIsSane(s);
    StepKeepsInv(s, a);
    StepTwo(Step(s, a).0, b, c);
    assert [a, b, c][1..] == [b, c];
  }

  /** The thread takes all unwritten bytes, the stream takes them from it, and it comes back. */
  lemma OneRound(s: State)
    requires Inv(s) && s.open && s.thread.Ready? && s.head < s.tail
    ensures var t := Step(Step(Step(s, Take).0, StreamTakes(s.tail - s.head)).0, Advance).0;
            t.open && t.thread.Ready? && t.accepted == s.accepted == t.stream
  {
    hide NotifyAll;
    var n := s.tail - s.head;
    var s1 := Step(s, Take).0;
    assert s1.thread.Writing? && s1.thread.chunk == s.buffer[s.head..s.tail] && s1.stream == s.stream;
    var s2 := Step(s1, StreamTakes(n)).0;
    assert s2.stream == s.stream + s.buffer[s.head..s.tail][0..n];
    assert s.buffer[s.head..s.tail][0..n] == s.buffer[s.head..s.tail];
    NotifyKeepsStream(s2.(head := s2.head + n, thread := Ready));
  }

  lemma NotifyKeepsStream(s: State)
    ensures NotifyAll(s) == s.(callers := NotifyAll(s).callers, thread := NotifyAll(s).thread)
    ensures s.thread.Ready? ==> NotifyAll(s).thread == s.thread
  {
  }

  lemma WritingThreadFinishes(s: State)
    requires Inv(s) && s.open && s.thread.Writing?
    ensures var t := StepAll(s, ThreadActions(s));
            t.open && t.thread.Ready? && t.accepted == s.accepted
  {
    var n := |s.thread.chunk| - s.thread.written;
    var s1 := Step(s, StreamTakes(n)).0;
    StepKeepsInv(s, StreamTakes(n));
    var s2 := Step(s1, Advance).0;
    StepKeepsInv(s1, Advance);
    var acts := ThreadActions(s);
    assert acts[1..] == [Advance] && [Advance][1..] == [];
    assert StepAll(s1, [Advance]) == StepAll(s2, []) == s2;
  }

  /** No accepted byte is stranded: while the stream works, a live output thread needs at most two
      rounds by itself until everything accepted is written. */
  lemma LiveThreadWritesEverything(actions: seq<Action>)
    requires Run(actions).open && !Run(actions).thread.Failing? && !Run(actions).thread.Finished?
    ensures var s := Run(actions);
            var t := StepAll(s, ThreadActions(s));
            var u := StepAll(t, ThreadActions(t));
            u.open && u.accepted == s.accepted == u.stream
  {
    hide Step;
    var s := Run(actions);
    var t := StepAll(s, ThreadActions(s));
    if s.thread.Writing? {
      WritingThreadFinishes(s);
      ReadyThreadFinishes(t);
    } else if s.thread.Ready? {
      ReadyThreadFinishes(s);
      ReadyThreadFinishes(t);
    }
  }

  // What every call does

  /** A new write() fails exactly if the port is closed, or the buffer is full and there is no
      timeout; it waits exactly if the buffer is full and there is one.  Otherwise it stores what
      fits behind the buffered bytes, which move to the front only if there is no room behind. */
  lemma WriteOutcome(s: State, id: int, data: seq<byte>)
    requires Inv(s) && id !in s.callers
    ensures Sane(s)
    ensures var o, full := Step(s, CallWrite(id, data)).1, s.tail - s.head == 256;
            && (o == Returns(-1) <==> !s.open || (full && s.timeout <= 0))
            && (o == Waits <==> s.open && full && s.timeout > 0)
            && (s.open && !full ==>
                  var room := if s.tail == 256 then s.head else 256 - s.tail;
                  room > 0 && o == Returns(if |data| <= room then |data| else room))
  {
    OrderIsSane(s);
    hide BytesInOrder, Append;
  }

  /** After waiting, it fails exactly if it was interrupted, the port was closed or the head is
      zero; otherwise it stores what fits into the rest of the buffer. */
  lemma ResumedWriteOutcome(s: State, id: int, interrupted: bool)
    requires Inv(s) && id in s.callers && s.callers[id].Writer?
    ensures Sane(s)
    ensures var (t, o) := Step(s, ResumeWrite(id, interrupted));
            var data, room := s.callers[id].data, 256 - (s.tail - s.head);
            && (o == Returns(-1) <==> interrupted || !s.open || s.head == 0)
            && (!interrupted && s.open && s.head > 0 ==> o == Returns(if |data| <= room then |data| else room))
            && id !in t.callers && t.callers.Keys == s.callers.Keys - {id}
  {
    OrderIsSane(s);
    hide BytesInOrder;
  }

  /** drain() returns true exactly if the port is open and the buffer empty, and waits exactly if it
      is open and not empty. */
  lemma DrainOutcome(s: State, id: int)
    requires Inv(s) && id !in s.callers
    ensures Sane(s)
    ensures var o := Step(s, CallDrain(id)).1;
            && (o == Returns(1) <==> s.open && s.head == s.tail)
            && (o == Returns(0) <==> !s.open)
            && (o == Waits <==> s.open && s.head < s.tail)
            && (s.open && !s.thread.Writing? && !s.thread.Failing? && !s.thread.Finished? ==>
                  (o == Returns(1) <==> s.stream == s.accepted))
  {
    OrderIsSane(s);
    if s.head < s.tail {
      assert |s.buffer[s.head..s.tail]| > 0;
    }
  }

  lemma ResumedDrainOutcome(s: State, id: int, timeLeft: bool, interrupted: bool)
    requires Inv(s) && id in s.callers && s.callers[id].Drainer?
    ensures Sane(s)
    ensures var (t, o) := Step(s, ResumeDrain(id, timeLeft, interrupted));
            && (o == Returns(1) <==> !interrupted && s.open && s.head == s.tail)
            && (o == Returns(0) <==> interrupted || !s.open || (s.head < s.tail && !timeLeft))
            && (o == Waits <==> !interrupted && s.open && s.head < s.tail && timeLeft)
            && t.callers.Keys == (if o == Waits then s.callers.Keys else s.callers.Keys - {id})
  {
    OrderIsSane(s);
    hide BytesInOrder;
  }

  /** Closing wakes everybody and touches no byte; from then on writes fail, drains return false,
      and the thread ends when it comes back for more. */
  lemma ClosedPort(s: State, id: int, data: seq<byte>)
    requires Inv(s)
    ensures Sane(s) && Sane(Step(s, Close).0)
    ensures var t := Step(s, Close).0;
            && !t.open && (s.open ==> !t.thread.Sleeping? && forall c :: c in t.callers ==> t.callers[c].awake)
            && t == s.(open := false, thread := t.thread, callers := t.callers) && t.callers.Keys == s.callers.Keys
            && (id !in t.callers ==> Step(t, CallWrite(id, data)).1 == Returns(-1))
            && (id !in t.callers ==> Step(t, CallDrain(id)).1 == Returns(0))
            && (t.thread.Ready? ==> Step(t, Take).0.thread.Finished?)
  {
    OrderIsSane(s);
    hide BytesInOrder;
  }

  /** The thread takes all that is buffered, sleeps on an open port with nothing to write, and ends
      on a closed one; an exception of the stream closes the port. */
  lemma ThreadOutcome(s: State)
    requires Inv(s)
    ensures Sane(s)
    ensures s.thread.Ready? ==>
              Step(s, Take).0.thread
              == if !s.open then Finished(0)
                 else if s.head == s.tail then Sleeping else Writing(s.buffer[s.head..s.tail], 0)
    ensures s.thread.Failing? ==>
              var t := Step(s, HandleException).0;
              && !t.open && t.thread.Finished? && t.stream == s.stream
              && forall c :: c in t.callers ==> t.callers[c].awake
    ensures s.thread.Writing? && s.thread.written == |s.thread.chunk| ==>
              var t := Step(s, Advance).0;
              && t.head == s.head + |s.thread.chunk| && t.tail == s.tail && t.thread.Ready?
              && forall c :: c in t.callers ==> t.callers[c].awake
  {
    OrderIsSane(s);
  }

  lemma TimeoutOutcome(s: State, value: int)
    requires Inv(s)
    ensures Sane(s) && Step(s, SetTimeout(value)) == (s.(timeout := value), NoCall)
  {
    OrderIsSane(s);
  }

  // When a waiting write() fails

  predicate WaitsToWrite(s: State, id: int) {
    id in s.callers && s.callers[id].Writer?
  }

  predicate HasRoom(s: State) {
    s.tail - s.head < BUFFER_SIZE
  }

  /** A write() that waited takes a head of zero for a full buffer: it fails although the port is
      open and there is room exactly if the buffer is not full to its end. */
  lemma ResumedWriteFailsIff(s: State, id: int, interrupted: bool)
    requires Inv(s) && WaitsToWrite(s, id)
    ensures Step(s, ResumeWrite(id, interrupted)).1 == Returns(FAILED) && s.open && !interrupted && HasRoom(s)
            <==> s.open && !interrupted && s.head == 0 && s.tail < BUFFER_SIZE
  {
    hide BytesInOrder;
    assert Sane(s) by {
      OrderIsSane(s);
    }
  }

  /** The guard of the steps that move the unwritten bytes to the front. */
  predicate Shifts(s: State, a: Action) {
    match a
    case CallWrite(id, _) => id !in s.callers && s.open && s.tail >= BUFFER_SIZE && s.head > 0
    case ResumeWrite(id, interrupted) => WaitsToWrite(s, id) && !interrupted && s.open && s.head > 0
    case _ => false
  }

  /** The guard of the step that moves the head past the bytes that were written. */
  predicate Advances(s: State, a: Action) {
    a.Advance? && s.thread.Writing? && s.thread.written == |s.thread.chunk|
    && s.head + |s.thread.chunk| <= s.tail
  }

  /** Since the last time the thread moved the head, another write() moved it back. */
  ghost predicate ShiftedLast(s: State, actions: seq<Action>)
    requires Inv(s)
    decreases |actions|
  {
    actions != [] && (
      StepKeepsInv(s, actions[0]);
      var t := Step(s, actions[0]).0;
      ShiftedLast(t, actions[1..]) || (Shifts(s, actions[0]) && !SomeAdvance(t, actions[1..])))
  }

  ghost predicate SomeAdvance(s: State, actions: seq<Action>)
    requires Inv(s)
    decreases |actions|
  {
    actions != [] && (
      StepKeepsInv(s, actions[0]);
      Advances(s, actions[0]) || SomeAdvance(Step(s, actions[0]).0, actions[1..]))
  }

  /** Only these two guards move the head, and with the head at zero the tail moves forward only. */
  lemma HeadMoves(s: State, a: Action)
    requires Inv(s)
    ensures Sane(s) && Sane(Step(s, a).0)
    ensures var t := Step(s, a).0;
            && (t.head == 0 <==> Shifts(s, a) || (s.head == 0 && !Advances(s, a)))
            && (s.head == 0 ==> s.tail <= t.tail)
  {
    StepKeepsInv(s, a);
    InvIsSane(s);
    InvIsSane(Step(s, a).0);
    if a.Advance? && s.thread.Writing? {
      assert 0 < |s.thread.chunk|;
    }
    hide Inv;
  }

  /** Where the head is after a run: at zero exactly if no step moved it from there, or another
      write() moved it back since. */
  lemma {:induction false} HeadIsZeroIff(s: State, actions: seq<Action>)
    requires Inv(s)
    ensures StepAll(s, actions).head == 0
            <==> ShiftedLast(s, actions) || (s.head == 0 && !SomeAdvance(s, actions))
    ensures ShiftedLast(s, actions) || SomeAdvance(s, actions) || s.head > 0 || s.tail <= StepAll(s, actions).tail
    decreases |actions|
  {
    if actions != [] {
      HeadMoves(s, actions[0]);
      StepKeepsInv(s, actions[0]);
      hide Step, Inv, Shifts, Advances;
      HeadIsZeroIff(Step(s, actions[0]).0, actions[1..]);
    }
  }

  lemma WritesWaitWhenFull(s: State, id: int, data: seq<byte>)
    requires Inv(s) && Step(s, CallWrite(id, data)).1 == Waits
    ensures var t := Step(s, CallWrite(id, data)).0;
            Inv(t) && t.head == 0 && t.tail == BUFFER_SIZE && WaitsToWrite(t, id)
  {
    StepKeepsInv(s, CallWrite(id, data));
    InvIsSane(s);
    hide Inv;
  }

  /** When a write() that waited fails for no good reason, for every run since the buffer was full:
      exactly if there is room at the end of the buffer, but another write() has moved the
      unwritten bytes to the front since the thread last moved the head. */
  lemma WaitingWriteFailsIff(full: State, actions: seq<Action>, id: int, interrupted: bool)
    requires Inv(full) && full.head == 0 && full.tail == BUFFER_SIZE && WaitsToWrite(StepAll(full, actions), id)
    ensures var t := StepAll(full, actions);
            (Step(t, ResumeWrite(id, interrupted)).1 == Returns(FAILED) && t.open && !interrupted && HasRoom(t))
            <==> t.open && !interrupted && t.tail < BUFFER_SIZE && ShiftedLast(full, actions)
  {
    hide Inv, Step, StepAll, ShiftedLast, SomeAdvance;
    HeadIsZeroIff(full, actions);
    InvIsSane(StepAll(full, actions));
    ResumedWriteFailsIff(StepAll(full, actions), id, interrupted);
  }

  /** With 255 bytes free: a write() waits at a full buffer, the thread writes all of it, and the
      write() fails, because another one came first. */
  lemma WaitingWriteCanFailWithRoom(data: seq<byte>, b: byte)
    requires |data| == BUFFER_SIZE
    ensures var s1 := Step(Init(), SetTimeout(100)).0;
            var s2 := Step(s1, CallWrite(1, data)).0;
            var (s3, o) := Step(s2, CallWrite(2, [b]));
            var s4 := Step(s3, Take).0;
            var s5 := Step(s4, StreamTakes(BUFFER_SIZE)).0;
            var s6 := Step(s5, Advance).0;
            var (s7, n) := Step(s6, CallWrite(3, [b]));
            && o == Waits && s5.stream == data && n == Returns(1)
            && s7.open && s7.head == 0 && s7.tail == 1 && s7.callers == map[2 := Writer([b], true)]
            && Step(s7, ResumeWrite(2, false)).1 == Returns(FAILED)
  {
    hide *;
    FullBuffer(data, b);
    EmptiedBuffer(data, b);
    RefilledBuffer(data, b);
  }

  /** The three stages of the case: `data` fills the buffer, the thread writes it, and another byte
      comes. */
  function Stage(data: seq<byte>, head: int, awake: bool, b: byte, stream: seq<byte>): State {
    State(data, head, BUFFER_SIZE, true, 100, Ready, map[2 := Writer([b], awake)], data, stream)
  }

  lemma FullBuffer(data: seq<byte>, b: byte)
    requires |data| == BUFFER_SIZE
    ensures var s1 := Step(Init(), SetTimeout(100)).0;
            var s2 := Step(s1, CallWrite(1, data)).0;
            Sane(s2) && Step(s2, CallWrite(2, [b])) == (Stage(data, 0, false, b, []), Waits)
  {
    var s1 := Step(Init(), SetTimeout(100)).0;
    var s2 := Step(s1, CallWrite(1, data)).0;
    assert Room(s1, data) == BUFFER_SIZE && data[..BUFFER_SIZE] == data;
    assert s2.buffer == data && s2.accepted == data && s2.callers == map[];
  }

  lemma EmptiedBuffer(data: seq<byte>, b: byte)
    requires |data| == BUFFER_SIZE
    ensures var s4 := Step(Stage(data, 0, false, b, []), Take).0;
            var s5 := Step(s4, StreamTakes(BUFFER_SIZE)).0;
            Sane(s4) && Sane(s5) && s5.stream == data
            && Step(s5, Advance).0 == Stage(data, BUFFER_SIZE, true, b, data)
  {
    var s4 := Step(Stage(data, 0, false, b, []), Take).0;
    assert s4.thread.chunk == data[0..BUFFER_SIZE] == data;
    var s5 := Step(s4, StreamTakes(BUFFER_SIZE)).0;
    assert s5.stream == [] + data[0..BUFFER_SIZE] == data;
    assert Step(s5, Advance).0.callers == map[2 := Writer([b], true)];
  }

  lemma RefilledBuffer(data: seq<byte>, b: byte)
    requires |data| == BUFFER_SIZE
    ensures var (s7, n) := Step(Stage(data, BUFFER_SIZE, true, b, data), CallWrite(3, [b]));
            && n == Returns(1)
            && s7.open && s7.head == 0 && s7.tail == 1 && s7.callers == map[2 := Writer([b], true)]
            && Sane(s7) && Step(s7, ResumeWrite(2, false)).1 == Returns(FAILED)
  {
    var s6 := Stage(data, BUFFER_SIZE, true, b, data);
    assert Shift(s6).head == Shift(s6).tail == 0 && Room(Shift(s6), [b]) == 1;
    assert Step(s6, CallWrite(3, [b])).0.callers == map[2 := Writer([b], true)];
  }

  lemma ResumedWrite(s: State, id: int, interrupted: bool)
    requires Sane(s) && WaitsToWrite(s, id)
    ensures var s1, data := Leave(s, id), s.callers[id].data;
            Sane(s1) && Sane(Shift(s1))
            && Step(s, ResumeWrite(id, interrupted))
               == if interrupted || !s.open || s.head == 0 then (s1, Returns(FAILED))
                  else (Append(Shift(s1), data), Returns(Room(Shift(s1), data)))
  {
    hide Append, Room;
  }

  lemma InitKeepsInv()
    ensures Inv(Init())
  {
  }

  // The code

  class OutputBuffer {
    const buffer: array<byte>
    var head: int
    var tail: int
    var open: bool
    var timeout: int

    // local variables of run()
    const copy: array<byte>
    var size: int

    // what happens outside the monitor
    ghost var thread: Pc
    ghost var callers: map<int, Caller>
    ghost var accepted: seq<byte>
    ghost var stream: seq<byte>

    ghost function View(): State
      reads this, buffer
    {
      State(buffer[..], head, tail, open, timeout, thread, callers, accepted, stream)
    }

    ghost predicate Valid()
      reads this, buffer, copy
    {
      && buffer.Length == copy.Length == BUFFER_SIZE && buffer != copy
      && Inv(View())
      && (thread.Writing? ==> 0 <= size <= BUFFER_SIZE && thread.chunk == copy[..size])
    }

    constructor ()
      ensures Valid() && fresh(buffer) && fresh(copy) && View() == Init()
    {
      buffer := new byte[BUFFER_SIZE](_ => 0);
      copy := new byte[BUFFER_SIZE](_ => 0);
      head, tail, open, timeout, size := 0, 0, true, 0, 0;
      thread, callers, accepted, stream := Ready, map[], [], [];
      new;
      InitKeepsInv();
      hide Inv;
      assert buffer[..] == seq(BUFFER_SIZE, _ => 0);
    }

    ghost method Notify()
      modifies this`thread, this`callers
      ensures View() == NotifyAll(old(View()))
    {
      callers := map id | id in callers :: callers[id].(awake := true);
      thread := if thread == Sleeping then Ready else thread;
    }

    method ShiftBuffer()
      requires buffer.Length == BUFFER_SIZE && Sane(View())
      modifies this`head, this`tail, buffer
      ensures View() == Shift(old(View()))
    {
      forall i | 0 <= i < tail - head {
        buffer[i] := buffer[head + i];
      }
      tail := tail - head;
      head := 0;
      assert buffer[..] == old(buffer[head..tail]) + old(buffer[tail - head..]);
    }

    /** The end of write(), once there is room. */
    method Store(data: seq<byte>) returns (nbytes: int)
      requires buffer.Length == BUFFER_SIZE && Sane(View())
      modifies this, buffer
      ensures View() == Append(old(View()), data) && nbytes == Room(old(View()), data)
      ensures size == old(size)
    {
      var wasEmpty := head == tail;
      nbytes := BUFFER_SIZE - tail;
      if nbytes > |data| {
        nbytes := |data|;
      }
      forall i | 0 <= i < nbytes {
        buffer[tail + i] := data[i];
      }
      accepted := accepted + data[..nbytes];
      tail := tail + nbytes;
      assert buffer[..] == old(buffer[..tail]) + data[..nbytes] + old(buffer[tail + nbytes..]);
      if wasEmpty {
        Notify();
      }
    }

    /** write(), up to the point where it returns or waits. */
    method Write(ghost id: int, data: seq<byte>) returns (o: Outcome)
      requires Valid() && id !in callers
      modifies this, buffer
      ensures Valid() && (View(), o) == Step(old(View()), CallWrite(id, data))
    {
      StepKeepsInv(View(), CallWrite(id, data));
      InvIsSane(View());
      hide Inv, Append, Shift;
      if !open {
        return Returns(FAILED);
      }
      if tail >= BUFFER_SIZE {
        if head == 0 {
          if timeout <= 0 {
            return Returns(FAILED);
          }
          callers := callers[id := Writer(data, false)];
          return Waits;
        }
        ShiftBuffer();
      }
      var nbytes := Store(data);
      o := Returns(nbytes);
    }

    /** The rest of a write() that waited. */
    method FinishWrite(ghost id: int, data: seq<byte>, interrupted: bool) returns (o: Outcome)
      requires Valid() && id in callers && callers[id].Writer? && callers[id].data == data
      modifies this, buffer
      ensures Valid() && (View(), o) == Step(old(View()), ResumeWrite(id, interrupted))
    {
      StepKeepsInv(View(), ResumeWrite(id, interrupted));
      InvIsSane(View());
      ResumedWrite(View(), id, interrupted);
      ghost var s := View();
      assert Leave(s, id) == s.(callers := callers - {id});
      hide Inv, Append, Shift, Step, Leave, Room;
      callers := callers - {id};
      assert View() == Leave(s, id);
      if interrupted || !open || head == 0 {
        return Returns(FAILED);
      }
      ShiftBuffer();
      var nbytes := Store(data);
      o := Returns(nbytes);
    }

    /** drain(): the first test of its loop condition. */
    method Drain(ghost id: int) returns (o: Outcome)
      requires Valid() && id !in callers
      modifies this`callers
      ensures Valid() && (View(), o) == Step(old(View()), CallDrain(id))
    {
      StepKeepsInv(View(), CallDrain(id));
      if open && head < tail {
        callers := callers[id := Drainer(false)];
        return Waits;
      }
      o := Returns(AsInt(open));
    }

    /** drain(), after a wait. */
    method ResumeDraining(ghost id: int, timeLeft: bool, interrupted: bool) returns (o: Outcome)
      requires Valid() && id in callers && callers[id].Drainer?
      modifies this`callers
      ensures Valid() && (View(), o) == Step(old(View()), ResumeDrain(id, timeLeft, interrupted))
    {
      StepKeepsInv(View(), ResumeDrain(id, timeLeft, interrupted));
      if !interrupted && open && head < tail && timeLeft {
        callers := callers[id := Drainer(false)];
        return Waits;
      }
      callers := callers - {id};
      o := Returns(AsInt(!interrupted && !(open && head < tail) && open));
    }

    method CloseStream()
      requires Valid()
      modifies this
      ensures Valid() && View() == Step(old(View()), Close).0
    {
      StepKeepsInv(View(), Close);
      if open {
        open := false;
        Notify();
      }
    }

    method CopyOut()
      requires buffer.Length == copy.Length == BUFFER_SIZE && buffer != copy && Sane(View())
      modifies this`size, copy
      ensures size == tail - head && copy[..size] == buffer[head..tail]
    {
      size := tail - head;
      forall i | 0 <= i < size {
        copy[i] := buffer[head + i];
      }
    }

    /** run(): the first monitor section; the thread goes on to write, or it waits or ends. */
    method TakeChunk() returns (write: bool)
      requires Valid() && thread.Ready?
      modifies this, copy
      ensures Valid() && View() == Step(old(View()), Take).0 && write == thread.Writing?
    {
      StepKeepsInv(View(), Take);
      InvIsSane(View());
      hide NotifyAll, Inv;
      write := false;
      if open && head >= tail {
        thread := Sleeping;
      } else if !open {
        thread := Finished(0);
        Notify();
      } else {
        CopyOut();
        thread := Writing(copy[..size], 0);
        write := true;
      }
    }

    /** run(): the second monitor section, after the stream has taken the whole chunk. */
    method AdvanceHead()
      requires Valid() && thread.Writing? && thread.written == size
      modifies this
      ensures Valid() && View() == Step(old(View()), Advance).0
    {
      StepKeepsInv(View(), Advance);
      head := head + size;
      thread := Ready;
      Notify();
    }
  }
}
