/** The GATT requests of a Bluetooth sensor (android/src/BluetoothSensor.java).  Android allows one
    request at a time, so descriptor writes and characteristic reads wait in two queues. */
module GattQueue {
  import opened Common

  /** A characteristic, identified by a number. */
  type Characteristic = nat

  datatype Request = Write(c: Characteristic) | Read(c: Characteristic)

  /** What passes between the program and the GATT stack; a disconnect drops what is pending. */
  datatype Event = Asked(request: Request, accepted: bool) | Done(request: Request) | Dropped

  /** currentEnableNotification, enableNotificationQueue, currentRead and readQueue; `log` is
      everything that passed so far.  */
  datatype State = State(enable: Option<Characteristic>, enableQueue: seq<Characteristic>,
                         read: Option<Characteristic>, readQueue: seq<Characteristic>, log: seq<Event>) {
    predicate Idle() {
      enable.None? && read.None?
    }
  }

  const INITIAL: State := State(None, [], None, [], [])

  /** The answer of the stack to a request made after `n` events: a missing descriptor counts as
      a refusal. */
  type Answers = nat -> bool

  // The steps

  function AskWrite(s: State, answers: Answers, c: Characteristic): State {
    var accepted := answers(|s.log|);
    s.(enable := if accepted then Some(c) else None, log := s.log + [Asked(Write(c), accepted)])
  }

  function AskRead(s: State, answers: Answers, c: Characteristic): State {
    var accepted := answers(|s.log|);
    s.(read := if accepted then Some(c) else None, log := s.log + [Asked(Read(c), accepted)])
  }

  /** enableNextNotification */
  function EnableNext(s: State, answers: Answers): State
    decreases |s.enableQueue|
  {
    if s.enable.Some? || s.enableQueue == [] then s
    else EnableNext(AskWrite(s.(enableQueue := s.enableQueue[1..]), answers, s.enableQueue[0]), answers)
  }

  /** pumpReadQueue */
  function Pump(s: State, answers: Answers): State
    decreases |s.readQueue|
  {
    if !s.Idle() || s.readQueue == [] then s
    else Pump(AskRead(s.(readQueue := s.readQueue[1..]), answers, s.readQueue[0]), answers)
  }

  /** enableNotification, requestRead, onDescriptorWrite and onCharacteristicRead. */
  datatype Action = EnableNotification(c: Characteristic) | RequestRead(c: Characteristic)
                  | DescriptorWritten | CharacteristicRead

  /** The stack calls back once for each accepted request. */
  predicate Possible(s: State, a: Action) {
    match a
    case EnableNotification(_) => true
    case RequestRead(_) => true
    case DescriptorWritten => exists r :: r in Pending(s.log) && r.Write?
    case CharacteristicRead => exists r :: r in Pending(s.log) && r.Read?
  }

  function Step(s: State, answers: Answers, a: Action): State {
    match a
    case EnableNotification(c) =>
      if s.enable.Some? then s.(enableQueue := s.enableQueue + [c]) else EnableNext(AskWrite(s, answers, c), answers)
    case RequestRead(c) =>
      if !s.Idle() then s.(readQueue := s.readQueue + [c]) else AskRead(s, answers, c)
    case DescriptorWritten =>
      var log := if s.enable.Some? then s.log + [Done(Write(s.enable.value))] else s.log;
      Pump(EnableNext(s.(enable := None, log := log), answers), answers)
    case CharacteristicRead =>
      var log := if s.read.Some? then s.log + [Done(Read(s.read.value))] else s.log;
      Pump(s.(read := None, log := log), answers)
  }

  /** The state after each of the actions, in any order the stack allows. */
  ghost predicate IsRun(answers: Answers, actions: seq<Action>, s: State) {
    if actions == [] then s == INITIAL
    else
      var k := |actions| - 1;
      exists t :: IsRun(answers, actions[..k], t) && Possible(t, actions[k]) && s == Step(t, answers, actions[k])
  }

  /** After one service discovery: every notification is asked for before any read is, in
      whatever way the callbacks fall between. */
  predicate OneDiscovery(actions: seq<Action>) {
    forall i, j :: 0 <= i < j < |actions| && actions[i].RequestRead? ==> !actions[j].EnableNotification?
  }

  // What the log says

  /** Requests the stack has accepted and not finished. */
  function Pending(log: seq<Event>): multiset<Request> {
    if log == [] then multiset{}
    else
      var k := |log| - 1;
      PendingAfter(Pending(log[..k]), log[k])
  }

  function PendingAfter(pending: multiset<Request>, e: Event): multiset<Request> {
    match e
    case Asked(r, accepted) => if accepted then pending + multiset{r} else pending
    case Done(r) => pending - multiset{r}
    case Dropped => multiset{}
  }

  /** No request is made while one is pending, and no write is asked for after a read. */
  predicate Disciplined(log: seq<Event>) {
    log != [] ==>
      var k := |log| - 1;
      && Disciplined(log[..k])
      && (log[k].Asked? ==> Pending(log[..k]) == multiset{})
      && (log[k].Asked? && log[k].request.Write? ==> AskedReads(log[..k]) == [])
  }

  /** The requests made, in order, accepted or not. */
  function AskedWrites(log: seq<Event>): seq<Characteristic> {
    if log == [] then []
    else
      var k := |log| - 1;
      AskedWrites(log[..k]) + (if log[k].Asked? && log[k].request.Write? then [log[k].request.c] else [])
  }

  function AskedReads(log: seq<Event>): seq<Characteristic> {
    if log == [] then []
    else
      var k := |log| - 1;
      AskedReads(log[..k]) + (if log[k].Asked? && log[k].request.Read? then [log[k].request.c] else [])
  }

  /** What the program wants. */
  function WantedWrites(actions: seq<Action>): seq<Characteristic> {
    if actions == [] then []
    else
      var k := |actions| - 1;
      WantedWrites(actions[..k]) + (if actions[k].EnableNotification? then [actions[k].c] else [])
  }

  function WantedReads(actions: seq<Action>): seq<Characteristic> {
    if actions == [] then []
    else
      var k := |actions| - 1;
      WantedReads(actions[..k]) + (if actions[k].RequestRead? then [actions[k].c] else [])
  }

  // The invariant

  function Outstanding(s: State): multiset<Request> {
    (if s.enable.Some? then multiset{Write(s.enable.value)} else multiset{})
    + (if s.read.Some? then multiset{Read(s.read.value)} else multiset{})
  }

  /** Holds between the actions, and within them while a queue is worked on. */
  predicate Orderly(s: State) {
    && Pending(s.log) == Outstanding(s) && Disciplined(s.log)
    && (s.enable.None? || s.read.None?)
    && (s.read.Some? ==> s.enableQueue == [] && AskedReads(s.log) != [])
    && (AskedReads(s.log) != [] ==> s.enable.None? && s.enableQueue == [])
  }

  predicate Settled(s: State) {
    && Orderly(s)
    && (s.enable.None? ==> s.enableQueue == [])
    && (s.Idle() ==> s.readQueue == [])
  }

  predicate Accounted(s: State, ws: seq<Characteristic>, rs: seq<Characteristic>) {
    AskedWrites(s.log) + s.enableQueue == ws && AskedReads(s.log) + s.readQueue == rs
  }

  lemma LogOneMore(log: seq<Event>, e: Event)
    ensures var more := log + [e];
            && Pending(more) == PendingAfter(Pending(log), e)
            && AskedWrites(more) == AskedWrites(log) + (if e.Asked? && e.request.Write? then [e.request.c] else [])
            && AskedReads(more) == AskedReads(log) + (if e.Asked? && e.request.Read? then [e.request.c] else [])
            && (Disciplined(more) <==>
                  && Disciplined(log) && (e.Asked? ==> Pending(log) == multiset{})
                  && (e.Asked? && e.request.Write? ==> AskedReads(log) == []))
  {
    var more := log + [e];
    assert more[..|more| - 1] == log && more[|more| - 1] == e;
  }

  lemma AskWriteKeeps(s: State, answers: Answers, c: Characteristic, ws: seq<Characteristic>, rs: seq<Characteristic>)
    requires Orderly(s) && s.Idle() && AskedReads(s.log) == []
    requires AskedWrites(s.log) + ([c] + s.enableQueue) == ws && AskedReads(s.log) + s.readQueue == rs
    ensures Orderly(AskWrite(s, answers, c)) && Accounted(AskWrite(s, answers, c), ws, rs)
    ensures AskedReads(AskWrite(s, answers, c).log) == []
  {
    hide Disciplined, Pending, AskedWrites, AskedReads;
    LogOneMore(s.log, Asked(Write(c), answers(|s.log|)));
    assert AskedWrites(s.log) + ([c] + s.enableQueue) == AskedWrites(s.log) + [c] + s.enableQueue;
    assert AskedReads(s.log) + [] == AskedReads(s.log);
  }

  lemma AskReadKeeps(s: State, answers: Answers, c: Characteristic, ws: seq<Characteristic>, rs: seq<Characteristic>)
    requires Orderly(s) && s.Idle() && s.enableQueue == []
    requires AskedWrites(s.log) + s.enableQueue == ws && AskedReads(s.log) + ([c] + s.readQueue) == rs
    ensures Orderly(AskRead(s, answers, c)) && Accounted(AskRead(s, answers, c), ws, rs)
    ensures AskRead(s, answers, c).enableQueue == []
  {
    hide Disciplined, Pending, AskedWrites, AskedReads;
    LogOneMore(s.log, Asked(Read(c), answers(|s.log|)));
    assert AskedReads(s.log) + ([c] + s.readQueue) == AskedReads(s.log) + [c] + s.readQueue;
    assert AskedWrites(s.log) + [] == AskedWrites(s.log);
  }

  lemma {:induction false} EnableNextKeeps(s: State, answers: Answers, ws: seq<Characteristic>, rs: seq<Characteristic>)
    requires Orderly(s) && Accounted(s, ws, rs) && s.read.None?
    requires AskedReads(s.log) != [] ==> s.enableQueue == []
    ensures var t := EnableNext(s, answers);
            && Orderly(t) && Accounted(t, ws, rs) && t.read.None? && t.readQueue == s.readQueue
            && (t.enable.None? ==> t.enableQueue == [])
    decreases |s.enableQueue|
  {
    hide Disciplined, Pending, AskedWrites, AskedReads;
    if s.enable.None? && s.enableQueue != [] {
      var next := s.(enableQueue := s.enableQueue[1..]);
      assert [s.enableQueue[0]] + s.enableQueue[1..] == s.enableQueue;
      AskWriteKeeps(next, answers, s.enableQueue[0], ws, rs);
      EnableNextKeeps(AskWrite(next, answers, s.enableQueue[0]), answers, ws, rs);
    }
  }

  lemma {:induction false} PumpKeeps(s: State, answers: Answers, ws: seq<Characteristic>, rs: seq<Characteristic>)
    requires Orderly(s) && Accounted(s, ws, rs)
    requires s.enable.None? ==> s.enableQueue == []
    ensures Settled(Pump(s, answers)) && Accounted(Pump(s, answers), ws, rs)
    decreases |s.readQueue|
  {
    hide Disciplined, Pending, AskedWrites, AskedReads;
    if s.Idle() && s.readQueue != [] {
      var next := s.(readQueue := s.readQueue[1..]);
      assert [s.readQueue[0]] + s.readQueue[1..] == s.readQueue;
      AskReadKeeps(next, answers, s.readQueue[0], ws, rs);
      PumpKeeps(AskRead(next, answers, s.readQueue[0]), answers, ws, rs);
    }
  }

  function WantsWrite(a: Action): seq<Characteristic> {
    if a.EnableNotification? then [a.c] else []
  }

  function WantsRead(a: Action): seq<Characteristic> {
    if a.RequestRead? then [a.c] else []
  }

  lemma CallbackIsOutstanding(s: State, a: Action)
    requires Orderly(s) && Possible(s, a)
    ensures a.DescriptorWritten? ==> s.enable.Some? && Pending(s.log) - multiset{Write(s.enable.value)} == multiset{}
    ensures a.CharacteristicRead? ==> s.read.Some? && Pending(s.log) - multiset{Read(s.read.value)} == multiset{}
  {
    hide Disciplined, AskedReads;
    if a.DescriptorWritten? {
      var r :| r in Outstanding(s) && r.Write?;
    } else if a.CharacteristicRead? {
      var r :| r in Outstanding(s) && r.Read?;
    }
  }

  lemma EnableNotificationKeeps(s: State, answers: Answers, c: Characteristic, ws: seq<Characteristic>)
    requires Settled(s) && Accounted(s, ws, [])
    ensures Settled(Step(s, answers, EnableNotification(c)))
    ensures Accounted(Step(s, answers, EnableNotification(c)), ws + [c], [])
  {
    hide Disciplined, Pending, AskedWrites, AskedReads, EnableNext, Pump;
    if s.enable.Some? {
      assert AskedWrites(s.log) + (s.enableQueue + [c]) == AskedWrites(s.log) + s.enableQueue + [c];
    } else {
      assert s.enableQueue == [] && [c] + [] == [c] && AskedWrites(s.log) + [] == ws;
      AskWriteKeeps(s, answers, c, ws + [c], []);
      EnableNextKeeps(AskWrite(s, answers, c), answers, ws + [c], []);
    }
  }

  lemma RequestReadKeeps(s: State, answers: Answers, c: Characteristic, ws: seq<Characteristic>,
                         rs: seq<Characteristic>)
    requires Settled(s) && Accounted(s, ws, rs)
    ensures Settled(Step(s, answers, RequestRead(c))) && Accounted(Step(s, answers, RequestRead(c)), ws, rs + [c])
  {
    hide Disciplined, Pending, AskedWrites, AskedReads, EnableNext, Pump;
    if !s.Idle() {
      assert AskedReads(s.log) + (s.readQueue + [c]) == AskedReads(s.log) + s.readQueue + [c];
    } else {
      assert s.readQueue == [] && [c] + [] == [c] && AskedReads(s.log) + [] == rs;
      AskReadKeeps(s, answers, c, ws, rs + [c]);
    }
  }

  /** The state after the stack has finished its request. */
  function Finished(s: State, r: Request): State {
    var t := s.(log := s.log + [Done(r)]);
    if r.Write? then t.(enable := None) else t.(read := None)
  }

  lemma FinishedKeeps(s: State, r: Request, ws: seq<Characteristic>, rs: seq<Characteristic>)
    requires Settled(s) && Accounted(s, ws, rs)
    requires !s.Idle() && r == if s.enable.Some? then Write(s.enable.value) else Read(s.read.value)
    requires Pending(s.log) - multiset{r} == multiset{}
    ensures Orderly(Finished(s, r)) && Accounted(Finished(s, r), ws, rs)
    ensures Finished(s, r).Idle()
  {
    hide Disciplined, Pending, AskedWrites, AskedReads;
    LogOneMore(s.log, Done(r));
    assert AskedWrites(s.log) + [] == AskedWrites(s.log) && AskedReads(s.log) + [] == AskedReads(s.log);
  }

  lemma CallbackKeeps(s: State, answers: Answers, a: Action, ws: seq<Characteristic>, rs: seq<Characteristic>)
    requires Settled(s) && Accounted(s, ws, rs) && Possible(s, a) && (a.DescriptorWritten? || a.CharacteristicRead?)
    ensures Settled(Step(s, answers, a)) && Accounted(Step(s, answers, a), ws, rs)
  {
    hide Disciplined, Pending, AskedWrites, AskedReads, EnableNext, Pump, Outstanding, Accounted, Possible;
    CallbackIsOutstanding(s, a);
    if a.DescriptorWritten? {
      var r := Write(s.enable.value);
      FinishedKeeps(s, r, ws, rs);
      EnableNextKeeps(Finished(s, r), answers, ws, rs);
      PumpKeeps(EnableNext(Finished(s, r), answers), answers, ws, rs);
    } else {
      var r := Read(s.read.value);
      FinishedKeeps(s, r, ws, rs);
      PumpKeeps(Finished(s, r), answers, ws, rs);
    }
  }

  lemma StepKeeps(s: State, answers: Answers, a: Action, ws: seq<Characteristic>, rs: seq<Characteristic>)
    requires Settled(s) && Accounted(s, ws, rs) && Possible(s, a)
    requires a.EnableNotification? ==> rs == []
    ensures Settled(Step(s, answers, a))
    ensures Accounted(Step(s, answers, a), ws + WantsWrite(a), rs + WantsRead(a))
  {
    hide Settled, Accounted, Possible, Step;
    assert ws + [] == ws && rs + [] == rs;
    match a
    case EnableNotification(c) => EnableNotificationKeeps(s, answers, c, ws);
    case RequestRead(c) => RequestReadKeeps(s, answers, c, ws, rs);
    case DescriptorWritten => CallbackKeeps(s, answers, a, ws, rs);
    case CharacteristicRead => CallbackKeeps(s, answers, a, ws, rs);
  }

  lemma {:induction false} NoReadsBefore(actions: seq<Action>)
    requires forall i :: 0 <= i < |actions| ==> !actions[i].RequestRead?
    ensures WantedReads(actions) == []
  {
    if actions != [] {
      NoReadsBefore(actions[..|actions| - 1]);
    }
  }

  lemma {:induction false} RunKeeps(answers: Answers, actions: seq<Action>, s: State)
    requires IsRun(answers, actions, s) && OneDiscovery(actions)
    ensures Settled(s) && Accounted(s, WantedWrites(actions), WantedReads(actions))
  {
    hide Settled, Accounted, Step, Possible;
    if actions == [] {
      InitialIsSettled();
    } else {
      var k := |actions| - 1;
      var t :| IsRun(answers, actions[..k], t) && Possible(t, actions[k]) && s == Step(t, answers, actions[k]);
      RunKeeps(answers, actions[..k], t);
      if actions[k].EnableNotification? {
        NoReadsBefore(actions[..k]);
      }
      StepKeeps(t, answers, actions[k], WantedWrites(actions[..k]), WantedReads(actions[..k]));
    }
  }

  lemma InitialIsSettled()
    ensures Settled(INITIAL) && Accounted(INITIAL, [], [])
  {
  }

  // The main results

  /** Discipline means that never more than one request is pending. */
  lemma {:induction false} DisciplineMeansOnePending(log: seq<Event>)
    requires Disciplined(log)
    ensures |Pending(log)| <= 1
  {
    if log != [] {
      var k := |log| - 1;
      DisciplineMeansOnePending(log[..k]);
      var before := Pending(log[..k]);
      match log[k]
      case Asked(r, accepted) => assert |before + multiset{r}| == 1;
      case Done(r) => assert before - multiset{r} <= before;
      case Dropped =>
    }
  }

  lemma {:induction false} DisciplinedPrefix(log: seq<Event>, n: nat)
    requires Disciplined(log) && n <= |log|
    ensures Disciplined(log[..n])
  {
    if n < |log| {
      DisciplinedPrefix(log[..|log| - 1], n);
      assert log[..|log| - 1][..n] == log[..n];
    } else {
      assert log[..n] == log;
    }
  }

  /** After one service discovery, whatever the stack refuses and whenever it calls back: at no
      moment is more than one request outstanding, and every descriptor write was asked for
      before the first read. */
  lemma OneRequestAtATime(answers: Answers, actions: seq<Action>, s: State, n: nat)
    requires IsRun(answers, actions, s) && OneDiscovery(actions) && n <= |s.log|
    ensures |Pending(s.log[..n])| <= 1
    ensures n < |s.log| && s.log[n].Asked? ==> Pending(s.log[..n]) == multiset{}
    ensures n < |s.log| && s.log[n].Asked? && s.log[n].request.Write? ==> AskedReads(s.log[..n]) == []
  {
    hide *;
    RunKeeps(answers, actions, s);
    SettledIsDisciplined(s);
    DisciplinedAt(s.log, n);
  }

  lemma SettledIsDisciplined(s: State)
    requires Settled(s)
    ensures Disciplined(s.log)
  {
    hide Disciplined, Pending, AskedReads;
  }

  lemma DisciplinedAt(log: seq<Event>, n: nat)
    requires Disciplined(log) && n <= |log|
    ensures |Pending(log[..n])| <= 1
    ensures n < |log| && log[n].Asked? ==> Pending(log[..n]) == multiset{}
    ensures n < |log| && log[n].Asked? && log[n].request.Write? ==> AskedReads(log[..n]) == []
  {
    hide Pending, AskedReads;
    DisciplinedPrefix(log, n);
    DisciplineMeansOnePending(log[..n]);
    if n < |log| {
      DisciplinedPrefix(log, n + 1);
      assert log[..n + 1][..n] == log[..n];
    }
  }

  /** Every request is made once, in the order of the calls, and as soon as the stack has nothing
      pending all have been made. */
  lemma EveryRequestIsMadeOnce(answers: Answers, actions: seq<Action>, s: State)
    requires IsRun(answers, actions, s) && OneDiscovery(actions)
    ensures AskedWrites(s.log) <= WantedWrites(actions) && AskedReads(s.log) <= WantedReads(actions)
    ensures Pending(s.log) == multiset{} ==>
              && AskedWrites(s.log) == WantedWrites(actions) && AskedReads(s.log) == WantedReads(actions)
              && s == State(None, [], None, [], s.log)
  {
    RunKeeps(answers, actions, s);
    hide IsRun, AskedWrites, AskedReads, WantedWrites, WantedReads, Disciplined, Pending;
    if Pending(s.log) == multiset{} {
      NothingOutstanding(s);
      assert AskedWrites(s.log) + [] == AskedWrites(s.log) && AskedReads(s.log) + [] == AskedReads(s.log);
    }
  }

  lemma NothingOutstanding(s: State)
    ensures Outstanding(s) == multiset{} ==> s.Idle()
  {
    assert s.enable.Some? ==> Outstanding(s)[Write(s.enable.value)] > 0;
    assert s.read.Some? ==> Outstanding(s)[Read(s.read.value)] > 0;
  }

  function Work(s: State): nat {
    |s.enableQueue| + |s.readQueue| + (if s.enable.Some? then 1 else 0) + (if s.read.Some? then 1 else 0)
  }

  lemma {:induction false} EnableNextAddsNoWork(s: State, answers: Answers)
    ensures Work(EnableNext(s, answers)) <= Work(s)
    decreases |s.enableQueue|
  {
    if s.enable.None? && s.enableQueue != [] {
      EnableNextAddsNoWork(AskWrite(s.(enableQueue := s.enableQueue[1..]), answers, s.enableQueue[0]), answers);
    }
  }

  lemma {:induction false} PumpAddsNoWork(s: State, answers: Answers)
    ensures Work(Pump(s, answers)) <= Work(s)
    decreases |s.readQueue|
  {
    if s.Idle() && s.readQueue != [] {
      PumpAddsNoWork(AskRead(s.(readQueue := s.readQueue[1..]), answers, s.readQueue[0]), answers);
    }
  }

  lemma CallbackLeavesLess(s: State, answers: Answers, a: Action)
    requires Orderly(s) && Possible(s, a) && (a.DescriptorWritten? || a.CharacteristicRead?)
    ensures Work(Step(s, answers, a)) < Work(s)
  {
    CallbackIsOutstanding(s, a);
    hide Orderly, Pending;
    if a.DescriptorWritten? {
      var done := s.(enable := None, log := s.log + [Done(Write(s.enable.value))]);
      EnableNextAddsNoWork(done, answers);
      PumpAddsNoWork(EnableNext(done, answers), answers);
    } else {
      PumpAddsNoWork(s.(read := None, log := s.log + [Done(Read(s.read.value))]), answers);
    }
  }

  /** Nothing is stranded: while the queues are not worked off the stack owes a callback, and each
      callback leaves less to do. */
  lemma CallbacksMakeProgress(answers: Answers, actions: seq<Action>, s: State)
    requires IsRun(answers, actions, s) && OneDiscovery(actions)
    ensures Work(s) > 0 ==> Possible(s, DescriptorWritten) || Possible(s, CharacteristicRead)
    ensures forall a :: Possible(s, a) && (a.DescriptorWritten? || a.CharacteristicRead?) ==>
              Work(Step(s, answers, a)) < Work(s)
  {
    RunKeeps(answers, actions, s);
    hide IsRun, Disciplined, Pending, Step, AskedReads;
    if s.enable.Some? {
      assert Write(s.enable.value) in Pending(s.log);
    } else if s.read.Some? {
      assert Read(s.read.value) in Pending(s.log);
    }
    forall a | Possible(s, a) && (a.DescriptorWritten? || a.CharacteristicRead?)
      ensures Work(Step(s, answers, a)) < Work(s)
    {
      CallbackLeavesLess(s, answers, a);
    }
  }

  // Exactly when requests overlap

  /** No request was ever accepted while one was pending. */
  predicate Spaced(log: seq<Event>) {
    log != [] ==>
      var k := |log| - 1;
      Spaced(log[..k]) && (log[k].Asked? && log[k].accepted ==> Pending(log[..k]) == multiset{})
  }

  /** enableNotification() looks at the pending write only: with a read pending it makes a second
      request, unless the stack refuses. */
  predicate Overlaps(s: State, answers: Answers, a: Action) {
    a.EnableNotification? && s.enable.None? && s.read.Some? && answers(|s.log|)
  }

  predicate Single(s: State) {
    && Pending(s.log) == Outstanding(s) && Spaced(s.log)
    && (s.enable.None? || s.read.None?)
  }

  predicate Tidy(s: State) {
    Single(s) && (s.enable.None? ==> s.enableQueue == [])
  }

  lemma SpacedOneMore(log: seq<Event>, e: Event)
    ensures Spaced(log + [e]) <==> Spaced(log) && (e.Asked? && e.accepted ==> Pending(log) == multiset{})
  {
    assert (log + [e])[..|log|] == log;
  }

  lemma AskKeepsSingle(s: State, answers: Answers, c: Characteristic)
    requires Single(s) && s.Idle()
    ensures Single(AskWrite(s, answers, c)) && Single(AskRead(s, answers, c))
    ensures s.log <= AskWrite(s, answers, c).log && s.log <= AskRead(s, answers, c).log
  {
    hide Spaced, Pending;
    var accepted := answers(|s.log|);
    LogOneMore(s.log, Asked(Write(c), accepted));
    LogOneMore(s.log, Asked(Read(c), accepted));
    SpacedOneMore(s.log, Asked(Write(c), accepted));
    SpacedOneMore(s.log, Asked(Read(c), accepted));
  }

  lemma {:induction false} EnableNextKeepsSingle(s: State, answers: Answers)
    requires Single(s) && s.read.None?
    ensures Tidy(EnableNext(s, answers)) && EnableNext(s, answers).read.None? && s.log <= EnableNext(s, answers).log
    decreases |s.enableQueue|
  {
    hide Spaced, Pending, Outstanding;
    if s.enable.None? && s.enableQueue != [] {
      var next := s.(enableQueue := s.enableQueue[1..]);
      SameRequests(s, next);
      AskKeepsSingle(next, answers, s.enableQueue[0]);
      EnableNextKeepsSingle(AskWrite(next, answers, s.enableQueue[0]), answers);
    }
  }

  lemma {:induction false} PumpKeepsTidy(s: State, answers: Answers)
    requires Tidy(s)
    ensures Tidy(Pump(s, answers)) && s.log <= Pump(s, answers).log
    decreases |s.readQueue|
  {
    hide Spaced, Pending, Outstanding;
    if s.Idle() && s.readQueue != [] {
      var next := s.(readQueue := s.readQueue[1..]);
      SameRequests(s, next);
      AskKeepsSingle(next, answers, s.readQueue[0]);
      PumpKeepsTidy(AskRead(next, answers, s.readQueue[0]), answers);
    }
  }

  lemma SameRequests(s: State, t: State)
    requires t.log == s.log && t.enable == s.enable && t.read == s.read
    ensures Single(s) ==> Single(t)
  {
  }

  lemma DoneKeepsSingle(s: State, a: Action)
    requires Single(s) && Possible(s, a) && (a.DescriptorWritten? || a.CharacteristicRead?)
    ensures a.DescriptorWritten? ==> s.enable.Some? && Single(Finished(s, Write(s.enable.value)))
    ensures a.CharacteristicRead? ==> s.read.Some? && Single(Finished(s, Read(s.read.value)))
  {
    hide Spaced;
    if a.DescriptorWritten? {
      var r :| r in Outstanding(s) && r.Write?;
      LogOneMore(s.log, Done(r));
      SpacedOneMore(s.log, Done(r));
    } else {
      var r :| r in Outstanding(s) && r.Read?;
      LogOneMore(s.log, Done(r));
      SpacedOneMore(s.log, Done(r));
    }
  }

  /** No other action overlaps: outside the guard every step keeps requests apart. */
  lemma OtherStepsKeepTidy(s: State, answers: Answers, a: Action)
    requires Tidy(s) && Possible(s, a) && !Overlaps(s, answers, a)
    ensures Tidy(Step(s, answers, a)) && s.log <= Step(s, answers, a).log
  {
    hide Spaced, Pending, Outstanding, EnableNext, Pump;
    match a
    case EnableNotification(c) =>
      if s.enable.Some? {
        SameRequests(s, Step(s, answers, a));
      } else if s.read.None? {
        AskKeepsSingle(s, answers, c);
        EnableNextKeepsSingle(AskWrite(s, answers, c), answers);
      } else {
        RefusedWriteKeepsTidy(s, answers, c);
      }
    case RequestRead(c) =>
      SameRequests(s, s.(readQueue := s.readQueue + [c]));
      if s.Idle() {
        AskKeepsSingle(s, answers, c);
      }
    case DescriptorWritten =>
      DoneKeepsSingle(s, a);
      var done := Finished(s, Write(s.enable.value));
      EnableNextKeepsSingle(done, answers);
      PumpKeepsTidy(EnableNext(done, answers), answers);
    case CharacteristicRead =>
      DoneKeepsSingle(s, a);
      PumpKeepsTidy(Finished(s, Read(s.read.value)), answers);
  }

  lemma RefusedWriteKeepsTidy(s: State, answers: Answers, c: Characteristic)
    requires Tidy(s) && s.enable.None? && !answers(|s.log|)
    ensures EnableNext(AskWrite(s, answers, c), answers) == AskWrite(s, answers, c)
    ensures Tidy(AskWrite(s, answers, c))
  {
    hide Spaced, Pending, Outstanding;
    LogOneMore(s.log, Asked(Write(c), false));
    SpacedOneMore(s.log, Asked(Write(c), false));
    SameOutstanding(s, AskWrite(s, answers, c));
  }

  lemma SameOutstanding(s: State, t: State)
    requires t.enable == s.enable && t.read == s.read
    ensures Outstanding(t) == Outstanding(s)
  {
  }

  lemma OverlapMakesTwo(s: State, answers: Answers, a: Action)
    requires Tidy(s) && Overlaps(s, answers, a)
    ensures Pending(Step(s, answers, a).log) == multiset{Read(s.read.value), Write(a.c)}
    ensures s.log <= Step(s, answers, a).log
  {
    hide Spaced, Pending;
    LogOneMore(s.log, Asked(Write(a.c), true));
  }

  lemma {:induction false} SpacedMeansOnePending(log: seq<Event>)
    requires Spaced(log)
    ensures |Pending(log)| <= 1
  {
    if log != [] {
      hide PendingAfter;
      var k := |log| - 1;
      SpacedMeansOnePending(log[..k]);
      OneMorePending(Pending(log[..k]), log[k]);
    }
  }

  lemma {:induction false} SpacedPrefix(log: seq<Event>, n: nat)
    requires Spaced(log) && n <= |log|
    ensures Spaced(log[..n])
  {
    hide Pending;
    if n < |log| {
      SpacedPrefix(log[..|log| - 1], n);
      assert log[..|log| - 1][..n] == log[..n];
    } else {
      assert log[..n] == log;
    }
  }

  lemma OneMorePending(pending: multiset<Request>, e: Event)
    requires |pending| <= 1 && (e.Asked? && e.accepted ==> pending == multiset{})
    ensures |PendingAfter(pending, e)| <= 1
  {
    match e
    case Asked(r, accepted) => if accepted { assert |pending + multiset{r}| == 1; }
    case Done(r) => assert pending - multiset{r} <= pending;
    case Dropped =>
  }

  /** From any state with at most one request pending: a step leaves two pending if and only if it
      asks for a notification while a read is pending and the stack accepts. */
  lemma StepOverlapsIff(s: State, answers: Answers, a: Action)
    requires Tidy(s) && Possible(s, a)
    ensures |Pending(Step(s, answers, a).log)| > 1 <==> Overlaps(s, answers, a)
  {
    if Overlaps(s, answers, a) {
      OverlapMakesTwo(s, answers, a);
    } else {
      OtherStepsKeepTidy(s, answers, a);
      hide Step, Overlaps, Pending, Possible;
      var log := Step(s, answers, a).log;
      SpacedMeansOnePending(log);
    }
  }

  lemma {:induction false} RunIsDeterministic(answers: Answers, actions: seq<Action>, s: State, t: State)
    requires IsRun(answers, actions, s) && IsRun(answers, actions, t)
    ensures s == t
  {
    if actions != [] {
      hide Step, Possible;
      var k := |actions| - 1;
      var u :| IsRun(answers, actions[..k], u) && Possible(u, actions[k]) && s == Step(u, answers, actions[k]);
      var v :| IsRun(answers, actions[..k], v) && Possible(v, actions[k]) && t == Step(v, answers, actions[k]);
      RunIsDeterministic(answers, actions[..k], u, v);
    }
  }

  /** Some action of the run is taken in a state in which it overlaps. */
  ghost predicate SomeOverlap(answers: Answers, actions: seq<Action>) {
    actions != [] && (
      var k := |actions| - 1;
      || SomeOverlap(answers, actions[..k])
      || exists t :: IsRun(answers, actions[..k], t) && Overlaps(t, answers, actions[k]))
  }

  predicate OneAtATime(log: seq<Event>) {
    forall n :: 0 <= n <= |log| ==> |Pending(log[..n])| <= 1
  }

  lemma PrefixOneAtATime(log: seq<Event>, more: seq<Event>)
    requires log <= more && OneAtATime(more)
    ensures OneAtATime(log)
  {
    hide Pending;
    forall n | 0 <= n <= |log|
      ensures |Pending(log[..n])| <= 1
    {
      assert more[..n] == log[..n];
    }
  }

  lemma SpacedIsOneAtATime(log: seq<Event>)
    requires Spaced(log)
    ensures OneAtATime(log)
  {
    hide Pending, Spaced;
    forall n | 0 <= n <= |log|
      ensures |Pending(log[..n])| <= 1
    {
      SpacedPrefix(log, n);
      SpacedMeansOnePending(log[..n]);
    }
  }

  lemma LastIsOneAtATime(log: seq<Event>)
    requires OneAtATime(log)
    ensures |Pending(log)| <= 1
  {
    hide Pending;
    assert log[..|log|] == log;
  }

  lemma {:induction false} LogsGrow(s: State, answers: Answers, a: Action)
    ensures s.log <= Step(s, answers, a).log
  {
    match a
    case EnableNotification(c) =>
      if s.enable.None? {
        EnableNextGrows(AskWrite(s, answers, c), answers);
      }
    case RequestRead(c) =>
    case DescriptorWritten =>
      var log := if s.enable.Some? then s.log + [Done(Write(s.enable.value))] else s.log;
      var done := s.(enable := None, log := log);
      EnableNextGrows(done, answers);
      PumpGrows(EnableNext(done, answers), answers);
    case CharacteristicRead =>
      var log := if s.read.Some? then s.log + [Done(Read(s.read.value))] else s.log;
      PumpGrows(s.(read := None, log := log), answers);
  }

  lemma {:induction false} EnableNextGrows(s: State, answers: Answers)
    ensures s.log <= EnableNext(s, answers).log
    decreases |s.enableQueue|
  {
    if s.enable.None? && s.enableQueue != [] {
      EnableNextGrows(AskWrite(s.(enableQueue := s.enableQueue[1..]), answers, s.enableQueue[0]), answers);
    }
  }

  lemma {:induction false} PumpGrows(s: State, answers: Answers)
    ensures s.log <= Pump(s, answers).log
    decreases |s.readQueue|
  {
    if s.Idle() && s.readQueue != [] {
      PumpGrows(AskRead(s.(readQueue := s.readQueue[1..]), answers, s.readQueue[0]), answers);
    }
  }

  /** For every run, with any number of service discoveries: at no moment is more than one request
      pending, if and only if no notification is asked for while a read is pending and the stack
      accepts the write. */
  lemma {:induction false} RunsOverlapIff(answers: Answers, actions: seq<Action>, s: State)
    requires IsRun(answers, actions, s)
    ensures OneAtATime(s.log) <==> !SomeOverlap(answers, actions)
    ensures OneAtATime(s.log) ==> Tidy(s)
  {
    hide Tidy, OneAtATime, Step, Possible, Overlaps;
    if actions == [] {
      InitialIsTidy();
    } else {
      var k := |actions| - 1;
      var a := actions[k];
      var t :| IsRun(answers, actions[..k], t) && Possible(t, a) && s == Step(t, answers, a);
      RunsOverlapIff(answers, actions[..k], t);
      LogsGrow(t, answers, a);
      if OneAtATime(s.log) {
        PrefixOneAtATime(t.log, s.log);
        LastIsOneAtATime(s.log);
        StepOverlapsIff(t, answers, a);
        OtherStepsKeepTidy(t, answers, a);
        forall u | IsRun(answers, actions[..k], u)
          ensures u == t
        {
          RunIsDeterministic(answers, actions[..k], u, t);
        }
      } else if !SomeOverlap(answers, actions) {
        OtherStepsKeepTidy(t, answers, a);
        TidyIsOneAtATime(s);
      }
    }
  }

  lemma InitialIsTidy()
    ensures Tidy(INITIAL) && OneAtATime(INITIAL.log)
  {
    TidyIsOneAtATime(INITIAL);
  }

  lemma TidyIsOneAtATime(s: State)
    requires Tidy(s)
    ensures OneAtATime(s.log)
  {
    hide Spaced, Pending, Outstanding;
    SpacedIsOneAtATime(s.log);
  }

  /** Such a run, which a second service discovery could make. */
  lemma SecondDiscoveryOverlaps(c: Characteristic, d: Characteristic)
    ensures var actions := [RequestRead(c), EnableNotification(d)];
            exists s :: IsRun(_ => true, actions, s) && Pending(s.log) == multiset{Read(c), Write(d)}
  {
    var answers: Answers := _ => true;
    var s1, a1 := Step(INITIAL, answers, RequestRead(c)), [RequestRead(c)];
    var s2, actions := Step(s1, answers, EnableNotification(d)), [RequestRead(c), EnableNotification(d)];
    assert s1 == State(None, [], Some(c), [], [Asked(Read(c), true)]);
    assert s2.log == s1.log + [Asked(Write(d), true)];
    LogOneMore([], Asked(Read(c), true));
    LogOneMore(s1.log, Asked(Write(d), true));
    assert [] + [Asked(Read(c), true)] == s1.log && a1 + [EnableNotification(d)] == actions && [] + a1 == a1;
    assert IsRun(answers, [], INITIAL);
    hide Step;
    RunOneMore(answers, [], INITIAL, RequestRead(c));
    RunOneMore(answers, a1, s1, EnableNotification(d));
  }

  lemma RunOneMore(answers: Answers, actions: seq<Action>, s: State, a: Action)
    requires IsRun(answers, actions, s) && Possible(s, a)
    ensures IsRun(answers, actions + [a], Step(s, answers, a))
  {
    hide Step, Possible;
    var more := actions + [a];
    assert more[..|actions|] == actions && more[|actions|] == a;
  }

  // Disconnects

  /** What may happen to a sensor in the long run.  The callback for a disconnect leaves the fields
      as they are. */
  datatype Happening = Call(a: Action) | Disconnect

  predicate CanHappen(s: State, h: Happening) {
    h.Call? ==> Possible(s, h.a)
  }

  function Drop(s: State): State {
    s.(log := s.log + [Dropped])
  }

  function Happens(s: State, answers: Answers, h: Happening): State {
    if h.Call? then Step(s, answers, h.a) else Drop(s)
  }

  ghost predicate Continues(s: State, answers: Answers, hs: seq<Happening>, t: State) {
    if hs == [] then t == s
    else
      var k := |hs| - 1;
      exists u :: Continues(s, answers, hs[..k], u) && CanHappen(u, hs[k]) && t == Happens(u, answers, hs[k])
  }

  /** No descriptor write is ever asked for again, with any later connections and discoveries. */
  ghost predicate NeverWrites(s: State, answers: Answers) {
    forall hs, t :: Continues(s, answers, hs, t) ==> AskedWrites(t.log) == AskedWrites(s.log)
  }

  ghost predicate NeverReads(s: State, answers: Answers) {
    forall hs, t :: Continues(s, answers, hs, t) ==> AskedReads(t.log) == AskedReads(s.log)
  }

  /** The callback that would clear currentEnableNotification or currentRead will not come. */
  predicate LostWrite(s: State) {
    s.enable.Some? && Pending(s.log) == multiset{}
  }

  predicate LostRead(s: State) {
    s.read.Some? && forall r :: r in Pending(s.log) ==> r.Write?
  }

  lemma LostWriteStays(s: State, answers: Answers, h: Happening)
    requires LostWrite(s) && CanHappen(s, h)
    ensures var t := Happens(s, answers, h);
            && LostWrite(t)
            && AskedWrites(t.log) == AskedWrites(s.log) && AskedReads(t.log) == AskedReads(s.log)
  {
    hide Pending, AskedWrites, AskedReads, EnableNext, Pump;
    LogOneMore(s.log, Dropped);
    assert AskedWrites(s.log) + [] == AskedWrites(s.log) && AskedReads(s.log) + [] == AskedReads(s.log);
  }

  lemma AskWriteKeepsLostRead(s: State, answers: Answers, c: Characteristic)
    requires LostRead(s)
    ensures LostRead(AskWrite(s, answers, c)) && AskedReads(AskWrite(s, answers, c).log) == AskedReads(s.log)
  {
    hide Pending, AskedWrites, AskedReads;
    LogOneMore(s.log, Asked(Write(c), answers(|s.log|)));
    assert AskedReads(s.log) + [] == AskedReads(s.log);
  }

  lemma {:induction false} EnableNextKeepsLostRead(s: State, answers: Answers)
    requires LostRead(s)
    ensures LostRead(EnableNext(s, answers)) && AskedReads(EnableNext(s, answers).log) == AskedReads(s.log)
    decreases |s.enableQueue|
  {
    if s.enable.None? && s.enableQueue != [] {
      hide LostRead, AskedReads;
      var next := s.(enableQueue := s.enableQueue[1..]);
      SameLostRead(s, next);
      AskWriteKeepsLostRead(next, answers, s.enableQueue[0]);
      EnableNextKeepsLostRead(AskWrite(next, answers, s.enableQueue[0]), answers);
    }
  }

  lemma SameLostRead(s: State, t: State)
    requires LostRead(s) && t.read == s.read && t.log == s.log
    ensures LostRead(t)
  {
  }

  lemma LoggedKeepsLostRead(s: State, t: State, e: Event)
    requires LostRead(s) && t.read == s.read && t.log == s.log + [e] && !e.Asked?
    ensures LostRead(t) && AskedReads(t.log) == AskedReads(s.log)
  {
    hide Pending, AskedWrites, AskedReads;
    LogOneMore(s.log, e);
    assert AskedReads(s.log) + [] == AskedReads(s.log);
  }

  lemma LostReadStays(s: State, answers: Answers, h: Happening)
    requires LostRead(s) && CanHappen(s, h)
    ensures LostRead(Happens(s, answers, h)) && AskedReads(Happens(s, answers, h).log) == AskedReads(s.log)
  {
    assert s.read.Some? && !Possible(s, CharacteristicRead);
    hide LostRead, Possible, AskedReads, EnableNext;
    match h
    case Disconnect => LoggedKeepsLostRead(s, Drop(s), Dropped);
    case Call(a) =>
      match a
      case EnableNotification(c) =>
        if s.enable.None? {
          AskWriteKeepsLostRead(s, answers, c);
          EnableNextKeepsLostRead(AskWrite(s, answers, c), answers);
        } else {
          SameLostRead(s, Step(s, answers, a));
        }
      case RequestRead(c) => SameLostRead(s, Step(s, answers, a));
      case DescriptorWritten =>
        var done := s.(enable := None);
        if s.enable.Some? {
          done := s.(enable := None, log := s.log + [Done(Write(s.enable.value))]);
          LoggedKeepsLostRead(s, done, Done(Write(s.enable.value)));
        } else {
          SameLostRead(s, done);
        }
        EnableNextKeepsLostRead(done, answers);
        LostReadIsBusy(EnableNext(done, answers));
      case CharacteristicRead =>
  }

  lemma LostReadIsBusy(s: State)
    requires LostRead(s)
    ensures !s.Idle()
  {
  }

  lemma {:induction false} LostForGood(s: State, answers: Answers, hs: seq<Happening>, t: State)
    requires Continues(s, answers, hs, t)
    ensures LostWrite(s) ==> LostWrite(t) && AskedWrites(t.log) == AskedWrites(s.log)
                             && AskedReads(t.log) == AskedReads(s.log)
    ensures LostRead(s) ==> LostRead(t) && AskedReads(t.log) == AskedReads(s.log)
  {
    if hs != [] {
      var k := |hs| - 1;
      var u :| Continues(s, answers, hs[..k], u) && CanHappen(u, hs[k]) && t == Happens(u, answers, hs[k]);
      hide LostWrite, LostRead, AskedWrites, AskedReads, CanHappen, Happens;
      LostForGood(s, answers, hs[..k], u);
      if LostWrite(s) {
        LostWriteStays(u, answers, hs[k]);
      }
      if LostRead(s) {
        LostReadStays(u, answers, hs[k]);
      }
    }
  }

  lemma OneCall(s: State, answers: Answers, a: Action)
    requires Possible(s, a)
    ensures Continues(s, answers, [Call(a)], Step(s, answers, a))
  {
    var hs, t := [Call(a)], Step(s, answers, a);
    assert hs[..0] == [] && Continues(s, answers, hs[..0], s);
    assert CanHappen(s, hs[0]) && t == Happens(s, answers, hs[0]);
  }

  lemma {:induction false} EnableNextWritesMore(s: State, answers: Answers)
    ensures |AskedWrites(EnableNext(s, answers).log)| >= |AskedWrites(s.log)|
    decreases |s.enableQueue|
  {
    if s.enable.None? && s.enableQueue != [] {
      hide AskedWrites;
      var next := s.(enableQueue := s.enableQueue[1..]);
      LogOneMore(next.log, Asked(Write(s.enableQueue[0]), answers(|next.log|)));
      EnableNextWritesMore(AskWrite(next, answers, s.enableQueue[0]), answers);
    }
  }

  /** What a disconnect does for good, from every state: no notification is ever enabled again,
      exactly if a descriptor write was recorded as current, and nothing is ever read again,
      exactly if any request was. */
  lemma DisconnectBlocksIff(s: State, answers: Answers)
    ensures NeverWrites(Drop(s), answers) <==> s.enable.Some?
    ensures NeverReads(Drop(s), answers) <==> !s.Idle()
  {
    var d := Drop(s);
    LogOneMore(s.log, Dropped);
    forall hs, t | Continues(d, answers, hs, t)
      ensures s.enable.Some? ==> AskedWrites(t.log) == AskedWrites(d.log)
      ensures !s.Idle() ==> AskedReads(t.log) == AskedReads(d.log)
    {
      LostForGood(d, answers, hs, t);
    }
    hide Continues, Pending, AskedWrites, AskedReads, EnableNext;
    if s.enable.None? {
      var w := AskWrite(d, answers, 0);
      OneCall(d, answers, EnableNotification(0));
      LogOneMore(d.log, Asked(Write(0), answers(|d.log|)));
      EnableNextWritesMore(w, answers);
      assert AskedWrites(Step(d, answers, EnableNotification(0)).log) != AskedWrites(d.log);
    }
    if s.Idle() {
      OneCall(d, answers, RequestRead(0));
      LogOneMore(d.log, Asked(Read(0), answers(|d.log|)));
      assert AskedReads(Step(d, answers, RequestRead(0)).log) != AskedReads(d.log);
    }
  }

  /** In terms of the stack, as long as requests have not overlapped: the disconnect must not come
      while a callback is due. */
  lemma DisconnectBlocksIfPending(answers: Answers, actions: seq<Action>, s: State)
    requires IsRun(answers, actions, s) && !SomeOverlap(answers, actions)
    ensures NeverWrites(Drop(s), answers) <==> Possible(s, DescriptorWritten)
    ensures NeverReads(Drop(s), answers) <==> Possible(s, DescriptorWritten) || Possible(s, CharacteristicRead)
  {
    hide *;
    RunsOverlapIff(answers, actions, s);
    DisconnectBlocksIff(s, answers);
    CallbacksDue(s);
  }

  lemma CallbacksDue(s: State)
    requires Tidy(s)
    ensures Possible(s, DescriptorWritten) <==> s.enable.Some?
    ensures Possible(s, CharacteristicRead) <==> s.read.Some?
    ensures s.Idle() <==> s.enable.None? && s.read.None?
  {
    hide Pending, Spaced;
    if s.enable.Some? {
      assert Write(s.enable.value) in Outstanding(s);
    }
    if s.read.Some? {
      assert Read(s.read.value) in Outstanding(s);
    }
  }

  /** The smallest case: a disconnect during the first descriptor write.  A notification asked for
      after it is queued, and stays so. */
  lemma DisconnectDuringWrite(c: Characteristic, d: Characteristic)
    ensures var answers: Answers := _ => true;
            var s := Drop(Step(INITIAL, answers, EnableNotification(c)));
            && NeverWrites(s, answers) && NeverReads(s, answers)
            && Step(s, answers, EnableNotification(d)) == s.(enableQueue := [d])
            && AskedWrites(s.log) == [c]
  {
    var answers: Answers := _ => true;
    var s := Step(INITIAL, answers, EnableNotification(c));
    DisconnectBlocksIff(s, answers);
    hide NeverWrites, NeverReads;
    assert s == State(Some(c), [], None, [], [Asked(Write(c), true)]);
    LogOneMore([], Asked(Write(c), true));
    LogOneMore(s.log, Dropped);
    assert [] + [Asked(Write(c), true)] == s.log;
  }

  // The program

  class Sensor {
    const answers: Answers
    var enable: Option<Characteristic>
    var enableQueue: seq<Characteristic>
    var read: Option<Characteristic>
    var readQueue: seq<Characteristic>
    var log: seq<Event>

    function View(): State
      reads this
    {
      State(enable, enableQueue, read, readQueue, log)
    }

    constructor (answers: Answers)
      ensures View() == INITIAL && this.answers == answers
    {
      this.answers := answers;
      enable, enableQueue, read, readQueue, log := None, [], None, [], [];
    }

    method AskStack(request: Request) returns (accepted: bool)
      modifies this`log
      ensures accepted == answers(|old(log)|) && log == old(log) + [Asked(request, accepted)]
    {
      accepted := answers(|log|);
      log := log + [Asked(request, accepted)];
    }

    method EnableNextNotification()
      modifies this
      ensures View() == EnableNext(old(View()), answers)
    {
      while enable.None?
        invariant EnableNext(View(), answers) == EnableNext(old(View()), answers)
        decreases |enableQueue|, if enable.None? then 1 else 0
      {
        if enableQueue == [] {
          return;
        }
        enable, enableQueue := Some(enableQueue[0]), enableQueue[1..];
        var accepted := AskStack(Write(enable.value));
        if !accepted {
          enable := None;
        }
      }
    }

    method EnableNotification(c: Characteristic)
      modifies this
      ensures View() == Step(old(View()), answers, Action.EnableNotification(c))
    {
      if enable.None? {
        enable := Some(c);
        var accepted := AskStack(Write(c));
        if !accepted {
          enable := None;
          EnableNextNotification();
        }
      } else {
        enableQueue := enableQueue + [c];
      }
    }

    method RequestRead(c: Characteristic)
      modifies this
      ensures View() == Step(old(View()), answers, Action.RequestRead(c))
    {
      if enable.Some? || read.Some? {
        readQueue := readQueue + [c];
      } else {
        read := Some(c);
        var accepted := AskStack(Read(c));
        if !accepted {
          read := None;
        }
      }
    }

    method PumpReadQueue()
      modifies this
      ensures View() == Pump(old(View()), answers)
      decreases |readQueue|
    {
      if enable.Some? || read.Some? || readQueue == [] {
        return;
      }
      read, readQueue := Some(readQueue[0]), readQueue[1..];
      var accepted := AskStack(Read(read.value));
      if !accepted {
        read := None;
        PumpReadQueue();
      }
    }

    method OnDescriptorWrite()
      modifies this
      ensures View() == Step(old(View()), answers, DescriptorWritten)
    {
      if enable.Some? {
        log := log + [Done(Write(enable.value))];
      }
      enable := None;
      EnableNextNotification();
      if enable.None? {
        PumpReadQueue();
      }
    }

    method OnCharacteristicRead()
      modifies this
      ensures View() == Step(old(View()), answers, CharacteristicRead)
    {
      if read.Some? {
        log := log + [Done(Read(read.value))];
      }
      read := None;
      PumpReadQueue();
    }
  }
}
