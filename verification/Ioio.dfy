/** The IOIO connection protocol (android/src/IOIOAgent.java, IOIOMultiAgent.java, IOIOHelper.java):
    any number of connection threads, of which one connection at a time is elected and announced
    to the registered listeners. */
module Ioio {
  import opened Common

  type Listener = nat

  /** A connection object; a new one is made for every attempt to connect. */
  type Connection = nat

  /** What the listeners see, with the moments at which they are registered and removed. */
  datatype Event = Added(l: Listener) | Removed(l: Listener)
                 | Connected(l: Listener, c: Connection) | Disconnected(l: Listener, was: Option<Connection>)

  // IOIOHelper

  datatype Helper = Helper(ioio: Option<Connection>, closedListeners: seq<Listener>, openListeners: seq<Listener>,
                           log: seq<Event>) {
    predicate Registered(l: Listener) {
      l in closedListeners || l in openListeners
    }
  }

  function Announce(ls: seq<Listener>, c: Connection): (es: seq<Event>)
    ensures |es| == |ls| && forall i :: 0 <= i < |ls| ==> es[i] == Connected(ls[i], c)
  {
    seq(|ls|, i requires 0 <= i < |ls| => Connected(ls[i], c))
  }

  function Retract(ls: seq<Listener>, c: Connection): (es: seq<Event>)
    ensures |es| == |ls| && forall i :: 0 <= i < |ls| ==> es[i] == Disconnected(ls[i], Some(c))
  {
    seq(|ls|, i requires 0 <= i < |ls| => Disconnected(ls[i], Some(c)))
  }

  function OpenAll(h: Helper, c: Connection): Helper {
    h.(closedListeners := [], openListeners := h.openListeners + h.closedListeners,
       log := h.log + Announce(h.closedListeners, c))
  }

  function CloseAll(h: Helper, c: Connection): Helper {
    h.(openListeners := [], closedListeners := h.closedListeners + h.openListeners,
       log := h.log + Retract(h.openListeners, c))
  }

  function Without(ls: seq<Listener>, l: Listener): (r: seq<Listener>)
    ensures forall k :: k in r ==> k in ls
    ensures forall k :: k in ls && k != l ==> k in r
  {
    if ls == [] then [] else if ls[0] == l then ls[1..] else [ls[0]] + Without(ls[1..], l)
  }

  function Add(h: Helper, l: Listener): Helper {
    h.(closedListeners := h.closedListeners + [l], log := h.log + [Added(l)])
  }

  function Remove(h: Helper, l: Listener): Helper {
    if l in h.openListeners
    then h.(openListeners := Without(h.openListeners, l), log := h.log + [Disconnected(l, h.ioio), Removed(l)])
    else if l in h.closedListeners
    then h.(closedListeners := Without(h.closedListeners, l), log := h.log + [Removed(l)])
    else h
  }

  function Cycle(h: Helper, l: Listener): Helper {
    if h.ioio.None? || l !in h.openListeners then h
    else h.(openListeners := Without(h.openListeners, l), closedListeners := h.closedListeners + [l],
            log := h.log + [Disconnected(l, h.ioio)])
  }

  function Idle(h: Helper): Helper {
    if h.ioio.None? then h else OpenAll(h, h.ioio.value)
  }

  // IOIOMultiAgent and the agents

  /** `held` is the connection of each agent's thread; `used` are all connections made so far. */
  datatype State = State(held: seq<Option<Connection>>, used: set<Connection>,
                         elected: Option<Connection>, helper: Helper)

  function Initial(agents: nat): State {
    State(seq(agents, _ => None), {}, None, Helper(None, [], [], []))
  }

  datatype Action = AgentConnects(a: nat, c: Connection) | AgentDisconnects(a: nat) | AgentIdles(a: nat)
                  | AddListener(l: Listener) | RemoveListener(l: Listener) | CycleListener(l: Listener)

  /** A thread without a connection may make a new one, and one with a connection may give it up;
      nobody registers a listener that is registered. */
  predicate Possible(s: State, a: Action) {
    match a
    case AgentConnects(a, c) => a < |s.held| && s.held[a].None? && c !in s.used
    case AgentDisconnects(a) => a < |s.held| && s.held[a].Some?
    case AgentIdles(a) => a < |s.held|
    case AddListener(l) => !s.helper.Registered(l)
    case RemoveListener(l) => true
    case CycleListener(l) => true
  }

  function Step(s: State, a: Action): State
    requires Possible(s, a)
  {
    match a
    case AgentConnects(a, c) =>
      var t := s.(held := s.held[a := Some(c)], used := s.used + {c});
      if s.elected.Some? then t else t.(elected := Some(c), helper := OpenAll(s.helper, c).(ioio := Some(c)))
    case AgentDisconnects(a) =>
      var c := s.held[a].value;
      var t := s.(held := s.held[a := None]);
      if s.elected != Some(c) then t else t.(elected := None, helper := CloseAll(s.helper.(ioio := None), c))
    case AgentIdles(a) => if s.elected != s.held[a] then s else s.(helper := Idle(s.helper))
    case AddListener(l) => s.(helper := Add(s.helper, l))
    case RemoveListener(l) => s.(helper := Remove(s.helper, l))
    case CycleListener(l) => s.(helper := Cycle(s.helper, l))
  }

  ghost predicate IsRun(agents: nat, actions: seq<Action>, s: State) {
    if actions == [] then s == Initial(agents)
    else
      var k := |actions| - 1;
      exists t :: IsRun(agents, actions[..k], t) && Possible(t, actions[k]) && s == Step(t, actions[k])
  }

  // The protocol of one listener

  datatype Phase = Away | Waiting | Open(c: Connection) | Broken

  /** A registered listener is told of a connection, then of the end of that same connection, and
      so on in turn; it is removed only while it knows of none, and hears nothing after. */
  function Next(p: Phase, e: Event): Phase {
    match e
    case Added(_) => if p.Away? then Waiting else Broken
    case Connected(_, c) => if p.Waiting? then Open(c) else Broken
    case Disconnected(_, was) => if p.Open? && was == Some(p.c) then Waiting else Broken
    case Removed(_) => if p.Waiting? then Away else Broken
  }

  function PhaseOf(log: seq<Event>, l: Listener): Phase {
    if log == [] then Away
    else
      var k := |log| - 1;
      var p := PhaseOf(log[..k], l);
      if log[k].l == l then Next(p, log[k]) else p
  }

  lemma PhaseAfter(log: seq<Event>, e: Event, l: Listener)
    ensures PhaseOf(log + [e], l) == if e.l == l then Next(PhaseOf(log, l), e) else PhaseOf(log, l)
  {
    assert (log + [e])[..|log|] == log;
  }

  lemma {:induction false} BrokenStaysBroken(log: seq<Event>, n: nat, l: Listener)
    requires n <= |log| && PhaseOf(log, l) != Broken
    ensures PhaseOf(log[..n], l) != Broken
  {
    if n < |log| {
      BrokenStaysBroken(log[..|log| - 1], n, l);
      assert log[..|log| - 1][..n] == log[..n];
    } else {
      assert log[..n] == log;
    }
  }

  predicate Distinct(ls: seq<Listener>) {
    forall i, j :: 0 <= i < j < |ls| ==> ls[i] != ls[j]
  }

  lemma LastIsNew(ls: seq<Listener>, l: Listener)
    requires Distinct(ls) && ls != []
    ensures var k := |ls| - 1;
            && Distinct(ls[..k]) && ls[k] !in ls[..k] && (l in ls <==> l in ls[..k] || l == ls[k])
  {
  }

  lemma {:induction false} PhaseAfterAnnounce(log: seq<Event>, ls: seq<Listener>, c: Connection, l: Listener)
    requires Distinct(ls)
    ensures PhaseOf(log + Announce(ls, c), l)
            == if l !in ls then PhaseOf(log, l) else if PhaseOf(log, l).Waiting? then Open(c) else Broken
  {
    if ls == [] {
      assert log + Announce(ls, c) == log;
    } else {
      var k := |ls| - 1;
      LastIsNew(ls, l);
      assert Announce(ls, c) == Announce(ls[..k], c) + [Connected(ls[k], c)];
      hide Distinct, PhaseOf, Announce;
      assert log + Announce(ls, c) == log + Announce(ls[..k], c) + [Connected(ls[k], c)];
      PhaseAfterAnnounce(log, ls[..k], c, l);
      PhaseAfter(log + Announce(ls[..k], c), Connected(ls[k], c), l);
    }
  }

  lemma {:induction false} PhaseAfterRetract(log: seq<Event>, ls: seq<Listener>, c: Connection, l: Listener)
    requires Distinct(ls)
    ensures PhaseOf(log + Retract(ls, c), l)
            == if l !in ls then PhaseOf(log, l) else if PhaseOf(log, l) == Open(c) then Waiting else Broken
  {
    if ls == [] {
      assert log + Retract(ls, c) == log;
    } else {
      var k := |ls| - 1;
      LastIsNew(ls, l);
      assert Retract(ls, c) == Retract(ls[..k], c) + [Disconnected(ls[k], Some(c))];
      hide Distinct, PhaseOf, Retract;
      assert log + Retract(ls, c) == log + Retract(ls[..k], c) + [Disconnected(ls[k], Some(c))];
      PhaseAfterRetract(log, ls[..k], c, l);
      PhaseAfter(log + Retract(ls[..k], c), Disconnected(ls[k], Some(c)), l);
    }
  }

  // The invariant

  function Expected(h: Helper, l: Listener): Phase {
    if l in h.openListeners then (if h.ioio.Some? then Open(h.ioio.value) else Broken)
    else if l in h.closedListeners then Waiting
    else Away
  }

  /** Each listener is in at most one list, once, and knows what its list says. */
  ghost predicate HelperInv(h: Helper) {
    && Distinct(h.closedListeners + h.openListeners) && (h.ioio.None? ==> h.openListeners == [])
    && forall l :: PhaseOf(h.log, l) == Expected(h, l)
  }

  ghost predicate Inv(s: State) {
    && s.elected == s.helper.ioio && HelperInv(s.helper)
    && (s.elected.Some? ==> s.elected in s.held)
    && (forall a :: 0 <= a < |s.held| && s.held[a].Some? ==> s.held[a].value in s.used)
    && (forall a, b :: 0 <= a < b < |s.held| && s.held[a].Some? ==> s.held[a] != s.held[b])
  }

  lemma DistinctParts(a: seq<Listener>, b: seq<Listener>)
    ensures Distinct(a + b) <==> Distinct(a) && Distinct(b) && forall l :: l in a ==> l !in b
  {
    var c := a + b;
    if Distinct(c) {
      PartsOfDistinct(a, b);
    } else if Distinct(a) && Distinct(b) && forall l :: l in a ==> l !in b {
      forall i, j | 0 <= i < j < |c|
        ensures c[i] != c[j]
      {
        if j < |a| {
          assert c[i] == a[i] && c[j] == a[j];
        } else if |a| <= i {
          assert c[i] == b[i - |a|] && c[j] == b[j - |a|];
        } else {
          assert c[i] == a[i] && a[i] in a && c[j] == b[j - |a|] && b[j - |a|] in b;
        }
      }
    }
  }

  lemma PartsOfDistinct(a: seq<Listener>, b: seq<Listener>)
    requires Distinct(a + b)
    ensures Distinct(a) && Distinct(b) && forall l :: l in a ==> l !in b
  {
    var c := a + b;
    forall i, j | 0 <= i < j < |a|
      ensures a[i] != a[j]
    {
      assert c[i] == a[i] && c[j] == a[j];
    }
    forall i, j | 0 <= i < j < |b|
      ensures b[i] != b[j]
    {
      assert c[|a| + i] == b[i] && c[|a| + j] == b[j];
    }
    forall i, j | 0 <= i < |a| && 0 <= j < |b|
      ensures a[i] != b[j]
    {
      assert c[i] == a[i] && c[|a| + j] == b[j];
    }
  }

  lemma {:induction false} WithoutIsDistinct(ls: seq<Listener>, l: Listener)
    requires Distinct(ls)
    ensures Distinct(Without(ls, l)) && l !in Without(ls, l)
  {
    if ls != [] && ls[0] != l {
      WithoutIsDistinct(ls[1..], l);
      assert ls[0] !in ls[1..];
      DistinctParts([ls[0]], Without(ls[1..], l));
    }
  }

  lemma OpenAllKeeps(h: Helper, c: Connection)
    requires HelperInv(h) && (h.ioio == Some(c) || h.ioio.None?)
    ensures HelperInv(OpenAll(h, c).(ioio := Some(c)))
  {
    hide PhaseOf, Announce;
    DistinctParts(h.closedListeners, h.openListeners);
    DistinctParts(h.openListeners, h.closedListeners);
    var t := OpenAll(h, c).(ioio := Some(c));
    assert [] + (h.openListeners + h.closedListeners) == h.openListeners + h.closedListeners;
    forall l
      ensures PhaseOf(t.log, l) == Expected(t, l)
    {
      PhaseAfterAnnounce(h.log, h.closedListeners, c, l);
      assert PhaseOf(h.log, l) == Expected(h, l);
    }
  }

  lemma CloseAllKeeps(h: Helper, c: Connection)
    requires HelperInv(h) && h.ioio == Some(c)
    ensures HelperInv(CloseAll(h.(ioio := None), c))
  {
    hide PhaseOf, Retract;
    DistinctParts(h.closedListeners, h.openListeners);
    var t := CloseAll(h.(ioio := None), c);
    assert h.closedListeners + h.openListeners + [] == h.closedListeners + h.openListeners;
    forall l
      ensures PhaseOf(t.log, l) == Expected(t, l)
    {
      PhaseAfterRetract(h.log, h.openListeners, c, l);
      assert PhaseOf(h.log, l) == Expected(h, l);
    }
  }

  lemma AddKeeps(h: Helper, l: Listener)
    requires HelperInv(h) && !h.Registered(l)
    ensures HelperInv(Add(h, l))
  {
    hide PhaseOf;
    var t := Add(h, l);
    DistinctParts(h.closedListeners, h.openListeners);
    DistinctParts(h.closedListeners, [l]);
    DistinctParts(t.closedListeners, t.openListeners);
    forall k
      ensures PhaseOf(t.log, k) == Expected(t, k)
    {
      PhaseAfter(h.log, Added(l), k);
      assert PhaseOf(h.log, k) == Expected(h, k);
    }
  }

  lemma RemoveKeeps(h: Helper, l: Listener)
    requires HelperInv(h)
    ensures HelperInv(Remove(h, l))
  {
    hide PhaseOf, Without;
    var t := Remove(h, l);
    DistinctParts(h.closedListeners, h.openListeners);
    WithoutIsDistinct(h.closedListeners, l);
    WithoutIsDistinct(h.openListeners, l);
    DistinctParts(t.closedListeners, t.openListeners);
    forall k
      ensures PhaseOf(t.log, k) == Expected(t, k)
    {
      assert PhaseOf(h.log, k) == Expected(h, k);
      PhaseAfter(h.log, Disconnected(l, h.ioio), k);
      PhaseAfter(h.log + [Disconnected(l, h.ioio)], Removed(l), k);
      PhaseAfter(h.log, Removed(l), k);
      assert h.log + [Disconnected(l, h.ioio), Removed(l)] == h.log + [Disconnected(l, h.ioio)] + [Removed(l)];
    }
  }

  lemma CycleKeeps(h: Helper, l: Listener)
    requires HelperInv(h)
    ensures HelperInv(Cycle(h, l))
  {
    hide PhaseOf, Without;
    var t := Cycle(h, l);
    if t != h {
      DistinctParts(h.closedListeners, h.openListeners);
      WithoutIsDistinct(h.openListeners, l);
      DistinctParts(h.closedListeners, [l]);
      DistinctParts(t.closedListeners, t.openListeners);
      forall k
        ensures PhaseOf(t.log, k) == Expected(t, k)
      {
        assert PhaseOf(h.log, k) == Expected(h, k);
        PhaseAfter(h.log, Disconnected(l, h.ioio), k);
      }
    }
  }

  lemma StepKeeps(s: State, a: Action)
    requires Inv(s) && Possible(s, a)
    ensures Inv(Step(s, a))
  {
    hide HelperInv, OpenAll, CloseAll, Add, Remove, Cycle;
    match a
    case AgentConnects(a, c) =>
      OpenAllHasIoio(s.helper, c);
      if s.elected.None? {
        HelperWithoutIoio(s.helper);
        OpenAllKeeps(s.helper, c);
        assert s.held[a := Some(c)][a] == Some(c);
      } else {
        ElectedStaysHeld(s, a, Some(c));
      }
    case AgentDisconnects(a) =>
      if s.elected == s.held[a] {
        CloseAllKeeps(s.helper, s.held[a].value);
        CloseAllHasIoio(s.helper, s.held[a].value);
      } else if s.elected.Some? {
        ElectedStaysHeld(s, a, None);
      }
    case AgentIdles(a) =>
      if s.helper.ioio.Some? {
        OpenAllKeeps(s.helper, s.helper.ioio.value);
        OpenAllHasIoio(s.helper, s.helper.ioio.value);
      }
    case AddListener(l) => AddKeeps(s.helper, l); ListenersKeepIoio(s.helper, l);
    case RemoveListener(l) => RemoveKeeps(s.helper, l); ListenersKeepIoio(s.helper, l);
    case CycleListener(l) => CycleKeeps(s.helper, l); ListenersKeepIoio(s.helper, l);
  }

  lemma HelperWithoutIoio(h: Helper)
    requires HelperInv(h)
    ensures h.ioio.None? ==> h.openListeners == []
  {
  }

  lemma OpenAllHasIoio(h: Helper, c: Connection)
    ensures OpenAll(h, c).ioio == h.ioio
    ensures h.ioio == Some(c) ==> OpenAll(h, c).(ioio := Some(c)) == OpenAll(h, c)
  {
  }

  lemma CloseAllHasIoio(h: Helper, c: Connection)
    ensures CloseAll(h.(ioio := None), c).ioio == None
  {
  }

  lemma ListenersKeepIoio(h: Helper, l: Listener)
    ensures Add(h, l).ioio == Remove(h, l).ioio == Cycle(h, l).ioio == h.ioio
  {
  }

  lemma ElectedStaysHeld(s: State, a: nat, c: Option<Connection>)
    requires a < |s.held| && s.elected.Some? && s.elected in s.held && s.elected != s.held[a]
    ensures s.elected in s.held[a := c]
  {
    var b :| 0 <= b < |s.held| && s.held[b] == s.elected;
    assert s.held[a := c][b] == s.elected;
  }

  lemma {:induction false} RunKeeps(agents: nat, actions: seq<Action>, s: State)
    requires IsRun(agents, actions, s)
    ensures Inv(s)
  {
    hide Inv, Step, Possible;
    if actions == [] {
      InitialInv(agents);
    } else {
      var k := |actions| - 1;
      var t :| IsRun(agents, actions[..k], t) && Possible(t, actions[k]) && s == Step(t, actions[k]);
      RunKeeps(agents, actions[..k], t);
      StepKeeps(t, actions[k]);
    }
  }

  lemma InitialInv(agents: nat)
    ensures Inv(Initial(agents))
  {
  }

  // The main results

  /** With any number of agents and listeners and in any order of events: at no moment has any
      listener seen anything but connects and matching disconnects in turn, nothing before it was
      registered and nothing after it was removed. */
  lemma ListenersSeeTheProtocol(agents: nat, actions: seq<Action>, s: State, n: nat, l: Listener)
    requires IsRun(agents, actions, s) && n <= |s.helper.log|
    ensures PhaseOf(s.helper.log[..n], l) != Broken
  {
    RunKeeps(agents, actions, s);
    hide IsRun, PhaseOf, Distinct;
    assert PhaseOf(s.helper.log, l) == Expected(s.helper, l);
    BrokenStaysBroken(s.helper.log, n, l);
  }

  /** A listener is in exactly one list while it is registered and in none otherwise; it is in the
      open list exactly if it was last told of a connection, and that is then the elected one,
      which some agent still holds. */
  lemma ListsSayWhatListenersKnow(agents: nat, actions: seq<Action>, s: State, l: Listener)
    requires IsRun(agents, actions, s)
    ensures var h, p := s.helper, PhaseOf(s.helper.log, l);
            && multiset(h.closedListeners + h.openListeners)[l] == (if p.Away? then 0 else 1)
            && (l in h.openListeners <==> p.Open?) && (l in h.closedListeners <==> p.Waiting?)
            && (p.Open? ==> s.elected == Some(p.c) && Some(p.c) in s.held)
  {
    RunKeeps(agents, actions, s);
    hide IsRun, PhaseOf;
    var h := s.helper;
    assert PhaseOf(h.log, l) == Expected(h, l);
    DistinctParts(h.closedListeners, h.openListeners);
    DistinctCounts(h.closedListeners + h.openListeners, l);
    assert l in h.closedListeners + h.openListeners <==> l in h.closedListeners || l in h.openListeners;
  }

  lemma {:induction false} DistinctCounts(ls: seq<Listener>, l: Listener)
    requires Distinct(ls)
    ensures multiset(ls)[l] == if l in ls then 1 else 0
  {
    if ls != [] {
      DistinctCounts(ls[1..], l);
      assert ls == [ls[0]] + ls[1..];
      assert ls[0] !in ls[1..];
    }
  }

  /** Once the agent with the elected connection has idled, every registered listener knows that
      connection; once it has disconnected, none knows any. */
  lemma EveryoneIsTold(agents: nat, actions: seq<Action>, s: State, a: nat, l: Listener)
    requires IsRun(agents, actions, s) && a < |s.held| && s.held[a].Some? && s.held[a] == s.elected
    requires s.helper.Registered(l)
    ensures PhaseOf(Step(s, AgentIdles(a)).helper.log, l) == Open(s.elected.value)
    ensures PhaseOf(Step(s, AgentDisconnects(a)).helper.log, l) == Waiting
  {
    RunKeeps(agents, actions, s);
    StepKeeps(s, AgentIdles(a));
    StepKeeps(s, AgentDisconnects(a));
    hide IsRun, PhaseOf, Announce, Retract;
    var t, u := Step(s, AgentIdles(a)).helper, Step(s, AgentDisconnects(a)).helper;
    assert PhaseOf(t.log, l) == Expected(t, l);
    assert PhaseOf(u.log, l) == Expected(u, l);
  }

  // What every event does

  /** A new listener waits in the closed list. */
  lemma AddOutcome(agents: nat, actions: seq<Action>, s: State, l: Listener)
    requires IsRun(agents, actions, s) && !s.helper.Registered(l)
    ensures var h, t := s.helper, Step(s, AddListener(l));
            && t == s.(helper := t.helper) && t.helper.ioio == h.ioio && t.helper.openListeners == h.openListeners
            && l in t.helper.closedListeners && PhaseOf(t.helper.log, l) == Waiting
            && t.helper.log == h.log + [Added(l)]
            && forall k :: k != l ==> (k in t.helper.closedListeners <==> k in h.closedListeners)
  {
    RunKeeps(agents, actions, s);
    StepKeeps(s, AddListener(l));
    hide IsRun, PhaseOf, Distinct;
    var t := Step(s, AddListener(l)).helper;
    assert PhaseOf(t.log, l) == Expected(t, l);
    assert t.closedListeners[|t.closedListeners| - 1] == l;
  }

  /** A removed listener is in no list; one that knew the elected connection is told of its end
      first, and nobody else is called or moved. */
  lemma RemoveOutcome(agents: nat, actions: seq<Action>, s: State, l: Listener)
    requires IsRun(agents, actions, s)
    ensures var h, t := s.helper, Step(s, RemoveListener(l));
            && t == s.(helper := t.helper) && t.helper.ioio == h.ioio
            && !t.helper.Registered(l) && PhaseOf(t.helper.log, l) == Away
            && t.helper.log == h.log + (if l in h.openListeners then [Disconnected(l, s.elected), Removed(l)]
                                        else if l in h.closedListeners then [Removed(l)] else [])
            && (forall k :: k != l ==> (k in t.helper.closedListeners <==> k in h.closedListeners))
            && (forall k :: k != l ==> (k in t.helper.openListeners <==> k in h.openListeners))
  {
    RunKeeps(agents, actions, s);
    StepKeeps(s, RemoveListener(l));
    hide IsRun, PhaseOf, Without;
    var h, t := s.helper, Step(s, RemoveListener(l)).helper;
    DistinctParts(h.closedListeners, h.openListeners);
    hide Distinct;
    WithoutIsDistinct(h.openListeners, l);
    WithoutIsDistinct(h.closedListeners, l);
    assert PhaseOf(t.log, l) == Expected(t, l);
    assert h.log + [] == h.log;
  }

  /** Cycling tells an open listener of the end of the connection, so that it will be opened again,
      and does nothing to others. */
  lemma CycleOutcome(agents: nat, actions: seq<Action>, s: State, l: Listener)
    requires IsRun(agents, actions, s)
    ensures var h, t := s.helper, Step(s, CycleListener(l));
            if l !in h.openListeners then t == s
            else
              && t == s.(helper := t.helper) && t.helper.ioio == h.ioio
              && l in t.helper.closedListeners && PhaseOf(t.helper.log, l) == Waiting
              && t.helper.log == h.log + [Disconnected(l, s.elected)]
              && (forall k :: k != l ==> (k in t.helper.closedListeners <==> k in h.closedListeners))
              && (forall k :: k != l ==> (k in t.helper.openListeners <==> k in h.openListeners))
  {
    RunKeeps(agents, actions, s);
    StepKeeps(s, CycleListener(l));
    hide IsRun, PhaseOf, Without, Distinct;
    var h, t := s.helper, Step(s, CycleListener(l)).helper;
    assert PhaseOf(t.log, l) == Expected(t, l);
    if l in h.openListeners {
      assert h.ioio.Some?;
      assert t.closedListeners[|t.closedListeners| - 1] == l;
    }
  }

  /** The first connection is elected and every registered listener told of it; another one while
      one is elected is kept by its agent, and no listener hears of it. */
  lemma ConnectOutcome(agents: nat, actions: seq<Action>, s: State, a: nat, c: Connection, l: Listener)
    requires IsRun(agents, actions, s) && Possible(s, AgentConnects(a, c))
    ensures var t := Step(s, AgentConnects(a, c));
            && t.held == s.held[a := Some(c)] && t.used == s.used + {c}
            && (s.elected.Some? ==> t.elected == s.elected && t.helper == s.helper)
            && (s.elected.None? ==>
                  && t.elected == Some(c) == t.helper.ioio
                  && (s.helper.Registered(l) ==> l in t.helper.openListeners && PhaseOf(t.helper.log, l) == Open(c))
                  && (!s.helper.Registered(l) ==> !t.helper.Registered(l)))
  {
    RunKeeps(agents, actions, s);
    StepKeeps(s, AgentConnects(a, c));
    hide IsRun, PhaseOf, Distinct, Announce;
    var t := Step(s, AgentConnects(a, c)).helper;
    assert PhaseOf(t.log, l) == Expected(t, l);
  }

  /** Agents whose connection is not the elected one do not move any listener. */
  lemma OthersAreIgnored(s: State, a: nat)
    requires a < |s.held| && s.held[a] != s.elected
    ensures Step(s, AgentIdles(a)) == s
    ensures s.held[a].Some? ==> Step(s, AgentDisconnects(a)) == s.(held := s.held[a := None])
  {
  }

  predicate IsAddOf(a: Action, l: Listener) {
    a == AddListener(l)
  }

  /** The calls that a listener has got, and its registrations. */
  function EventsOf(log: seq<Event>, l: Listener): seq<Event> {
    if log == [] then []
    else
      var k := |log| - 1;
      EventsOf(log[..k], l) + (if log[k].l == l then [log[k]] else [])
  }

  lemma {:induction false} EventsOfMore(log: seq<Event>, more: seq<Event>, l: Listener)
    requires forall i :: 0 <= i < |more| ==> more[i].l != l
    ensures EventsOf(log + more, l) == EventsOf(log, l)
    decreases |more|
  {
    if more == [] {
      assert log + more == log;
    } else {
      var k := |more| - 1;
      EventsOfMore(log, more[..k], l);
      assert (log + more)[..|log + more| - 1] == log + more[..k];
    }
  }

  lemma UnregisteredHearsNothing(s: State, a: Action, l: Listener)
    requires Possible(s, a) && !s.helper.Registered(l) && !IsAddOf(a, l)
    ensures var t := Step(s, a).helper;
            !t.Registered(l) && EventsOf(t.log, l) == EventsOf(s.helper.log, l)
  {
    hide EventsOf, Without;
    var h, t := s.helper, Step(s, a).helper;
    if |h.log| <= |t.log| && t.log[..|h.log|] == h.log {
      assert t.log == h.log + t.log[|h.log|..];
      EventsOfMore(h.log, t.log[|h.log|..], l);
    }
  }

  /** A listener that is not registered hears nothing, whatever happens, until it is added. */
  lemma {:induction false} SilentUntilAdded(s: State, actions: seq<Action>, t: State, l: Listener)
    requires Steps(s, actions, t) && !s.helper.Registered(l)
    requires forall i :: 0 <= i < |actions| ==> !IsAddOf(actions[i], l)
    ensures !t.helper.Registered(l) && EventsOf(t.helper.log, l) == EventsOf(s.helper.log, l)
  {
    if actions != [] {
      var k := |actions| - 1;
      var u :| Steps(s, actions[..k], u) && Possible(u, actions[k]) && t == Step(u, actions[k]);
      hide Step, Possible, EventsOf, IsAddOf;
      SilentUntilAdded(s, actions[..k], u, l);
      UnregisteredHearsNothing(u, actions[k], l);
    }
  }

  /** So a listener that has been removed is never called again, unless it is added again. */
  lemma RemovedIsSilent(agents: nat, actions: seq<Action>, s: State, l: Listener, more: seq<Action>, t: State)
    requires IsRun(agents, actions, s) && Steps(Step(s, RemoveListener(l)), more, t)
    requires forall i :: 0 <= i < |more| ==> !IsAddOf(more[i], l)
    ensures var removed := Step(s, RemoveListener(l));
            EventsOf(t.helper.log, l) == EventsOf(removed.helper.log, l) && PhaseOf(removed.helper.log, l) == Away
  {
    hide Steps, EventsOf, PhaseOf, IsRun, Without;
    RemoveOutcome(agents, actions, s, l);
    SilentUntilAdded(Step(s, RemoveListener(l)), more, t, l);
  }

  // Connections that nobody uses

  predicate Holds(s: State, a: nat) {
    a < |s.held| && s.held[a].Some?
  }

  /** Some agent holds a connection while none is elected: it was refused when it connected, and
      the elected one has gone since. */
  predicate Unused(s: State) {
    s.elected.None? && exists a :: 0 <= a < |s.held| && Holds(s, a)
  }

  /** Exactly when that is so after a step: a new connection ends it, since it is elected; it begins
      when the elected agent disconnects while another holds a connection, and goes on until the
      last such agent disconnects. */
  lemma UnusedIff(s: State, a: Action)
    requires Inv(s) && Possible(s, a)
    ensures Unused(Step(s, a)) <==>
              match a
              case AgentConnects(_, _) => false
              case AgentDisconnects(x) =>
                (s.elected.None? || s.elected == s.held[x]) && exists b :: 0 <= b < |s.held| && b != x && Holds(s, b)
              case AgentIdles(_) => Unused(s)
              case AddListener(_) => Unused(s)
              case RemoveListener(_) => Unused(s)
              case CycleListener(_) => Unused(s)
  {
    hide HelperInv, OpenAll, CloseAll, Add, Remove, Cycle, Idle;
    var t := Step(s, a);
    if a.AgentDisconnects? {
      assert forall b :: 0 <= b < |s.held| ==> (Holds(t, b) <==> b != a.a && Holds(s, b));
    } else if !a.AgentConnects? {
      assert t.held == s.held;
      assert forall b :: 0 <= b < |s.held| ==> (Holds(t, b) <==> Holds(s, b));
    }
  }

  /** With two agents: the second connects while the first is elected, and the first disconnects. */
  lemma ConnectionIsLeftUnused(c: Connection, d: Connection)
    requires c != d
    ensures exists s :: IsRun(2, [AgentConnects(0, c), AgentConnects(1, d), AgentDisconnects(0)], s) && Unused(s)
  {
    var actions := [AgentConnects(0, c), AgentConnects(1, d), AgentDisconnects(0)];
    var s0 := Initial(2);
    var s1 := Step(s0, actions[0]);
    var s2 := Step(s1, actions[1]);
    var s3 := Step(s2, actions[2]);
    assert actions[..3] == actions && actions[..2][..1] == actions[..1] && actions[..1][..0] == [];
    assert IsRun(2, [], s0);
    assert IsRun(2, actions[..1], s1);
    assert IsRun(2, actions[..2], s2);
    assert IsRun(2, actions, s3);
    assert Holds(s3, 1);
  }

  // The program

  class IOIOHelper {
    var ioio: Option<Connection>
    var closedListeners: seq<Listener>
    var openListeners: seq<Listener>
    var log: seq<Event>

    function View(): Helper
      reads this
    {
      Helper(ioio, closedListeners, openListeners, log)
    }

    constructor ()
      ensures View() == Helper(None, [], [], [])
    {
      ioio, closedListeners, openListeners, log := None, [], [], [];
    }

    method OpenAllListeners(c: Connection)
      modifies this
      ensures View() == OpenAll(old(View()), c)
    {
      ghost var before := closedListeners;
      ghost var n := 0;
      while closedListeners != []
        invariant 0 <= n <= |before| && closedListeners == before[n..] && ioio == old(ioio)
        invariant openListeners == old(openListeners) + before[..n] && log == old(log) + Announce(before, c)[..n]
        decreases |closedListeners|
      {
        var listener := closedListeners[0];
        log := log + [Connected(listener, c)];
        closedListeners := closedListeners[1..];
        openListeners := openListeners + [listener];
        n := n + 1;
      }
      assert before[..n] == before && Announce(before, c)[..n] == Announce(before, c);
    }

    method CloseAllListeners(c: Connection)
      modifies this
      ensures View() == CloseAll(old(View()), c)
    {
      ghost var before := openListeners;
      ghost var n := 0;
      while openListeners != []
        invariant 0 <= n <= |before| && openListeners == before[n..] && ioio == old(ioio)
        invariant closedListeners == old(closedListeners) + before[..n] && log == old(log) + Retract(before, c)[..n]
        decreases |openListeners|
      {
        var listener := openListeners[0];
        log := log + [Disconnected(listener, Some(c))];
        openListeners := openListeners[1..];
        closedListeners := closedListeners + [listener];
        n := n + 1;
      }
      assert before[..n] == before && Retract(before, c)[..n] == Retract(before, c);
    }

    method AddListener(l: Listener)
      modifies this
      ensures View() == Add(old(View()), l)
    {
      closedListeners := closedListeners + [l];
      log := log + [Added(l)];
    }

    method RemoveListener(l: Listener)
      modifies this
      ensures View() == Remove(old(View()), l)
    {
      if l in openListeners {
        openListeners := Without(openListeners, l);
        log := log + [Disconnected(l, ioio)] + [Removed(l)];
      } else if l in closedListeners {
        closedListeners := Without(closedListeners, l);
        log := log + [Removed(l)];
      }
    }

    method CycleListener(l: Listener)
      modifies this
      ensures View() == Cycle(old(View()), l)
    {
      if ioio.None? {
        return;
      }
      if l in openListeners {
        openListeners := Without(openListeners, l);
        log := log + [Disconnected(l, ioio)];
        closedListeners := closedListeners + [l];
      }
    }

    method OnConnect(c: Connection)
      modifies this
      ensures View() == OpenAll(old(View()), c).(ioio := Some(c))
    {
      OpenAllListeners(c);
      ioio := Some(c);
    }

    method OnDisconnect(c: Connection)
      modifies this
      ensures View() == CloseAll(old(View()).(ioio := None), c)
    {
      ioio := None;
      CloseAllListeners(c);
    }

    /** handleNewListeners */
    method OnIdle() returns (busy: bool)
      modifies this
      ensures View() == Idle(old(View()))
      ensures busy <==> old(ioio).Some? && old(closedListeners) != []
    {
      if ioio.None? || closedListeners == [] {
        NobodyToOpen(View());
        return false;
      }
      OpenAllListeners(ioio.value);
      busy := true;
    }
  }

  lemma NobodyToOpen(h: Helper)
    ensures h.ioio.None? || h.closedListeners == [] ==> Idle(h) == h
  {
    if h.closedListeners == [] && h.ioio.Some? {
      assert h.openListeners + [] == h.openListeners && h.log + Announce([], h.ioio.value) == h.log;
    }
  }

  class IOIOMultiAgent {
    const helper: IOIOHelper
    var elected: Option<Connection>

    constructor (helper: IOIOHelper)
      ensures this.helper == helper && elected == None
    {
      this.helper := helper;
      elected := None;
    }

    ghost predicate Is(s: State)
      reads this, helper
    {
      elected == s.elected && helper.View() == s.helper
    }

    /** `s` is the state with all agents, of which `a` makes the call. */
    method OnConnect(ghost s: State, ghost a: nat, c: Connection)
      requires Is(s) && Possible(s, AgentConnects(a, c))
      modifies this, helper
      ensures Is(Step(s, AgentConnects(a, c)))
    {
      if elected.Some? {
        return;
      }
      elected := Some(c);
      helper.OnConnect(c);
    }

    method OnDisconnect(ghost s: State, ghost a: nat, c: Connection)
      requires Is(s) && Possible(s, AgentDisconnects(a)) && s.held[a] == Some(c)
      modifies this, helper
      ensures Is(Step(s, AgentDisconnects(a)))
    {
      if elected != Some(c) {
        return;
      }
      elected := None;
      helper.OnDisconnect(c);
    }

    method OnIdle(ghost s: State, ghost a: nat, ioio: Option<Connection>) returns (busy: bool)
      requires Is(s) && Possible(s, AgentIdles(a)) && s.held[a] == ioio
      modifies this, helper
      ensures Is(Step(s, AgentIdles(a)))
    {
      if elected != ioio {
        return false;
      }
      busy := helper.OnIdle();
    }
  }

  /** What the thread of an agent meets in one round: whether its connection is still alive, what
      it reads from the flags that other threads set, whether it was interrupted before idling, and
      the connection that an attempt to connect makes, if it succeeds. */
  datatype Round = Round(alive: bool, enabled: bool, shutdown: bool, shutdownLater: bool, interrupted: bool,
                         made: Option<Connection>)

  class IOIOAgent {
    const listener: IOIOMultiAgent
    var openFlag: bool

    constructor (listener: IOIOMultiAgent)
      ensures this.listener == listener && !openFlag
    {
      this.listener := listener;
      openFlag := false;
    }

    /** synchronousOpen(), where the attempt makes the connection `made`.  The thread of agent `a`
        has taken the steps `done` from `s` to `t`, and then `more` from `s` to `u`. */
    method SynchronousOpen(ghost s: State, ghost done: seq<Action>, ghost t: State, ghost a: nat,
                           made: Option<Connection>)
      returns (ioio: Option<Connection>, ghost u: State, ghost more: seq<Action>)
      requires listener.Is(t) && Steps(s, done, t) && a < |t.held| && t.held[a].None?
      requires made.Some? ==> made.value !in t.used
      requires this !in {listener as object, listener.helper}
      modifies this`openFlag, listener, listener.helper
      ensures listener.Is(u) && Steps(s, more, u) && ioio == made && u.held == t.held[a := made]
      ensures more == done + (if made.Some? then [AgentConnects(a, made.value)] else [])
      ensures made.Some? ==> openFlag
    {
      hide OpenAll, CloseAll, Idle, Steps, Step;
      ioio, u, more := made, t, done;
      if made.Some? {
        listener.OnConnect(t, a, made.value);
        u, more := OneStep(s, done, t, AgentConnects(a, made.value));
        openFlag := true;
      }
    }

    /** synchronousClose() */
    method SynchronousClose(ghost s: State, ghost done: seq<Action>, ghost t: State, ghost a: nat,
                            ioio: Option<Connection>)
      returns (ghost u: State, ghost more: seq<Action>)
      requires listener.Is(t) && Steps(s, done, t) && a < |t.held| && t.held[a] == ioio
      requires this !in {listener as object, listener.helper}
      modifies this`openFlag, listener, listener.helper
      ensures listener.Is(u) && Steps(s, more, u) && u.held == t.held[a := None]
      ensures more == done + (if ioio.Some? then [AgentDisconnects(a)] else [])
      ensures ioio.Some? ==> !openFlag
    {
      hide OpenAll, CloseAll, Idle, Steps, Step;
      u, more := t, done;
      if ioio.Some? {
        openFlag := false;
        listener.OnDisconnect(t, a, ioio.value);
        u, more := OneStep(s, done, t, AgentDisconnects(a));
      }
    }

    /** idle(), up to where the thread waits. */
    method IdleOnce(ghost s: State, ghost done: seq<Action>, ghost t: State, ghost a: nat,
                    ioio: Option<Connection>, interrupted: bool)
      returns (ghost u: State, ghost more: seq<Action>)
      requires listener.Is(t) && Steps(s, done, t) && a < |t.held| && t.held[a] == ioio
      modifies listener, listener.helper
      ensures listener.Is(u) && Steps(s, more, u) && u.held == t.held
      ensures more == done + (if interrupted then [] else [AgentIdles(a)])
    {
      hide OpenAll, CloseAll, Idle, Steps, Step;
      u, more := t, done;
      if !interrupted {
        var busy := listener.OnIdle(t, a, ioio);
        u, more := OneStep(s, done, t, AgentIdles(a));
      }
    }

    /** One round of the thread's loop: which calls it makes, all of them possible for an agent that
        holds `ioio`; it holds `next` after them, or nothing if it ends. */
    method RunOnce(ghost s: State, ghost a: nat, ioio: Option<Connection>, r: Round)
      returns (next: Option<Connection>, ghost t: State, ghost actions: seq<Action>)
      requires listener.Is(s) && a < |s.held| && s.held[a] == ioio
      requires r.made.Some? ==> r.made.value !in s.used
      requires this !in {listener as object, listener.helper}
      modifies this`openFlag, listener, listener.helper
      ensures listener.Is(t) && |t.held| == |s.held| && t.held[a] == (if r.shutdownLater then None else next)
      ensures Steps(s, actions, t)
      ensures var lost := ioio.Some? && (!r.alive || !r.enabled);
              var begun := ioio.None? && r.enabled && !r.shutdown && r.made.Some?;
              && next == (if lost then None else if begun then r.made else ioio)
              && actions == (if lost then [AgentDisconnects(a)]
                             else if begun then [AgentConnects(a, r.made.value)] else [])
                            + (if r.shutdownLater && next.Some? then [AgentDisconnects(a)]
                               else if r.shutdownLater || r.interrupted then [] else [AgentIdles(a)])
    {
      hide Steps, Step, IOIOMultiAgent.Is;
      EmptySteps(s);
      next, t, actions := ioio, s, [];
      if ioio.Some? && (!r.alive || !r.enabled) {
        t, actions := SynchronousClose(s, actions, t, a, ioio);
        next := None;
      } else if ioio.None? && r.enabled && !r.shutdown {
        next, t, actions := SynchronousOpen(s, actions, t, a, r.made);
      }
      if r.shutdownLater {
        t, actions := SynchronousClose(s, actions, t, a, next);
        return;
      }
      t, actions := IdleOnce(s, actions, t, a, next, r.interrupted);
    }
  }

  lemma OneStep(s: State, actions: seq<Action>, t: State, a: Action) returns (u: State, more: seq<Action>)
    requires Steps(s, actions, t) && Possible(t, a)
    ensures u == Step(t, a) && more == actions + [a] && Steps(s, more, u)
    ensures a.AgentConnects? ==> u.held == t.held[a.a := Some(a.c)]
    ensures a.AgentDisconnects? ==> u.held == t.held[a.a := None]
    ensures a.AgentIdles? ==> u.held == t.held
  {
    StepsOneMore(s, actions, t, a);
    AgentsHold(t, a);
    u, more := Step(t, a), actions + [a];
  }

  lemma AgentsHold(s: State, a: Action)
    requires Possible(s, a)
    ensures a.AgentConnects? ==> Step(s, a).held == s.held[a.a := Some(a.c)]
    ensures a.AgentDisconnects? ==> Step(s, a).held == s.held[a.a := None]
    ensures !a.AgentConnects? && !a.AgentDisconnects? ==> Step(s, a).held == s.held
  {
  }

  lemma EmptySteps(s: State)
    ensures Steps(s, [], s)
  {
  }

  lemma StepsOneMore(s: State, actions: seq<Action>, t: State, a: Action)
    requires Steps(s, actions, t) && Possible(t, a)
    ensures Steps(s, actions + [a], Step(t, a))
  {
    assert (actions + [a])[..|actions|] == actions;
  }

  ghost predicate Steps(s: State, actions: seq<Action>, t: State) {
    if actions == [] then s == t
    else
      var k := |actions| - 1;
      exists u :: Steps(s, actions[..k], u) && Possible(u, actions[k]) && t == Step(u, actions[k])
  }
}
