/** The agent message bus: agents registered with an orchestrator send each other
    messages through it; the orchestrator logs every message, shows it to its listeners
    and routes it to one agent or, for `'BROADCAST'`, to every agent but the sender.
    Calls into code outside the bus (a listener, an agent's `onMessage`) are returned as
    a list of calls in the order they are made. */
module Agents {
  import opened Wrappers

  datatype AgentRole = QA | Architect | Manager | Worker

  datatype AgentStatus = Idle | Working | Paused | Error

  datatype AgentConfig = AgentConfig(id: string, name: string, role: AgentRole, capabilities: seq<string>)

  /** A message; the payload is carried as its serialised text. */
  datatype AgentMessage = AgentMessage(id: string, from: string, to: string, kind: string, payload: string,
                                       timestamp: int)

  /** A listener function, known by its identity. */
  datatype Listener = Listener(ident: nat)

  /** A call the orchestrator makes into other code. */
  datatype Call = Notify(listener: Listener, message: AgentMessage) | Deliver(agent: string, message: AgentMessage)

  /** The recipient that addresses every agent. */
  const BroadcastAddress: string := "BROADCAST"

  /** The most entries the message log keeps. */
  const LogLimit: nat := 1000

  predicate NoDuplicates<T(==)>(s: seq<T>)
  {
    forall i, j :: 0 <= i < j < |s| ==> s[i] != s[j]
  }

  // ----- The message log -----

  /** The last `n` entries of `s` (all of them when there are fewer). */
  function Last<T>(s: seq<T>, n: nat): (r: seq<T>)
    ensures |r| == if |s| <= n then |s| else n
  {
    if |s| <= n then s else s[|s| - n..]
  }

  /** `logMessage`: append, then drop the oldest entry once there are more than 1000. */
  function Logged(log: seq<AgentMessage>, m: AgentMessage): seq<AgentMessage>
  {
    var grown := log + [m];
    if |grown| > LogLimit then grown[1..] else grown
  }

  /** A log within the limit stays within it after one more message; that message is its
      newest entry, and the log holds the newest 1000 messages seen. */
  lemma LoggedSpec(log: seq<AgentMessage>, m: AgentMessage)
    requires |log| <= LogLimit
    ensures |Logged(log, m)| <= LogLimit
    ensures Logged(log, m)[|Logged(log, m)| - 1] == m
    ensures Logged(log, m) == Last(log + [m], LogLimit)
  {
  }

  /** The log after a run of messages. */
  function LoggedAll(log: seq<AgentMessage>, ms: seq<AgentMessage>): seq<AgentMessage>
    decreases |ms|
  {
    if ms == [] then log else LoggedAll(Logged(log, ms[0]), ms[1..])
  }

  lemma LastAppend<T>(s: seq<T>, x: T, n: nat)
    requires n > 0
    ensures Last(Last(s, n) + [x], n) == Last(s + [x], n)
  {
    if |s| > n {
      assert Last(s, n) + [x] == (s + [x])[|s| - n..];
    }
  }

  /** Whatever the run of messages, the log ends up holding the newest 1000 of the
      messages seen, oldest first: older ones are dropped first. */
  lemma {:induction false} LoggedAllSpec(log: seq<AgentMessage>, ms: seq<AgentMessage>)
    requires |log| <= LogLimit
    ensures LoggedAll(log, ms) == Last(log + ms, LogLimit)
    decreases |ms|
  {
    if ms == [] {
      assert log + ms == log;
    } else {
      LoggedSpec(log, ms[0]);
      LoggedAllSpec(Logged(log, ms[0]), ms[1..]);
      assert Logged(log, ms[0]) == Last(log + [ms[0]], LogLimit);
      LastOfLast(log + [ms[0]], ms[1..]);
      assert log + [ms[0]] + ms[1..] == log + ms;
    }
  }

  /** Keeping the newest 1000 early on and again later is keeping the newest 1000 at the
      end. */
  lemma {:induction false} LastOfLast<T>(s: seq<T>, t: seq<T>)
    ensures Last(Last(s, LogLimit) + t, LogLimit) == Last(s + t, LogLimit)
    decreases |t|
  {
    if t == [] {
      assert Last(s, LogLimit) + t == Last(s, LogLimit);
      assert s + t == s;
    } else {
      var u := Last(s, LogLimit);
      var k := t[..|t| - 1];
      var x := t[|t| - 1];
      assert t == k + [x];
      LastOfLast(s, k);
      assert u + t == (u + k) + [x];
      assert s + t == (s + k) + [x];
      LastAppend(u + k, x, LogLimit);
      LastAppend(s + k, x, LogLimit);
    }
  }

  // ----- Listeners -----

  /** `listeners.filter(l => l !== listener)`. */
  function Without(ls: seq<Listener>, l: Listener): (r: seq<Listener>)
  {
    if ls == [] then []
    else if ls[|ls| - 1] == l then Without(ls[..|ls| - 1], l)
    else Without(ls[..|ls| - 1], l) + [ls[|ls| - 1]]
  }

  /** Unsubscribing removes every subscription of that listener and keeps every other
      listener, in order: and a listener subscribed once and then unsubscribed leaves
      the list as it was. */
  lemma {:induction false} WithoutSpec(ls: seq<Listener>, l: Listener)
    ensures l !in Without(ls, l)
    ensures forall x :: x in Without(ls, l) <==> x in ls && x != l
    ensures l !in ls ==> Without(ls, l) == ls
    ensures l !in ls ==> Without(ls + [l], l) == ls
  {
    if ls != [] {
      WithoutSpec(ls[..|ls| - 1], l);
      assert ls == ls[..|ls| - 1] + [ls[|ls| - 1]];
    }
    assert (ls + [l])[..|ls + [l]| - 1] == ls;
  }

  /** The listeners called for a message, one after the other in subscription order. */
  function Notifications(ls: seq<Listener>, m: AgentMessage): (r: seq<Call>)
  {
    if ls == [] then [] else Notifications(ls[..|ls| - 1], m) + [Notify(ls[|ls| - 1], m)]
  }

  /** Every listener, and nothing else, is called once per subscription, in subscription
      order. */
  lemma {:induction false} NotificationsSpec(ls: seq<Listener>, m: AgentMessage)
    ensures |Notifications(ls, m)| == |ls|
    ensures forall i :: 0 <= i < |ls| ==> Notifications(ls, m)[i] == Notify(ls[i], m)
  {
    if ls != [] {
      NotificationsSpec(ls[..|ls| - 1], m);
    }
  }

  // ----- Routing -----

  /** The broadcast over the agents in registration order: every one but the sender. */
  function Broadcast(ids: seq<string>, m: AgentMessage): seq<Call>
  {
    if ids == [] then []
    else
      var rest := Broadcast(ids[..|ids| - 1], m);
      if ids[|ids| - 1] != m.from then rest + [Deliver(ids[|ids| - 1], m)] else rest
  }

  /** The deliveries of a message: to every registered agent but the sender for a
      broadcast, otherwise to the addressed agent when it is registered. */
  function Routed(order: seq<string>, registered: set<string>, m: AgentMessage): seq<Call>
  {
    if m.to == BroadcastAddress then Broadcast(order, m)
    else if m.to in registered then [Deliver(m.to, m)]
    else []
  }

  lemma {:induction false} BroadcastSpec(ids: seq<string>, m: AgentMessage)
    ensures forall c :: c in Broadcast(ids, m) ==> c.Deliver? && c.message == m
    ensures forall a :: Deliver(a, m) in Broadcast(ids, m) <==> a in ids && a != m.from
    ensures NoDuplicates(ids) ==> NoDuplicates(Broadcast(ids, m))
  {
    if ids != [] {
      var init := ids[..|ids| - 1];
      BroadcastSpec(init, m);
      assert ids == init + [ids[|ids| - 1]];
      if NoDuplicates(ids) {
        assert NoDuplicates(init);
        assert ids[|ids| - 1] !in init;
      }
    }
  }

  /** A message reaches, once each, exactly the agents it is meant for: for a broadcast
      every registered agent but the sender, otherwise just the registered agent it is
      addressed to, or no agent when that id is unknown. */
  lemma RoutedSpec(order: seq<string>, registered: set<string>, m: AgentMessage)
    requires forall a :: a in order <==> a in registered
    ensures forall c :: c in Routed(order, registered, m) ==> c.Deliver? && c.message == m
    ensures forall a :: Deliver(a, m) in Routed(order, registered, m) <==>
              a in registered && (if m.to == BroadcastAddress then a != m.from else a == m.to)
    ensures NoDuplicates(order) ==> NoDuplicates(Routed(order, registered, m))
  {
    BroadcastSpec(order, m);
  }

  /** The calls `handleMessage` makes for a message: every listener first, then the
      deliveries. */
  function Handled(listeners: seq<Listener>, order: seq<string>, registered: set<string>, m: AgentMessage)
    : seq<Call>
  {
    Notifications(listeners, m) + Routed(order, registered, m)
  }

  /** Listeners see a message before any agent does: the calls are one per
      subscription first, then only deliveries. */
  lemma ListenersFirst(listeners: seq<Listener>, order: seq<string>, registered: set<string>, m: AgentMessage)
    ensures |listeners| <= |Handled(listeners, order, registered, m)|
    ensures forall k :: 0 <= k < |listeners| ==> Handled(listeners, order, registered, m)[k] == Notify(listeners[k], m)
    ensures forall k :: |listeners| <= k < |Handled(listeners, order, registered, m)| ==>
              Handled(listeners, order, registered, m)[k].Deliver?
  {
    NotificationsSpec(listeners, m);
    RoutedCalls(order, registered, m);
    var h := Handled(listeners, order, registered, m);
    forall k | |listeners| <= k < |h|
      ensures h[k].Deliver?
    {
      assert h[k] in Routed(order, registered, m);
    }
  }

  lemma RoutedCalls(order: seq<string>, registered: set<string>, m: AgentMessage)
    ensures forall c :: c in Routed(order, registered, m) ==> c.Deliver?
  {
    BroadcastSpec(order, m);
  }

  // ----- Agents -----

  /** An agent: its configuration, its status and the message callback the orchestrator
      injects when it registers the agent (`null` before). */
  class Agent {
    var id: string
    var config: AgentConfig
    var status: AgentStatus
    var bus: AgentOrchestrator?

    constructor(config: AgentConfig)
      ensures id == config.id && this.config == config && status == Idle && bus == null
    {
      id := config.id;
      this.config := config;
      status := Idle;
      bus := null;
    }

    /** `setMessageCallback`: the callback bound to `o`'s `handleMessage`; a later call
        replaces an earlier one. */
    method SetMessageCallback(o: AgentOrchestrator)
      modifies this
      ensures bus == o && id == old(id) && config == old(config) && status == old(status)
    {
      bus := o;
    }

    /** `start`: the status becomes `IDLE` (the `onStart` hook is the concrete agent's). */
    method Start()
      modifies this
      ensures status == Idle && id == old(id) && config == old(config) && bus == old(bus)
    {
      status := Idle;
    }

    /** `stop`: the status becomes `PAUSED` (the `onStop` hook is the concrete agent's). */
    method Stop()
      modifies this
      ensures status == Paused && id == old(id) && config == old(config) && bus == old(bus)
    {
      status := Paused;
    }

    /** `sendMessage`: without a callback nothing is sent; otherwise one message from
        this agent, with the fresh id `uuid` and the time `now`, goes to the callback. */
    method SendMessage(to: string, kind: string, payload: string, uuid: string, now: int)
      returns (calls: seq<Call>)
      requires bus != null ==> bus.Valid()
      modifies bus
      ensures bus == null ==> calls == []
      ensures bus != null ==>
        var m := AgentMessage(uuid, id, to, kind, payload, now);
        bus.Valid() && bus.messageLog == Logged(old(bus.messageLog), m)
        && calls == Handled(bus.listeners, bus.order, bus.agents.Keys, m)
        && bus.agents == old(bus.agents) && bus.order == old(bus.order) && bus.listeners == old(bus.listeners)
    {
      if bus == null {
        calls := [];
      } else {
        var message := AgentMessage(uuid, id, to, kind, payload, now);
        calls := bus.HandleMessage(message);
      }
    }
  }

  // ----- The orchestrator -----

  /** The orchestrator: the registered agents (a `Map`, iterated in registration order,
      kept here as the map and that order), the message log and the listeners. */
  class AgentOrchestrator {
    var agents: map<string, Agent>
    var order: seq<string>
    var messageLog: seq<AgentMessage>
    var listeners: seq<Listener>

    /** Each registered id appears once in the registration order, and the log is within
        its limit. */
    ghost predicate Valid()
      reads this
    {
      NoDuplicates(order) && (forall a :: a in order <==> a in agents) && |messageLog| <= LogLimit
    }

    constructor()
      ensures Valid() && agents == map[] && order == [] && messageLog == [] && listeners == []
    {
      agents := map[];
      order := [];
      messageLog := [];
      listeners := [];
    }

    /** `registerAgent`: an id already present changes nothing; otherwise the agent is
        stored under its id and given this orchestrator as its message callback. */
    method RegisterAgent(agent: Agent)
      requires Valid()
      modifies this, agent
      ensures Valid()
      ensures old(agent.id) in old(agents) ==>
        agents == old(agents) && order == old(order) && agent.bus == old(agent.bus)
      ensures old(agent.id) !in old(agents) ==>
        agents == old(agents)[agent.id := agent] && order == old(order) + [agent.id] && agent.bus == this
      ensures agent.id == old(agent.id) && agent.config == old(agent.config) && agent.status == old(agent.status)
      ensures messageLog == old(messageLog) && listeners == old(listeners)
    {
      if agent.id in agents {
        return;
      }
      agents := agents[agent.id := agent];
      order := order + [agent.id];
      agent.SetMessageCallback(this);
    }

    /** `logMessage`. */
    method LogMessage(m: AgentMessage)
      requires Valid()
      modifies this
      ensures Valid() && messageLog == Logged(old(messageLog), m)
      ensures agents == old(agents) && order == old(order) && listeners == old(listeners)
    {
      messageLog := messageLog + [m];
      if |messageLog| > LogLimit {
        messageLog := messageLog[1..];
      }
    }

    /** `subscribe`: the listener is added last. */
    method Subscribe(l: Listener)
      requires Valid()
      modifies this
      ensures Valid() && listeners == old(listeners) + [l]
      ensures agents == old(agents) && order == old(order) && messageLog == old(messageLog)
    {
      listeners := listeners + [l];
    }

    /** The function `subscribe` returns, called: every subscription of that listener is
        removed. */
    method Unsubscribe(l: Listener)
      requires Valid()
      modifies this
      ensures Valid() && listeners == Without(old(listeners), l)
      ensures agents == old(agents) && order == old(order) && messageLog == old(messageLog)
    {
      var kept := [];
      for i := 0 to |listeners|
        invariant kept == Without(listeners[..i], l)
      {
        assert listeners[..i + 1][..i] == listeners[..i];
        if listeners[i] != l {
          kept := kept + [listeners[i]];
        }
      }
      assert listeners[..|listeners|] == listeners;
      listeners := kept;
    }

    /** `notifyListeners`: each listener called with the message, in order. */
    method NotifyListeners(m: AgentMessage) returns (calls: seq<Call>)
      ensures calls == Notifications(listeners, m)
    {
      calls := [];
      for i := 0 to |listeners|
        invariant calls == Notifications(listeners[..i], m)
      {
        assert listeners[..i + 1][..i] == listeners[..i];
        calls := calls + [Notify(listeners[i], m)];
      }
      assert listeners[..|listeners|] == listeners;
    }

    /** The routing part of `handleMessage`. */
    method Route(m: AgentMessage) returns (calls: seq<Call>)
      ensures calls == Routed(order, agents.Keys, m)
    {
      if m.to == BroadcastAddress {
        calls := [];
        for i := 0 to |order|
          invariant calls == Broadcast(order[..i], m)
        {
          assert order[..i + 1][..i] == order[..i];
          if order[i] != m.from {
            calls := calls + [Deliver(order[i], m)];
          }
        }
        assert order[..|order|] == order;
      } else if m.to in agents {
        calls := [Deliver(m.to, m)];
      } else {
        calls := [];
      }
    }

    /** `handleMessage`: log the message, show it to every listener, then route it. */
    method HandleMessage(m: AgentMessage) returns (calls: seq<Call>)
      requires Valid()
      modifies this
      ensures Valid() && messageLog == Logged(old(messageLog), m)
      ensures agents == old(agents) && order == old(order) && listeners == old(listeners)
      ensures calls == Handled(listeners, order, agents.Keys, m)
    {
      LogMessage(m);
      var notified := NotifyListeners(m);
      var delivered := Route(m);
      calls := notified + delivered;
    }

    /** `dispatch`: exactly `handleMessage`. */
    method Dispatch(m: AgentMessage) returns (calls: seq<Call>)
      requires Valid()
      modifies this
      ensures Valid() && messageLog == Logged(old(messageLog), m)
      ensures agents == old(agents) && order == old(order) && listeners == old(listeners)
      ensures calls == Handled(listeners, order, agents.Keys, m)
    {
      calls := HandleMessage(m);
    }
  }
}
