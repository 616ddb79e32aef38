/** What every interleaving of senders, registrations and workers keeps. */
module BusRuns {
  import opened Common
  import opened AgentBus

  // ── One place for every message ──────────────────────────────────────────

  predicate NoDuplicates(q: seq<MsgId>) {
    forall i, j :: 0 <= i < j < |q| ==> q[i] != q[j]
  }

  predicate MailboxOk(s: State, c: ChannelId)
    requires c < |s.channels|
  {
    var channel := s.channels[c];
    |channel.queue| <= CAPACITY && NoDuplicates(channel.queue) && (!channel.alive ==> channel.queue == [] && !channel.open) &&
    forall m :: m in channel.queue ==> Is(s, m, Queued(c))
  }

  predicate PlaceOk(s: State, m: MsgId)
    requires m in s.sends
  {
    match s.sends[m]
    case Resolved(c) => c < |s.channels|
    case Queued(c) => c < |s.channels| && m in s.channels[c].queue
    case InHand(c) => c < |s.channels|
    case _ => true
  }

  /** Names lead to existing mailboxes, a mailbox holds at most 32 messages and
      none twice, and a message is in a mailbox exactly when that is its place. */
  predicate Consistent(s: State) {
    (forall name :: name in s.agents ==> s.agents[name] < |s.channels|) &&
    (forall c :: 0 <= c < |s.channels| ==> MailboxOk(s, c)) &&
    (forall m :: m in s.sends ==> PlaceOk(s, m))
  }

  lemma QueueGrows(q: seq<MsgId>, m: MsgId)
    requires NoDuplicates(q) && m !in q
    ensures NoDuplicates(q + [m])
  {
  }

  lemma QueueShrinks(q: seq<MsgId>)
    requires NoDuplicates(q) && q != []
    ensures NoDuplicates(q[1..]) && q[0] !in q[1..]
    ensures forall m :: m in q <==> m == q[0] || m in q[1..]
  {
    assert q == [q[0]] + q[1..];
  }

  /** A step changes the place of a message only in these ways. */
  predicate PlaceStep(s: State, e: Event, m: MsgId, p: Place, p': Place) {
    p' == p ||
    match p
    case Resolved(c) =>
      e == Enqueue(m) && c < |s.channels| &&
      if s.channels[c].open then CanEnqueue(s, m) && p' == Queued(c) else p' == Returned(Err(SendError))
    case Queued(c) =>
      c < |s.channels| && s.channels[c].alive &&
      ((e == Receive(c) && CanReceive(s, c) && s.channels[c].queue[0] == m && p' == InHand(c)) ||
       (e == DropReceiver(c) && p' == Dropped))
    case InHand(_) => (e.Reply? && e.m == m && p' == Answered(e.text)) || (e == Discard(m) && p' == Dropped)
    case Answered(text) => e == Await(m) && p' == Returned(Ok(text))
    case Dropped => e == Await(m) && p' == Returned(Err(RecvError))
    case Returned(_) => false
  }

  lemma PlaceSteps(s: State, e: Event, m: MsgId)
    requires Consistent(s) && m in s.sends
    ensures m in Step(s, e).sends && PlaceStep(s, e, m, s.sends[m], Step(s, e).sends[m])
  {
    assert PlaceOk(s, m);
    if e.Receive? && CanReceive(s, e.c) {
      assert MailboxOk(s, e.c);
      assert Is(s, s.channels[e.c].queue[0], Queued(e.c));
    } else if e.DropReceiver? && e.c < |s.channels| {
      assert MailboxOk(s, e.c);
      assert m in s.channels[e.c].queue ==> Is(s, m, Queued(e.c));
    }
  }

  lemma MailboxStays(s: State, e: Event, c: ChannelId)
    requires Consistent(s) && c < |s.channels|
    ensures c < |Step(s, e).channels| && MailboxOk(Step(s, e), c)
  {
    var s' := Step(s, e);
    var q := s.channels[c].queue;
    assert MailboxOk(s, c);
    if CanReceive(s, c) {
      QueueShrinks(q);
    }
    if e.Enqueue? && CanEnqueue(s, e.m) {
      assert e.m in q ==> Is(s, e.m, Queued(c));
      QueueGrows(q, e.m) by { assert e.m !in q; }
    }
    forall m | m in s'.channels[c].queue
      ensures Is(s', m, Queued(c))
    {
      if m in q {
        assert Is(s, m, Queued(c));
        PlaceSteps(s, e, m);
      }
    }
  }

  lemma PlaceStays(s: State, e: Event, m: MsgId)
    requires Consistent(s) && m in Step(s, e).sends
    ensures PlaceOk(Step(s, e), m)
  {
    if m in s.sends {
      PlaceSteps(s, e, m);
      assert PlaceOk(s, m);
    }
  }

  lemma StepConsistent(s: State, e: Event)
    requires Consistent(s)
    ensures Consistent(Step(s, e))
  {
    var s' := Step(s, e);
    forall c | 0 <= c < |s'.channels|
      ensures MailboxOk(s', c)
    {
      if c < |s.channels| {
        MailboxStays(s, e, c);
      }
    }
    forall m | m in s'.sends
      ensures PlaceOk(s', m)
    {
      PlaceStays(s, e, m);
    }
  }

  /** In every reachable state every message is in exactly one place, and
      mailboxes hold at most 32 messages. */
  lemma {:induction false} AlwaysConsistent(events: seq<Event>)
    ensures Consistent(Run(events))
  {
    if events != [] {
      AlwaysConsistent(events[..|events| - 1]);
      StepConsistent(Run(events[..|events| - 1]), events[|events| - 1]);
    }
  }

  lemma AtMostCapacity(events: seq<Event>, c: ChannelId)
    requires c < |Run(events).channels|
    ensures |Run(events).channels[c].queue| <= 32
  {
    AlwaysConsistent(events);
    assert MailboxOk(Run(events), c);
  }

  // ── Mailboxes are first in, first out ────────────────────────────────────

  /** The messages that a run puts into mailbox `c`, in order. */
  function Accepted(events: seq<Event>, c: ChannelId): seq<MsgId> {
    if events == [] then []
    else
      var init, e := events[..|events| - 1], events[|events| - 1];
      Accepted(events[..|events| - 1], c) +
      if e.Enqueue? && CanEnqueue(Run(init), e.m) && Is(Run(init), e.m, Resolved(c)) then [e.m] else []
  }

  /** The messages that the worker of mailbox `c` receives, in order. */
  function Received(events: seq<Event>, c: ChannelId): seq<MsgId> {
    if events == [] then []
    else
      var init, e := events[..|events| - 1], events[|events| - 1];
      Received(events[..|events| - 1], c) +
      if e == Receive(c) && CanReceive(Run(init), c) then [Run(init).channels[c].queue[0]] else []
  }

  /** A worker receives a prefix of what its mailbox accepted, in that order;
      while the receiver is alive, the rest is exactly what is still in it. */
  lemma {:induction false} FirstInFirstOut(events: seq<Event>, c: ChannelId)
    ensures Received(events, c) <= Accepted(events, c)
    ensures c < |Run(events).channels| && Run(events).channels[c].alive ==>
              Accepted(events, c) == Received(events, c) + Run(events).channels[c].queue
    ensures c >= |Run(events).channels| ==> Accepted(events, c) == [] == Received(events, c)
  {
    if events != [] {
      var init, e := events[..|events| - 1], events[|events| - 1];
      FirstInFirstOut(init, c);
      AlwaysConsistent(init);
      MailboxStep(Run(init), e, c, Accepted(init, c), Received(init, c));
    }
  }

  lemma MailboxStep(s: State, e: Event, c: ChannelId, accepted: seq<MsgId>, received: seq<MsgId>)
    requires Consistent(s)
    requires received <= accepted
    requires c < |s.channels| && s.channels[c].alive ==> accepted == received + s.channels[c].queue
    requires c >= |s.channels| ==> accepted == [] == received
    ensures var s' := Step(s, e);
            var accepted' := accepted + if e.Enqueue? && CanEnqueue(s, e.m) && Is(s, e.m, Resolved(c)) then [e.m] else [];
            var received' := received + if e == Receive(c) && CanReceive(s, c) then [s.channels[c].queue[0]] else [];
            received' <= accepted' &&
            (c < |s'.channels| && s'.channels[c].alive ==> accepted' == received' + s'.channels[c].queue) &&
            (c >= |s'.channels| ==> accepted' == [] == received')
  {
    if e.Receive? && e.c == c && CanReceive(s, c) {
      var q := s.channels[c].queue;
      assert received + q == received + [q[0]] + q[1..];
    }
  }

  // ── Names, from the event log alone ──────────────────────────────────────

  /** How many agents the events register. */
  function Registrations(events: seq<Event>): nat {
    if events == [] then 0
    else Registrations(events[..|events| - 1]) + if events[|events| - 1].Register? then 1 else 0
  }

  /** The last registration of the name is event `i`. */
  predicate LastRegistered(events: seq<Event>, name: string, i: nat) {
    i < |events| && events[i] == Register(name) && forall j :: i < j < |events| ==> events[j] != Register(name)
  }

  lemma RegistryStep(s: State, e: Event, name: string)
    ensures var s' := Step(s, e);
            |s'.channels| == |s.channels| + (if e.Register? then 1 else 0) &&
            (e == Register(name) ==> name in s'.agents && s'.agents[name] == |s.channels|) &&
            (e != Register(name) ==>
              (name in s'.agents <==> name in s.agents) && (name in s.agents ==> s'.agents[name] == s.agents[name]))
  {
  }

  /** A name is known exactly when it was registered, and leads to the mailbox of
      its last registration; mailboxes are numbered by registrations of any name. */
  lemma {:induction false} NamesFromLog(events: seq<Event>, name: string)
    ensures |Run(events).channels| == Registrations(events)
    ensures name in Run(events).agents <==> Register(name) in events
    ensures forall i: nat :: LastRegistered(events, name, i) ==>
              name in Run(events).agents && Run(events).agents[name] == Registrations(events[..i])
  {
    if events != [] {
      hide Step;
      var init, e := events[..|events| - 1], events[|events| - 1];
      NamesFromLog(init, name);
      RegistryStep(Run(init), e, name);
      assert events == init + [e];
      forall i: nat | LastRegistered(events, name, i)
        ensures name in Run(events).agents && Run(events).agents[name] == Registrations(events[..i])
      {
        if i < |init| {
          assert events[|init|] != Register(name);
          assert LastRegistered(init, name, i) && init[..i] == events[..i];
        }
      }
    }
  }

  /** Event `l` is the first lookup for the message, and asks for `agent`. */
  predicate LooksUp(events: seq<Event>, m: MsgId, agent: string, l: nat) {
    l < |events| && events[l] == Lookup(m, agent) && forall j :: 0 <= j < l ==> !(events[j].Lookup? && events[j].m == m)
  }

  lemma {:induction false} SendsFromLog(events: seq<Event>, m: MsgId)
    ensures m in Run(events).sends <==> exists j :: 0 <= j < |events| && events[j].Lookup? && events[j].m == m
  {
    if events != [] {
      hide Step, Consistent, PlaceStep;
      var init := events[..|events| - 1];
      SendsFromLog(init, m);
      Follow(events, m);
      assert events == init + [events[|init|]];
    }
  }

  // ── Routes ───────────────────────────────────────────────────────────────

  /** The mailbox that was registered under the agent's name when the send looked it up. */
  function Route(events: seq<Event>, m: MsgId): Option<ChannelId> {
    if events == [] then None
    else
      var init, e := events[..|events| - 1], events[|events| - 1];
      if e.Lookup? && e.m == m && m !in Run(init).sends && e.agent in Run(init).agents then Some(Run(init).agents[e.agent])
      else Route(init, m)
  }

  predicate OnRoute(place: Place, route: Option<ChannelId>) {
    match place
    case Resolved(c) => route == Some(c)
    case Queued(c) => route == Some(c)
    case InHand(c) => route == Some(c)
    case Answered(_) => route.Some?
    case Dropped => route.Some?
    case Returned(result) => result.Err? && result.error.AgentNotFound? <==> route.None?
  }

  /** A new send is where its lookup put it. */
  lemma NewPlace(s: State, e: Event, m: MsgId)
    requires Consistent(s) && m !in s.sends
    ensures m in Step(s, e).sends <==> e.Lookup? && e.m == m
    ensures m in Step(s, e).sends ==>
              Step(s, e).sends[m] ==
              if e.agent in s.agents then Resolved(s.agents[e.agent]) else Returned(Err(AgentNotFound(e.agent)))
  {
    if e.Receive? && CanReceive(s, e.c) {
      assert MailboxOk(s, e.c);
      assert Is(s, s.channels[e.c].queue[0], Queued(e.c));
    }
  }

  lemma Follow(events: seq<Event>, m: MsgId)
    requires events != []
    ensures var s, e, s' := Run(events[..|events| - 1]), events[|events| - 1], Run(events);
            Consistent(s) && s' == Step(s, e) && Consistent(s') &&
            (m in s.sends ==> m in s'.sends && PlaceStep(s, e, m, s.sends[m], s'.sends[m])) &&
            (m !in s.sends ==>
              (m in s'.sends <==> e.Lookup? && e.m == m) &&
              (m in s'.sends ==>
                s'.sends[m] == if e.agent in s.agents then Resolved(s.agents[e.agent])
                               else Returned(Err(AgentNotFound(e.agent)))))
  {
    hide Consistent, PlaceStep;
    AlwaysConsistent(events[..|events| - 1]);
    AlwaysConsistent(events);
    if m in Run(events[..|events| - 1]).sends {
      PlaceSteps(Run(events[..|events| - 1]), events[|events| - 1], m);
    } else {
      NewPlace(Run(events[..|events| - 1]), events[|events| - 1], m);
    }
  }

  lemma {:induction false} PlacesOnRoute(events: seq<Event>, m: MsgId)
    ensures m in Run(events).sends ==> OnRoute(Run(events).sends[m], Route(events, m))
    ensures m !in Run(events).sends ==> Route(events, m) == None
  {
    if events != [] {
      PlacesOnRoute(events[..|events| - 1], m);
      Follow(events, m);
      hide Step, Consistent;
    }
  }

  lemma RouteStep(events: seq<Event>, m: MsgId)
    requires events != [] && m in Run(events[..|events| - 1]).sends
    ensures m in Run(events).sends && Route(events, m) == Route(events[..|events| - 1], m)
  {
    Follow(events, m) by {
      hide Step, Consistent, PlaceStep;
    }
  }

  /** What a mailbox accepts, it accepts from a send whose lookup found it. */
  lemma {:induction false} AcceptedOnRoute(events: seq<Event>, c: ChannelId, m: MsgId)
    ensures m in Accepted(events, c) ==> Route(events, m) == Some(c) && m in Run(events).sends && !Run(events).sends[m].Resolved?
  {
    if events != [] {
      var init, e := events[..|events| - 1], events[|events| - 1];
      AcceptedOnRoute(init, c, m);
      if m in Run(init).sends {
        PlacesOnRoute(init, m);
        RouteStep(events, m);
        Follow(events, m);
        assert e == Enqueue(m) && CanEnqueue(Run(init), m) ==> Run(events).sends[m].Queued?;
        hide Step, Consistent, Run, Route;
      }
    }
  }

  /** A message is received only from the mailbox that its send looked up, and
      at most once: registering the name again never diverts it. */
  lemma {:induction false} DeliveredOnRoute(events: seq<Event>, c: ChannelId, m: MsgId)
    ensures m in Accepted(events, c) ==> Route(events, m) == Some(c) && m in Run(events).sends && !Run(events).sends[m].Resolved?
    ensures NoDuplicates(Accepted(events, c)) && NoDuplicates(Received(events, c))
  {
    hide Run, Route, Received;
    AcceptedOnRoute(events, c, m);
    FirstInFirstOut(events, c);
    if events != [] {
      var init, e := events[..|events| - 1], events[|events| - 1];
      DeliveredOnRoute(init, c, m);
      if e.Enqueue? && CanEnqueue(Run(init), e.m) && Is(Run(init), e.m, Resolved(c)) {
        AcceptedOnRoute(init, c, e.m);
        QueueGrows(Accepted(init, c), e.m);
      }
    }
  }

  lemma {:induction false} RouteIsFixed(events: seq<Event>, more: seq<Event>, m: MsgId)
    requires m in Run(events).sends
    ensures m in Run(events + more).sends && Route(events + more, m) == Route(events, m)
  {
    hide Run, Route;
    if more == [] {
      assert events + more == events;
    } else {
      RouteIsFixed(events, more[..|more| - 1], m);
      assert (events + more)[..|events + more| - 1] == events + more[..|more| - 1];
      RouteStep(events + more, m);
    }
  }

  /** A message that found mailbox `c` goes to that mailbox's receiver or to
      none, whatever is registered in the meantime under the same name. */
  lemma NeverDiverted(events: seq<Event>, more: seq<Event>, m: MsgId, c: ChannelId, c': ChannelId)
    requires m in Run(events).sends && Run(events).sends[m] == Resolved(c)
    ensures m in Received(events + more, c') ==> c' == c
  {
    PlacesOnRoute(events, m);
    RouteIsFixed(events, more, m);
    DeliveredOnRoute(events + more, c', m);
    FirstInFirstOut(events + more, c');
    hide Run, Accepted, Received, Route;
  }

  lemma LookedUp(events: seq<Event>, m: MsgId, agent: string, l: nat)
    requires LooksUp(events, m, agent, l)
    ensures var before, looked := Run(events[..l]), events[..l + 1];
            m in Run(looked).sends && events[..l] + [events[l]] == looked && looked + events[l + 1..] == events &&
            Route(looked, m) == if agent in before.agents then Some(before.agents[agent]) else None
  {
    hide Step, Consistent, PlaceStep;
    var looked := events[..l + 1];
    assert looked[..|looked| - 1] == events[..l];
    SendsFromLog(events[..l], m);
    Follow(looked, m);
    PlacesOnRoute(events[..l], m);
  }

  /** The send goes to the mailbox of the last registration of the agent's name
      before the lookup, whatever else was or is registered; it fails to find
      the agent exactly when there was none. */
  lemma RouteFromLog(events: seq<Event>, m: MsgId, agent: string, l: nat)
    requires LooksUp(events, m, agent, l)
    ensures forall i: nat :: LastRegistered(events[..l], agent, i) ==> Route(events, m) == Some(Registrations(events[..i]))
    ensures Route(events, m) == None <==> Register(agent) !in events[..l]
    ensures Is(Run(events), m, Returned(Err(AgentNotFound(agent)))) <==> Register(agent) !in events[..l]
  {
    hide Run, Route, Registrations;
    LookedUp(events, m, agent, l);
    RouteIsFixed(events[..l + 1], events[l + 1..], m);
    NamesFromLog(events[..l], agent);
    forall i: nat | LastRegistered(events[..l], agent, i)
      ensures Route(events, m) == Some(Registrations(events[..i]))
    {
      assert events[..l][..i] == events[..i];
    }
    PlacesOnRoute(events, m);
    NotFoundStays(events[..l + 1], events[l + 1..], m, agent, l);
  }

  lemma NotFoundStays(looked: seq<Event>, more: seq<Event>, m: MsgId, agent: string, l: nat)
    requires LooksUp(looked, m, agent, l) && |looked| == l + 1
    ensures agent !in Run(looked[..l]).agents ==> Is(Run(looked + more), m, Returned(Err(AgentNotFound(agent))))
  {
    hide Step, Consistent, PlaceStep;
    SendsFromLog(looked[..l], m);
    Follow(looked, m);
    if agent !in Run(looked[..l]).agents {
      ReturnedStays(looked, more, m);
    }
  }

  // ── Replies ──────────────────────────────────────────────────────────────

  /** The replies that workers holding the message give to it. */
  function RepliesTo(events: seq<Event>, m: MsgId): seq<string> {
    if events == [] then []
    else
      var init, e := events[..|events| - 1], events[|events| - 1];
      RepliesTo(init, m) + if e.Reply? && e.m == m && Holds(Run(init), m) then [e.text] else []
  }

  function Heard(s: State, m: MsgId): seq<string> {
    if m !in s.sends then []
    else match s.sends[m]
      case Answered(text) => [text]
      case Returned(Ok(text)) => [text]
      case _ => []
  }

  lemma ReplyStep(s: State, e: Event, m: MsgId)
    requires Consistent(s)
    ensures Heard(Step(s, e), m) == Heard(s, m) + if e.Reply? && e.m == m && Holds(s, m) then [e.text] else []
  {
    if m in s.sends {
      PlaceSteps(s, e, m);
      assert e.Reply? && e.m == m && Holds(s, m) ==> Step(s, e).sends[m] == Answered(e.text);
    } else {
      NewPlace(s, e, m);
    }
  }

  /** Request and reply: a worker answers a message at most once, `send` returns
      Ok(r) only if a worker that held this very message answered r, and no
      answer is lost or changed on the way. */
  lemma {:induction false} AnsweredExactly(events: seq<Event>, m: MsgId)
    ensures RepliesTo(events, m) == Heard(Run(events), m)
  {
    if events != [] {
      AnsweredExactly(events[..|events| - 1], m);
      AlwaysConsistent(events[..|events| - 1]);
      ReplyStep(Run(events[..|events| - 1]), events[|events| - 1], m);
      hide Step, Consistent, Heard;
    }
  }

  /** What a send has returned stays returned. */
  lemma {:induction false} ReturnedStays(events: seq<Event>, more: seq<Event>, m: MsgId)
    requires m in Run(events).sends && Run(events).sends[m].Returned?
    ensures Is(Run(events + more), m, Run(events).sends[m])
  {
    hide Run, Step, Consistent;
    if more == [] {
      assert events + more == events;
    } else {
      ReturnedStays(events, more[..|more| - 1], m);
      assert (events + more)[..|events + more| - 1] == events + more[..|more| - 1];
      Follow(events + more, m);
    }
  }

  /** A worker holds or has answered only messages that it received. */
  lemma {:induction false} AnsweredWasReceived(events: seq<Event>, m: MsgId)
    requires m in Run(events).sends
    requires Run(events).sends[m].InHand? || Heard(Run(events), m) != []
    ensures exists c :: Route(events, m) == Some(c) && m in Received(events, c)
  {
    var init, e := events[..|events| - 1], events[|events| - 1];
    Follow(events, m);
    PlacesOnRoute(init, m);
    var s := Run(init);
    hide Step, Consistent;
    if m in s.sends && (s.sends[m].InHand? || Heard(s, m) != []) {
      AnsweredWasReceived(init, m);
      var c :| Route(init, m) == Some(c) && m in Received(init, c);
      assert m in Received(events, c);
    } else {
      assert e.Receive? && CanReceive(s, e.c) && s.channels[e.c].queue[0] == m;
      assert m in Received(events, e.c);
    }
  }

  // ── Errors ───────────────────────────────────────────────────────────────

  /** A send that found a mailbox waits exactly while the mailbox is open and
      full; a full mailbox is never an error, despite the documented meaning of `SendError`. */
  lemma WaitsExactly(s: State, m: MsgId, c: ChannelId)
    requires WaitsFor(s, m, c)
    ensures Step(s, Enqueue(m)) == s <==> s.channels[c].open && |s.channels[c].queue| >= CAPACITY
    ensures Is(Step(s, Enqueue(m)), m, Returned(Err(SendError))) <==> !s.channels[c].open
  {
    var s' := Step(s, Enqueue(m));
    if CanEnqueue(s, m) {
      assert s'.sends[m] == Queued(c);
    }
  }

  /** One agent registers and n messages are sent to it; nothing is received. */
  function Filling(name: string, n: nat): seq<Event> {
    if n == 0 then [Register(name)] else Filling(name, n - 1) + [Lookup(n - 1, name)] + [Enqueue(n - 1)]
  }

  /** One open mailbox with n messages, known by that name. */
  predicate Filled(s: State, name: string, n: nat) {
    name in s.agents && s.agents[name] == 0 && |s.channels| == 1 &&
    s.channels[0].open && s.channels[0].alive && |s.channels[0].queue| == n && forall m :: m in s.sends ==> m < n
  }

  lemma RunMore(events: seq<Event>, e: Event)
    ensures Run(events + [e]) == Step(Run(events), e)
  {
    assert (events + [e])[..|events|] == events;
  }

  lemma FillStep(s: State, name: string, n: nat)
    requires Filled(s, name, n) && n < CAPACITY
    ensures Filled(Step(Step(s, Lookup(n, name)), Enqueue(n)), name, n + 1)
  {
    assert Step(s, Lookup(n, name)) == Move(s, n, Resolved(0));
  }

  lemma {:induction false} FillingFills(name: string, n: nat)
    requires n <= CAPACITY
    ensures Filled(Run(Filling(name, n)), name, n)
  {
    if n == 0 {
      RunMore([], Register(name));
      assert [] + [Register(name)] == [Register(name)];
    } else {
      hide Step, Filled, Run;
      var before := Filling(name, n - 1);
      FillingFills(name, n - 1);
      FillStep(Run(before), name, n - 1);
      RunMore(before, Lookup(n - 1, name));
      RunMore(before + [Lookup(n - 1, name)], Enqueue(n - 1));
    }
  }

  lemma FullStep(s: State, name: string)
    requires Filled(s, name, CAPACITY) && Consistent(s)
    ensures var waiting := Step(s, Lookup(CAPACITY, name));
            WaitsFor(waiting, CAPACITY, 0) && waiting.channels == s.channels &&
            Step(waiting, Enqueue(CAPACITY)) == waiting &&
            Is(Step(Step(waiting, Receive(0)), Enqueue(CAPACITY)), CAPACITY, Queued(0))
  {
    var waiting := Step(s, Lookup(CAPACITY, name));
    assert waiting == Move(s, CAPACITY, Resolved(0));
    assert MailboxOk(s, 0) && Is(s, s.channels[0].queue[0], Queued(0));
    assert WaitsFor(Step(waiting, Receive(0)), CAPACITY, 0);
  }

  /** A full mailbox is reached, by one registration and 32 sends: the 33rd send
      waits, without an error, and gets in as soon as one message is received. */
  lemma FullMailboxWaits(name: string)
    ensures var events := Filling(name, 32) + [Lookup(32, name)];
            WaitsFor(Run(events), 32, 0) && Run(events).channels[0].open && |Run(events).channels[0].queue| == 32 &&
            Run(events + [Enqueue(32)]) == Run(events) &&
            Is(Run(events + [Receive(0)] + [Enqueue(32)]), 32, Queued(0))
  {
    hide Step, Run, Consistent, Is;
    var filled, waiting := Filling(name, CAPACITY), Filling(name, CAPACITY) + [Lookup(CAPACITY, name)];
    FillingFills(name, CAPACITY);
    AlwaysConsistent(filled);
    FullStep(Run(filled), name);
    RunMore(filled, Lookup(CAPACITY, name));
    RunMore(waiting, Enqueue(CAPACITY));
    RunMore(waiting, Receive(0));
    RunMore(waiting + [Receive(0)], Enqueue(CAPACITY));
  }

  /** The receiver of a mailbox was closed or dropped. */
  predicate WasClosed(s: State, c: ChannelId) {
    c < |s.channels| && !s.channels[c].open
  }

  lemma ClosedStays(s: State, e: Event, c: ChannelId)
    requires Consistent(s) && WasClosed(s, c)
    ensures WasClosed(Step(s, e), c)
  {
  }

  /** What the place of a message says about its mailbox `c`: whether it got in, or was kept out. */
  predicate Explained(s: State, place: Place, c: ChannelId, accepted: bool) {
    match place
    case Resolved(_) => !accepted
    case Returned(Err(SendError)) => !accepted && WasClosed(s, c)
    case Returned(Err(AgentNotFound(_))) => false
    case _ => accepted
  }

  lemma ExplainedStep(s: State, e: Event, m: MsgId, c: ChannelId, accepted: bool)
    requires Consistent(s) && m in s.sends && OnRoute(s.sends[m], Some(c)) && Explained(s, s.sends[m], c, accepted)
    ensures var now := e.Enqueue? && e.m == m && CanEnqueue(s, m) && Is(s, m, Resolved(c));
            m in Step(s, e).sends && Explained(Step(s, e), Step(s, e).sends[m], c, accepted || now)
  {
    PlaceSteps(s, e, m);
    if WasClosed(s, c) {
      ClosedStays(s, e, c);
    }
    if e.Enqueue? && e.m == m && CanEnqueue(s, m) {
      assert Step(s, e).sends[m] == Queued(c);
    }
    assert PlaceOk(s, m);
  }

  /** Every outcome explained, for a send that found mailbox `c`: `SendError` is
      returned exactly when its message was kept out because the receiver was
      closed or dropped; in every other outcome the message got in, and then `RecvError`
      is returned only when it was never answered. */
  lemma {:induction false} OutcomesExplained(events: seq<Event>, m: MsgId, c: ChannelId)
    requires m in Run(events).sends && Route(events, m) == Some(c)
    ensures Explained(Run(events), Run(events).sends[m], c, m in Accepted(events, c))
    ensures Run(events).sends[m] == Returned(Err(RecvError)) ==> RepliesTo(events, m) == []
  {
    var init, e := events[..|events| - 1], events[|events| - 1];
    var s := Run(init);
    Follow(events, m);
    PlacesOnRoute(init, m);
    AnsweredExactly(events, m);
    DeliveredOnRoute(init, c, m);
    if m in s.sends {
      OutcomesExplained(init, m, c);
      ExplainedStep(s, e, m, c, m in Accepted(init, c));
    }
    hide Step, Consistent, RepliesTo, Run, Explained, PlaceStep;
    if m !in s.sends {
      NewlyResolved(events, m, c);
    }
  }

  lemma NewlyResolved(events: seq<Event>, m: MsgId, c: ChannelId)
    requires events != [] && m !in Run(events[..|events| - 1]).sends && m in Run(events).sends && Route(events, m) == Some(c)
    ensures Explained(Run(events), Run(events).sends[m], c, m in Accepted(events, c))
  {
    var init := events[..|events| - 1];
    Follow(events, m);
    PlacesOnRoute(init, m);
    DeliveredOnRoute(init, c, m);
    hide Step, Consistent, Run;
  }

  // ── Workers that go away ─────────────────────────────────────────────────

  /** The send of this message fails, or has failed, for want of a reply. */
  predicate Unanswerable(s: State, m: MsgId) {
    Is(s, m, Dropped) || Is(s, m, Returned(Err(RecvError)))
  }

  predicate Gone(s: State, c: ChannelId) {
    c < |s.channels| && !s.channels[c].alive
  }

  lemma GoneStays(s: State, e: Event, c: ChannelId)
    requires c < |s.channels| && (Gone(s, c) || e == DropReceiver(c))
    ensures Gone(Step(s, e), c)
  {
  }

  lemma {:induction false} DropIsFinal(events: seq<Event>, c: ChannelId, more: seq<Event>)
    requires c < |Run(events).channels|
    ensures Gone(Run(events + [DropReceiver(c)] + more), c)
  {
    hide Step, Run;
    var start := events + [DropReceiver(c)];
    if more == [] {
      RunMore(events, DropReceiver(c));
      GoneStays(Run(events), DropReceiver(c), c);
      assert start + more == start;
    } else {
      var init := more[..|more| - 1];
      DropIsFinal(events, c, init);
      RunMore(start + init, more[|more| - 1]);
      GoneStays(Run(start + init), more[|more| - 1], c);
      assert start + init + [more[|more| - 1]] == start + more;
    }
  }

  lemma {:induction false} UnreceivedFails(events: seq<Event>, c: ChannelId, m: MsgId)
    requires Gone(Run(events), c) && m in Accepted(events, c) && m !in Received(events, c)
    ensures Unanswerable(Run(events), m)
  {
    hide Step, Consistent, Run;
    var init, e := events[..|events| - 1], events[|events| - 1];
    var s := Run(init);
    assert init + [e] == events;
    GoneStep(init, e, c);
    RunMore(init, e);
    AlwaysConsistent(init);
    if Gone(s, c) {
      UnreceivedFails(init, c, m);
      PlaceSteps(s, e, m);
    } else {
      FirstInFirstOut(init, c);
      DroppedNow(s, e, c, m, Accepted(init, c), Received(init, c));
    }
  }

  /** A mailbox whose receiver is gone takes part in nothing more. */
  lemma GoneStep(events: seq<Event>, e: Event, c: ChannelId)
    requires Gone(Run(events + [e]), c)
    ensures Accepted(events + [e], c) == Accepted(events, c) && Received(events + [e], c) == Received(events, c)
  {
    hide Consistent;
    var s := Run(events);
    RunMore(events, e);
    AlwaysConsistent(events);
    assert (events + [e])[..|events|] == events;
    StaysAway(s, e, c);
    hide Step, Run;
    assert Accepted(events, c) + [] == Accepted(events, c) && Received(events, c) + [] == Received(events, c);
  }

  lemma StaysAway(s: State, e: Event, c: ChannelId)
    requires Consistent(s) && Gone(Step(s, e), c)
    ensures !(e.Enqueue? && CanEnqueue(s, e.m) && Is(s, e.m, Resolved(c)))
    ensures !(e == Receive(c) && CanReceive(s, c))
  {
    assert c < |s.channels| ==> MailboxOk(s, c);
  }

  lemma DroppedNow(s: State, e: Event, c: ChannelId, m: MsgId, accepted: seq<MsgId>, received: seq<MsgId>)
    requires Consistent(s) && !Gone(s, c) && Gone(Step(s, e), c) && m in accepted && m !in received
    requires c < |s.channels| ==> accepted == received + s.channels[c].queue
    requires c >= |s.channels| ==> accepted == []
    ensures Unanswerable(Step(s, e), m)
  {
    assert e == DropReceiver(c) && m in s.channels[c].queue;
    assert MailboxOk(s, c) && Is(s, m, Queued(c));
  }

  /** No send is left waiting at a mailbox whose receiver was dropped: whatever
      it accepted and its worker had not received fails with `RecvError`. */
  lemma DroppedReceiverFailsAll(events: seq<Event>, c: ChannelId, more: seq<Event>, m: MsgId)
    requires c < |Run(events).channels|
    ensures var all := events + [DropReceiver(c)] + more;
            m in Accepted(all, c) && m !in Received(all, c) ==> Unanswerable(Run(all), m)
  {
    hide Step, Run, Accepted, Received, Unanswerable;
    DropIsFinal(events, c, more);
    var all := events + [DropReceiver(c)] + more;
    if m in Accepted(all, c) && m !in Received(all, c) {
      UnreceivedFails(all, c, m);
    }
  }

  lemma ClosedStep(events: seq<Event>, e: Event, c: ChannelId)
    requires WasClosed(Run(events), c)
    ensures WasClosed(Run(events + [e]), c) && Accepted(events + [e], c) == Accepted(events, c)
  {
    AlwaysConsistent(events);
    RunMore(events, e);
    ClosedStays(Run(events), e, c);
    hide Run, Step, Consistent;
    assert (events + [e])[..|events|] == events;
    assert Accepted(events, c) + [] == Accepted(events, c);
  }

  lemma CloseStep(s: State, c: ChannelId)
    requires c < |s.channels|
    ensures var s' := Step(s, CloseReceiver(c));
            WasClosed(s', c) && s'.channels[c].queue == s.channels[c].queue && s'.channels[c].alive == s.channels[c].alive
  {
  }

  /** A closed mailbox accepts nothing more, whatever follows, and closing it
      takes nothing out: its worker can go on receiving. */
  lemma {:induction false} ClosedAcceptsNothing(events: seq<Event>, c: ChannelId, more: seq<Event>)
    requires c < |Run(events).channels|
    ensures var start := events + [CloseReceiver(c)];
            WasClosed(Run(start + more), c) && Accepted(start + more, c) == Accepted(events, c) &&
            c < |Run(start).channels| && Run(start).channels[c].queue == Run(events).channels[c].queue &&
            Run(start).channels[c].alive == Run(events).channels[c].alive
  {
    hide Run, Step;
    var start := events + [CloseReceiver(c)];
    RunMore(events, CloseReceiver(c));
    CloseStep(Run(events), c);
    if more == [] {
      assert start + more == start && start[..|events|] == events;
      assert Accepted(events, c) + [] == Accepted(events, c);
    } else {
      var init := more[..|more| - 1];
      ClosedAcceptsNothing(events, c, init);
      ClosedStep(start + init, more[|more| - 1], c);
      assert start + init + [more[|more| - 1]] == start + more;
    }
  }

  // ── A request that is served ─────────────────────────────────────────────

  function Receiving(c: ChannelId, n: nat): seq<Event> {
    if n == 0 then [] else Receiving(c, n - 1) + [Receive(c)]
  }

  lemma {:induction false} ReceivedInTurn(events: seq<Event>, c: ChannelId, n: nat)
    requires c < |Run(events).channels| && Run(events).channels[c].alive && n <= |Run(events).channels[c].queue|
    ensures var s := Run(events + Receiving(c, n));
            c < |s.channels| && s.channels[c].alive && s.channels[c].queue == Run(events).channels[c].queue[n..]
    ensures n > 0 ==> Is(Run(events + Receiving(c, n)), Run(events).channels[c].queue[n - 1], InHand(c))
  {
    hide Run;
    if n == 0 {
      assert events + Receiving(c, 0) == events;
    } else {
      ReceivedInTurn(events, c, n - 1);
      RunMore(events + Receiving(c, n - 1), Receive(c));
      assert events + Receiving(c, n - 1) + [Receive(c)] == events + Receiving(c, n);
    }
  }

  lemma SentIsLast(events: seq<Event>, m: MsgId, agent: string)
    requires m !in Run(events).sends && agent in Run(events).agents
    requires Run(events).agents[agent] < |Run(events).channels|
    requires var mailbox := Run(events).channels[Run(events).agents[agent]]; mailbox.open && mailbox.alive && |mailbox.queue| < 32
    ensures var c := Run(events).agents[agent];
            var s := Run(events + [Lookup(m, agent)] + [Enqueue(m)]);
            c < |s.channels| && s.channels[c].alive && s.channels[c].queue == Run(events).channels[c].queue + [m]
  {
    RunMore(events, Lookup(m, agent));
    RunMore(events + [Lookup(m, agent)], Enqueue(m));
    hide Run;
    assert Step(Run(events), Lookup(m, agent)) == Move(Run(events), m, Resolved(Run(events).agents[agent]));
  }

  lemma Concluded(events: seq<Event>, m: MsgId, c: ChannelId, text: string)
    requires Is(Run(events), m, InHand(c))
    ensures Is(Run(events + [Reply(m, text)] + [Await(m)]), m, Returned(Ok(text)))
    ensures Is(Run(events + [Discard(m)] + [Await(m)]), m, Returned(Err(RecvError)))
  {
    RunMore(events, Reply(m, text));
    RunMore(events + [Reply(m, text)], Await(m));
    RunMore(events, Discard(m));
    RunMore(events + [Discard(m)], Await(m));
    hide Run;
  }

  /** In every reachable state a send to a mailbox with room is served: once its
      worker has received what was in front of it, its reply is what `send`
      returns, and discarding the message makes `send` fail. */
  lemma RequestIsServed(events: seq<Event>, m: MsgId, agent: string, text: string)
    requires m !in Run(events).sends && agent in Run(events).agents
    requires Run(events).agents[agent] < |Run(events).channels|
    requires var mailbox := Run(events).channels[Run(events).agents[agent]]; mailbox.open && mailbox.alive && |mailbox.queue| < 32
    ensures var c := Run(events).agents[agent];
            var received := events + [Lookup(m, agent)] + [Enqueue(m)] + Receiving(c, |Run(events).channels[c].queue| + 1);
            Is(Run(received + [Reply(m, text)] + [Await(m)]), m, Returned(Ok(text))) &&
            Is(Run(received + [Discard(m)] + [Await(m)]), m, Returned(Err(RecvError)))
  {
    hide Run, Step;
    var c := Run(events).agents[agent];
    var sent := events + [Lookup(m, agent)] + [Enqueue(m)];
    var n := |Run(events).channels[c].queue| + 1;
    SentIsLast(events, m, agent);
    ReceivedInTurn(sent, c, n);
    Concluded(sent + Receiving(c, n), m, c, text);
  }
}
