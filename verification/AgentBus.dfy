/** Point-to-point messages between agents (crates/roos-core/src/bus.rs), as a
    protocol whose steps interleave in any order. A `send` is three steps: look
    the agent up, put the message into the mailbox, await the reply. Workers
    receive, reply, discard, close their mailbox and go away whenever they like. */
module AgentBus {
  import opened Common

  const CAPACITY: nat := 32

  /** A mailbox is named by the position of its registration; a message by the call of `send`. */
  type ChannelId = nat
  type MsgId = nat

  datatype BusError = AgentNotFound(name: string) | SendError | RecvError

  /** A mailbox with the messages in it. It is open until its receiver closes it
      or is dropped; a closed one can be emptied while the receiver is alive. */
  datatype Channel = Channel(queue: seq<MsgId>, open: bool, alive: bool)

  const EMPTY := Channel([], true, true)

  /** Where a message is. */
  datatype Place =
    | Resolved(channel: ChannelId)
    | Queued(channel: ChannelId)
    | InHand(channel: ChannelId)
    | Answered(reply: string)
    | Dropped
    | Returned(result: Result<string, BusError>)

  datatype State = State(agents: map<string, ChannelId>, channels: seq<Channel>, sends: map<MsgId, Place>)

  datatype Event =
    | Register(name: string)
    | Lookup(m: MsgId, agent: string)
    | Enqueue(m: MsgId)
    | Await(m: MsgId)
    | Receive(c: ChannelId)
    | Reply(m: MsgId, text: string)
    | Discard(m: MsgId)
    | CloseReceiver(c: ChannelId)
    | DropReceiver(c: ChannelId)

  const INITIAL := State(map[], [], map[])

  predicate Is(s: State, m: MsgId, place: Place) {
    m in s.sends && s.sends[m] == place
  }

  function Move(s: State, m: MsgId, place: Place): State {
    s.(sends := s.sends[m := place])
  }

  function SetQueue(s: State, c: ChannelId, queue: seq<MsgId>): State
    requires c < |s.channels|
  {
    s.(channels := s.channels[c := s.channels[c].(queue := queue)])
  }

  /** The mailbox that a pending send is waiting for. */
  predicate WaitsFor(s: State, m: MsgId, c: ChannelId) {
    Is(s, m, Resolved(c)) && c < |s.channels|
  }

  predicate CanEnqueue(s: State, m: MsgId) {
    m in s.sends && s.sends[m].Resolved? && s.sends[m].channel < |s.channels| &&
    var channel := s.channels[s.sends[m].channel];
    channel.open && |channel.queue| < CAPACITY
  }

  predicate CanReceive(s: State, c: ChannelId) {
    c < |s.channels| && s.channels[c].alive && s.channels[c].queue != []
  }

  predicate Holds(s: State, m: MsgId) {
    m in s.sends && s.sends[m].InHand?
  }

  /** One step; an event that is not possible in a state changes nothing. */
  function Step(s: State, e: Event): State {
    match e
    case Register(name) =>
      s.(agents := s.agents[name := |s.channels|], channels := s.channels + [EMPTY])
    case Lookup(m, agent) =>
      if m in s.sends then s
      else if agent in s.agents then Move(s, m, Resolved(s.agents[agent]))
      else Move(s, m, Returned(Err(AgentNotFound(agent))))
    case Enqueue(m) =>
      if !(m in s.sends && s.sends[m].Resolved? && s.sends[m].channel < |s.channels|) then s
      else
        var c := s.sends[m].channel;
        if !s.channels[c].open then Move(s, m, Returned(Err(SendError)))
        else if |s.channels[c].queue| < CAPACITY then Move(SetQueue(s, c, s.channels[c].queue + [m]), m, Queued(c))
        else s
    case Await(m) =>
      if m in s.sends && s.sends[m].Answered? then Move(s, m, Returned(Ok(s.sends[m].reply)))
      else if m in s.sends && s.sends[m].Dropped? then Move(s, m, Returned(Err(RecvError)))
      else s
    case Receive(c) =>
      if CanReceive(s, c) then Move(SetQueue(s, c, s.channels[c].queue[1..]), s.channels[c].queue[0], InHand(c)) else s
    case Reply(m, text) => if Holds(s, m) then Move(s, m, Answered(text)) else s
    case Discard(m) => if Holds(s, m) then Move(s, m, Dropped) else s
    case CloseReceiver(c) =>
      if c < |s.channels| then s.(channels := s.channels[c := s.channels[c].(open := false)]) else s
    case DropReceiver(c) =>
      if c < |s.channels| && s.channels[c].alive then
        var lost := s.channels[c].queue;
        s.(channels := s.channels[c := Channel([], false, false)],
           sends := map m | m in s.sends :: if m in lost then Dropped else s.sends[m])
      else s
  }

  function Run(events: seq<Event>): State {
    if events == [] then INITIAL else Step(Run(events[..|events| - 1]), events[|events| - 1])
  }

  // ── The bus object ───────────────────────────────────────────────────────

  class RoosAgentBus {
    var agents: map<string, ChannelId>
    var channels: seq<Channel>
    var sends: map<MsgId, Place>

    function View(): State
      reads this
    {
      State(agents, channels, sends)
    }

    constructor ()
      ensures View() == INITIAL
    {
      agents, channels, sends := map[], [], map[];
    }

    /** A new mailbox replaces the one registered under the name, which lives on
        for the sends that have already found it. */
    method RegisterAgent(name: string) returns (receiver: ChannelId)
      modifies this
      ensures View() == Step(old(View()), Register(name))
      ensures receiver == |old(channels)| && name in agents && agents[name] == receiver
      ensures forall other :: other != name ==>
                (other in agents <==> other in old(agents)) && (other in agents ==> agents[other] == old(agents)[other])
      ensures channels == old(channels) + [Channel([], true, true)] && sends == old(sends)
    {
      receiver := |channels|;
      channels := channels + [EMPTY];
      agents := agents[name := receiver];
    }

    method BeginSend(m: MsgId, agent: string)
      requires m !in sends
      modifies this
      ensures View() == Step(old(View()), Lookup(m, agent))
      ensures sends == old(sends)[m := if agent in agents then Resolved(agents[agent]) else Returned(Err(AgentNotFound(agent)))]
      ensures agents == old(agents) && channels == old(channels)
    {
      if agent !in agents {
        sends := sends[m := Returned(Err(AgentNotFound(agent)))];
      } else {
        sends := sends[m := Resolved(agents[agent])];
      }
    }

    /** One attempt to hand the message over; `waiting` while the mailbox is full. */
    method Deliver(m: MsgId) returns (waiting: bool)
      requires m in sends && sends[m].Resolved? && sends[m].channel < |channels|
      modifies this
      ensures View() == Step(old(View()), Enqueue(m))
      ensures waiting <==> View() == old(View())
      ensures agents == old(agents)
      ensures var c := old(sends)[m].channel;
              var queue := old(channels)[c].queue;
              if !old(channels)[c].open then
                sends == old(sends)[m := Returned(Err(SendError))] && channels == old(channels)
              else if |queue| < 32 then
                sends == old(sends)[m := Queued(c)] && channels == old(channels)[c := Channel(queue + [m], true, old(channels)[c].alive)]
              else waiting
    {
      var c := sends[m].channel;
      waiting := false;
      if !channels[c].open {
        sends := sends[m := Returned(Err(SendError))];
      } else if |channels[c].queue| < CAPACITY {
        channels := channels[c := channels[c].(queue := channels[c].queue + [m])];
        sends := sends[m := Queued(c)];
      } else {
        waiting := true;
      }
    }

    method AwaitReply(m: MsgId) returns (r: Option<Result<string, BusError>>)
      requires m in sends
      modifies this
      ensures View() == Step(old(View()), Await(m))
      ensures old(sends)[m].Answered? ==> r == Some(Ok(old(sends)[m].reply))
      ensures old(sends)[m].Dropped? ==> r == Some(Err(RecvError))
      ensures !old(sends)[m].Answered? && !old(sends)[m].Dropped? ==> r == None
      ensures agents == old(agents) && channels == old(channels)
      ensures sends == if r.Some? then old(sends)[m := Returned(r.value)] else old(sends)
    {
      r := None;
      if sends[m].Answered? {
        r := Some(Ok(sends[m].reply));
      } else if sends[m].Dropped? {
        r := Some(Err(RecvError));
      }
      if r.Some? {
        sends := sends[m := Returned(r.value)];
      }
    }
  }
}
