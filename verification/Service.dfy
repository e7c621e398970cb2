/** The whole server: packets become commands, commands change the lobby, in any interleaving of the threads. */
module Services {
  import opened Wrappers
  import opened Wire
  import opened Serializers
  import opened Replies
  import opened Players
  import Pipelines
  import opened Lobby
  import opened LobbyInvariant
  import opened LobbyRuns

  // ---------- what a queued command asks of the lobby ----------

  /** The command a client's message stands for, none if nothing is done on its header. A game it may start will be
      at address `game`. */
  function MeaningOf(p: Address, m: Message, game: Address): Option<Command> {
    if m.header == H_C_NEW_PL && Fits("s", m.payload) then Some(Naming(p, TextOf(m.payload[0].bytes)))
    else if m.header == H_C_PL_RECONN && Fits("s", m.payload) then Some(Returning(p, TextOf(m.payload[0].bytes)))
    else if m.header == H_C_PL_LIST_REQ then Some(Listing(p))
    else if m.header == H_C_PL_LOGOUT then Some(LoggingOut(p))
    else if m.header == H_C_JOIN_PLAYER && Fits("s", m.payload) then Some(Joining(p, TextOf(m.payload[0].bytes)))
    else if m.header == H_C_DECLIN_JOIN then Some(Declining(p))
    else if m.header == H_C_ACCEPT_JOIN then Some(Accepting(p, game))
    else if m.header == H_C_GAME_MOVE && Fits("iii", m.payload) then
      Some(Playing(p, m.payload[0].value, m.payload[1].value, m.payload[2].value))
    else None
  }

  /** One thing done to the lobby: at once by the receiving or the packet thread, or from the command queue. */
  datatype Deed = AtOnce(c: Command) | Queued(queued: Pipelines.Command, game: Address)

  function Meant(s: Lobby.State, d: Deed): Option<Command> {
    match d
    case AtOnce(c) => Some(c)
    case Queued(PlayerLost(p), _) => Some(Dropping(At(s, p).socket))
    case Queued(FromClient(socket, m), game) => MeaningOf(PlayerBySocket(s, socket), m, game)
  }

  function Serve(s: Lobby.State, d: Deed): Lobby.State {
    if Meant(s, d).Some? then Apply(s, Meant(s, d).value) else s
  }

  /** Connections and disconnections do not go through the queue, nor does the counting of unreadable packets. */
  ghost predicate MayServe(s: Lobby.State, d: Deed) {
    && (d.AtOnce? ==> d.c.Connecting? || d.c.Dropping? || d.c.Junk?)
    && (Meant(s, d).Some? ==> Guard(s, Meant(s, d).value))
  }

  /** A lobby after some deeds. */
  function ServedFrom(s: Lobby.State, deeds: seq<Deed>): Lobby.State {
    if deeds == [] then s else Serve(ServedFrom(s, deeds[..|deeds| - 1]), deeds[|deeds| - 1])
  }

  /** Each deed is permitted when its turn comes. */
  ghost predicate MayServeAll(s: Lobby.State, deeds: seq<Deed>) {
    forall k :: 0 <= k < |deeds| ==> MayServe(ServedFrom(s, deeds[..k]), deeds[k])
  }

  /** The commands of the queue among what was done, in order. */
  function FromQueue(log: seq<Deed>): seq<Pipelines.Command> {
    if log == [] then []
    else
      var last := log[|log| - 1];
      FromQueue(log[..|log| - 1]) + if last.Queued? then [last.queued] else []
  }

  /** The sockets of the unreadable packets counted among what was done, in order. */
  function JunkIn(log: seq<Deed>): seq<int> {
    if log == [] then []
    else
      var last := log[|log| - 1];
      JunkIn(log[..|log| - 1]) + if last.AtOnce? && last.c.Junk? then [last.c.socket] else []
  }

  /** The sockets of the packets that cannot be read, in order. */
  function Unreadable(packets: seq<Pipelines.Packet>): seq<int> {
    if packets == [] then []
    else
      var last := packets[|packets| - 1];
      Unreadable(packets[..|packets| - 1]) + if Pipelines.Decoded(last) == [] then [last.socket] else []
  }

  lemma {:induction false} UnreadableConcat(a: seq<Pipelines.Packet>, b: seq<Pipelines.Packet>)
    ensures Unreadable(a + b) == Unreadable(a) + Unreadable(b)
  {
    hide Pipelines.Decoded;
    if b == [] {
      assert a + b == a;
    } else {
      UnreadableConcat(a, b[..|b| - 1]);
      assert (a + b)[..|a + b| - 1] == a + b[..|b| - 1];
    }
  }

  lemma UnreadableOne(packet: Pipelines.Packet)
    ensures Unreadable([packet]) == if Pipelines.Decoded(packet) == [] then [packet.socket] else []
  {
    hide Pipelines.Decoded;
    assert [packet][..0] == [];
  }

  // ---------- the threads and the lobby together ----------

  datatype Snapshot = Snapshot(pipe: Pipelines.State, lobby: Lobby.State, log: seq<Deed>)

  const START := Snapshot(Pipelines.START, EMPTY, [])

  /** A step of a thread that leaves the lobby alone, a packet forwarded or refused, a command handled, or a connection
      opened or lost. */
  datatype Event =
    | Passing(e: Pipelines.Event)
    | Forwarding
    | Handling(game: Address)
    | Connection(c: Command)

  /** What the event does to the lobby, if anything. */
  function DeedOf(s: Snapshot, e: Event): Option<Deed> {
    match e
    case Passing(_) => None
    case Forwarding =>
      if s.pipe.packetThread.Holding? && Pipelines.Decoded(s.pipe.packetThread.item) == []
      then Some(AtOnce(Junk(s.pipe.packetThread.item.socket))) else None
    case Handling(game) =>
      if s.pipe.commandThread.Holding? then Some(Queued(s.pipe.commandThread.item, game)) else None
    case Connection(c) => Some(AtOnce(c))
  }

  /** The step of the threads in an event, none for those of the receiving thread alone. */
  function PipeOf(e: Event): Option<Pipelines.Event> {
    match e
    case Passing(step) => Some(step)
    case Forwarding => Some(Pipelines.PacketForward)
    case Handling(_) => Some(Pipelines.CommandHandle)
    case Connection(_) => None
  }

  ghost predicate Enabled(s: Snapshot, e: Event) {
    && (PipeOf(e).Some? ==> Pipelines.Enabled(s.pipe, PipeOf(e).value))
    && (e.Passing? ==> !e.e.PacketForward? && !e.e.CommandHandle?)
    && (e.Connection? ==> e.c.Connecting? || e.c.Dropping?)
    && (DeedOf(s, e).Some? ==> MayServe(s.lobby, DeedOf(s, e).value))
  }

  ghost function Next(s: Snapshot, e: Event): Snapshot
    requires Enabled(s, e)
  {
    var pipe := if PipeOf(e).Some? then Pipelines.Step(s.pipe, PipeOf(e).value) else s.pipe;
    var d := DeedOf(s, e);
    if d.Some? then Snapshot(pipe, Serve(s.lobby, d.value), s.log + [d.value]) else s.(pipe := pipe)
  }

  ghost function Run(events: seq<Event>): Option<Snapshot> {
    if events == [] then Some(START)
    else
      var before := Run(events[..|events| - 1]);
      var e := events[|events| - 1];
      if before.Some? && Enabled(before.value, e) then Some(Next(before.value, e)) else None
  }

  /** The lobby is what comes of the deeds so far, among them the commands handled, in their order, and the counting of
      the unreadable packets, in theirs. */
  ghost predicate Joint(s: Snapshot) {
    && Pipelines.Inv(s.pipe)
    && Reachable(s.lobby)
    && s.lobby == ServedFrom(EMPTY, s.log)
    && FromQueue(s.log) == s.pipe.handled
    && JunkIn(s.log) + Unreadable(OnTheWay(s.pipe)) == Unreadable(s.pipe.received)
  }

  /** The packets received and not yet passed on. */
  function OnTheWay(pipe: Pipelines.State): seq<Pipelines.Packet> {
    Pipelines.Held(pipe.packetThread) + pipe.packets
  }

  lemma ServeStaysReachable(s: Lobby.State, d: Deed)
    requires Reachable(s) && MayServe(s, d)
    ensures Reachable(Serve(s, d))
  {
    hide Reachable, Guard, Apply, Meant;
    if Meant(s, d).Some? { StepsOn(s, Meant(s, d).value); }
  }

  lemma OneMoreDeed(s: Lobby.State, log: seq<Deed>, d: Deed)
    ensures ServedFrom(s, log + [d]) == Serve(ServedFrom(s, log), d)
    ensures FromQueue(log + [d]) == FromQueue(log) + if d.Queued? then [d.queued] else []
    ensures JunkIn(log + [d]) == JunkIn(log) + if d.AtOnce? && d.c.Junk? then [d.c.socket] else []
  {
    assert (log + [d])[..|log|] == log;
  }

  /** A packet received is on its way; one forwarded is not any more; no other step changes which are. */
  lemma ReceivedIsOnTheWay(pipe: Pipelines.State, e: Pipelines.Event)
    requires Pipelines.Enabled(pipe, e) && Pipelines.Inv(pipe) && !e.PacketForward?
    ensures
      var pipe' := Pipelines.Step(pipe, e);
      || (OnTheWay(pipe') == OnTheWay(pipe) && pipe'.received == pipe.received)
      || (e.Receive? && OnTheWay(pipe') == OnTheWay(pipe) + [e.packet] && pipe'.received == pipe.received + [e.packet])
  {
    hide Pipelines.DecodeAll, Pipelines.Client, Whole, Pipelines.Decoded;
    var pipe' := Pipelines.Step(pipe, e);
    if e.PacketPop? { assert pipe.packets == [pipe.packets[0]] + pipe.packets[1..]; }
    if e.Receive? { assert OnTheWay(pipe') == OnTheWay(pipe) + [e.packet]; }
  }

  lemma JunkIsCounted(s: Snapshot, e: Event)
    requires Joint(s) && Enabled(s, e)
    ensures var s' := Next(s, e);
            JunkIn(s'.log) + Unreadable(OnTheWay(s'.pipe)) == Unreadable(s'.pipe.received)
  {
    hide Reachable, Serve, ServedFrom, FromQueue, MayServe, Pipelines.Inv, Pipelines.Decoded, JunkIn, Unreadable;
    var d := DeedOf(s, e);
    if d.Some? { OneMoreDeed(EMPTY, s.log, d.value); }
    if e.Forwarding? {
      var packet := s.pipe.packetThread.item;
      UnreadableConcat([packet], s.pipe.packets);
      UnreadableOne(packet);
      assert OnTheWay(Next(s, e).pipe) == s.pipe.packets;
    } else if PipeOf(e).Some? {
      ReceivedIsOnTheWay(s.pipe, PipeOf(e).value);
      if PipeOf(e).value.Receive? {
        UnreadableConcat(OnTheWay(s.pipe), [PipeOf(e).value.packet]);
        UnreadableConcat(s.pipe.received, [PipeOf(e).value.packet]);
      }
    }
  }

  lemma NextKeeps(s: Snapshot, e: Event)
    requires Joint(s) && Enabled(s, e)
    ensures Joint(Next(s, e))
  {
    hide Reachable, Serve, ServedFrom, FromQueue, MayServe, Pipelines.Inv, Pipelines.Decoded, JunkIn, Unreadable;
    JunkIsCounted(s, e);
    if PipeOf(e).Some? { Pipelines.StepKeeps(s.pipe, PipeOf(e).value); }
    var d := DeedOf(s, e);
    if d.Some? {
      ServeStaysReachable(s.lobby, d.value);
      OneMoreDeed(EMPTY, s.log, d.value);
    }
  }

  lemma {:induction false} RunKeeps(events: seq<Event>)
    requires Run(events).Some?
    ensures Joint(Run(events).value)
  {
    hide Joint, Enabled, Next;
    if events == [] {
      StartIsJoint();
    } else {
      RunKeeps(events[..|events| - 1]);
      NextKeeps(Run(events[..|events| - 1]).value, events[|events| - 1]);
    }
  }

  lemma StartIsJoint()
    ensures Joint(START)
  {
    StartIsReachable();
    assert Pipelines.DecodeAll([]) == [] && Pipelines.Client([]) == [];
  }

  /** Under every interleaving of the threads, the lobby is what the connections and the handled commands have made of
      the empty one; the commands are handled in the order of the queue, and with those on their way they are the
      in-order decoding of all packets received; every packet that cannot be read is counted once, in order; and the
      lobby is one that a run of permitted commands reaches, so everything proved of those holds of it. */
  lemma EveryInterleaving(events: seq<Event>)
    requires Run(events).Some?
    ensures
      var s := Run(events).value;
      && s.lobby == ServedFrom(EMPTY, s.log) && FromQueue(s.log) == s.pipe.handled
      && JunkIn(s.log) + Unreadable(OnTheWay(s.pipe)) == Unreadable(s.pipe.received)
      && Pipelines.Client(FromQueue(s.log)) + Pipelines.Client(Pipelines.Held(s.pipe.commandThread))
           + Pipelines.Client(s.pipe.commands) + Pipelines.DecodeAll(Pipelines.Held(s.pipe.packetThread))
           + Pipelines.DecodeAll(s.pipe.packets) == Pipelines.DecodeAll(s.pipe.received)
      && Reachable(s.lobby) && Inv(s.lobby) && BoardsOk(s.lobby)
  {
    RunKeeps(events);
    hide Run, Reachable, Inv, BoardsOk, Pipelines.Inv, ServedFrom, FromQueue, JunkIn, Unreadable;
    Pipelines.ConservedIn(Run(events).value.pipe);
    ReachableIsSound(Run(events).value.lobby);
  }
}
