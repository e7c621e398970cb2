/** Packets on their way from the sockets through the packet thread to the command thread, in any interleaving. */
module Pipelines {
  import opened Wrappers
  import opened Wire
  import opened Serializers

  datatype Packet = Packet(socket: int, data: seq<byte>)

  /** A command in the queue: a client's message, or the server's own notice that a player in a game is lost. */
  datatype Command = FromClient(socket: int, message: Message) | PlayerLost(player: int)

  /** Where a consumer is in its loop: about to look, having seen a non-empty queue, or holding what it popped. */
  datatype Consumer<T> = Looking | Saw | Holding(item: T)

  /** `received` and `pushed` are everything ever put in the two queues, `handled` every command done with.
      `popped` tells of a pop from an empty queue. */
  datatype State = State(
    received: seq<Packet>, packets: seq<Packet>, packetThread: Consumer<Packet>,
    pushed: seq<Command>, commands: seq<Command>, commandThread: Consumer<Command>, handled: seq<Command>,
    poppedEmpty: bool)

  const START := State([], [], Looking, [], [], Looking, [], false)

  /** One atomic step of one thread. */
  datatype Event =
    | Receive(packet: Packet)
    | PacketLook | PacketPop | PacketForward
    | Lose(player: int)
    | CommandLook | CommandPop | CommandHandle

  predicate Enabled(s: State, e: Event) {
    match e
    case Receive(packet) => Whole(packet.data)
    case PacketLook => s.packetThread.Looking?
    case PacketPop => s.packetThread.Saw?
    case PacketForward => s.packetThread.Holding?
    case Lose(_) => true
    case CommandLook => s.commandThread.Looking?
    case CommandPop => s.commandThread.Saw?
    case CommandHandle => s.commandThread.Holding?
  }

  /** The commands a packet turns into: one, or none if its header is unknown. */
  function Decoded(packet: Packet): seq<Command> {
    if Whole(packet.data) && Decode(packet.data).Some? then [FromClient(packet.socket, Decode(packet.data).value)]
    else []
  }

  function Push(s: State, commands: seq<Command>): State {
    s.(pushed := s.pushed + commands, commands := s.commands + commands)
  }

  function Step(s: State, e: Event): State
    requires Enabled(s, e)
  {
    match e
    case Receive(packet) => s.(received := s.received + [packet], packets := s.packets + [packet])
    case PacketLook => s.(packetThread := if s.packets == [] then Looking else Saw)
    case PacketPop =>
      if s.packets == [] then s.(poppedEmpty := true)
      else s.(packetThread := Holding(s.packets[0]), packets := s.packets[1..])
    case PacketForward => Push(s, Decoded(s.packetThread.item)).(packetThread := Looking)
    case Lose(player) => Push(s, [PlayerLost(player)])
    case CommandLook => s.(commandThread := if s.commands == [] then Looking else Saw)
    case CommandPop =>
      if s.commands == [] then s.(poppedEmpty := true)
      else s.(commandThread := Holding(s.commands[0]), commands := s.commands[1..])
    case CommandHandle => s.(handled := s.handled + [s.commandThread.item], commandThread := Looking)
  }

  function Run(events: seq<Event>): (r: Option<State>) {
    if events == [] then Some(START)
    else
      var before := Run(events[..|events| - 1]);
      var e := events[|events| - 1];
      if before.Some? && Enabled(before.value, e) then Some(Step(before.value, e)) else None
  }

  /** What a consumer has popped and not yet passed on. */
  function Held<T>(c: Consumer<T>): seq<T> {
    if c.Holding? then [c.item] else []
  }

  function DecodeAll(packets: seq<Packet>): seq<Command> {
    if packets == [] then [] else DecodeAll(packets[..|packets| - 1]) + Decoded(packets[|packets| - 1])
  }

  /** The commands that came from clients. */
  function Client(commands: seq<Command>): seq<Command> {
    if commands == [] then []
    else
      var last := commands[|commands| - 1];
      Client(commands[..|commands| - 1]) + if last.FromClient? then [last] else []
  }

  /** Nothing is lost, added or reordered between the queues, only whole packets are read, and no consumer that has
      seen something finds nothing. */
  ghost predicate Inv(s: State) {
    && s.handled + Held(s.commandThread) + s.commands == s.pushed
    && Client(s.pushed) + DecodeAll(Held(s.packetThread) + s.packets) == DecodeAll(s.received)
    && (forall p :: p in Held(s.packetThread) + s.packets ==> Whole(p.data))
    && (s.packetThread.Saw? ==> s.packets != [])
    && (s.commandThread.Saw? ==> s.commands != [])
    && !s.poppedEmpty
  }

  lemma {:induction false} DecodeAllConcat(a: seq<Packet>, b: seq<Packet>)
    ensures DecodeAll(a + b) == DecodeAll(a) + DecodeAll(b)
  {
    hide Decoded;
    if b == [] {
      assert a + b == a;
    } else {
      DecodeAllConcat(a, b[..|b| - 1]);
      assert (a + b)[..|a + b| - 1] == a + b[..|b| - 1];
    }
  }

  lemma DecodeOne(packet: Packet)
    ensures DecodeAll([packet]) == Decoded(packet)
  {
    assert [packet][..0] == [];
  }

  lemma {:induction false} ClientConcat(a: seq<Command>, b: seq<Command>)
    ensures Client(a + b) == Client(a) + Client(b)
  {
    if b == [] {
      assert a + b == a;
    } else {
      ClientConcat(a, b[..|b| - 1]);
      assert (a + b)[..|a + b| - 1] == a + b[..|b| - 1];
    }
  }

  lemma ClientOfDecoded(packet: Packet)
    ensures Client(Decoded(packet)) == Decoded(packet)
  {
    var d := Decoded(packet);
    if d != [] { assert d[..0] == []; }
  }

  lemma ReceiveKeeps(s: State, packet: Packet)
    requires Inv(s) && Whole(packet.data)
    ensures Inv(Step(s, Receive(packet)))
  {
    hide Client, DecodeAll, Decoded, Whole;
    var s' := Step(s, Receive(packet));
    DecodeAllConcat(s.received, [packet]);
    DecodeAllConcat(Held(s.packetThread) + s.packets, [packet]);
    assert Held(s'.packetThread) + s'.packets == Held(s.packetThread) + s.packets + [packet];
  }

  lemma ForwardKeeps(s: State)
    requires Inv(s) && s.packetThread.Holding?
    ensures Inv(Step(s, PacketForward))
  {
    hide Client, DecodeAll, Decoded, Whole;
    var packet := s.packetThread.item;
    var s' := Step(s, PacketForward);
    DecodeAllConcat([packet], s.packets);
    DecodeOne(packet);
    ClientConcat(s.pushed, Decoded(packet));
    ClientOfDecoded(packet);
    assert Held(s'.packetThread) + s'.packets == s.packets;
  }

  lemma StepKeeps(s: State, e: Event)
    requires Inv(s) && Enabled(s, e)
    ensures Inv(Step(s, e))
  {
    hide Client, DecodeAll, Decoded, Whole;
    var s' := Step(s, e);
    match e
    case Receive(packet) => ReceiveKeeps(s, packet);
    case PacketPop =>
      assert Held(s'.packetThread) + s'.packets == s.packets == Held(s.packetThread) + s.packets;
    case PacketForward => ForwardKeeps(s);
    case Lose(player) =>
      ClientConcat(s.pushed, [PlayerLost(player)]);
      LossIsNoClient(player);
    case CommandPop =>
      assert s.commands == [s.commands[0]] + s.commands[1..];
    case _ =>
  }

  lemma LossIsNoClient(player: int)
    ensures Client([PlayerLost(player)]) == []
  {
    assert [PlayerLost(player)][..0] == [];
  }

  lemma {:induction false} RunKeeps(events: seq<Event>)
    requires Run(events).Some?
    ensures Inv(Run(events).value)
  {
    if events != [] {
      RunKeeps(events[..|events| - 1]);
      StepKeeps(Run(events[..|events| - 1]).value, events[|events| - 1]);
    } else {
      assert DecodeAll([]) == [] && Client([]) == [];
    }
  }

  lemma ConservedIn(s: State)
    requires Inv(s)
    ensures Client(s.handled) + Client(Held(s.commandThread)) + Client(s.commands)
              + DecodeAll(Held(s.packetThread)) + DecodeAll(s.packets) == DecodeAll(s.received)
  {
    hide Client, DecodeAll;
    ClientConcat(s.handled + Held(s.commandThread), s.commands);
    ClientConcat(s.handled, Held(s.commandThread));
    DecodeAllConcat(Held(s.packetThread), s.packets);
  }

  /** Under every interleaving: the client commands handled, in hand and queued, then the packet in hand and the
      packets queued, decoded, are together the in-order decoding of everything received. No consumer ever pops an
      empty queue. */
  lemma Conservation(events: seq<Event>)
    requires Run(events).Some?
    ensures
      var s := Run(events).value;
      && Client(s.handled) + Client(Held(s.commandThread)) + Client(s.commands)
           + DecodeAll(Held(s.packetThread)) + DecodeAll(s.packets) == DecodeAll(s.received)
      && !s.poppedEmpty
  {
    hide Client, DecodeAll, Run;
    RunKeeps(events);
    ConservedIn(Run(events).value);
  }

  /** With both threads looking at empty queues, exactly what was received has been handled, in order. */
  lemma QuietMeansAllHandled(events: seq<Event>)
    requires Run(events).Some?
    requires
      var s := Run(events).value;
      s.packets == [] && s.commands == [] && s.packetThread.Looking? && s.commandThread.Looking?
    ensures Client(Run(events).value.handled) == DecodeAll(Run(events).value.received)
  {
    Conservation(events);
  }

  /** What clients wrote, each message with the socket it came in on. */
  datatype Written = Written(socket: int, message: Message)

  ghost predicate AllWellFormed(written: seq<Written>) {
    forall k :: 0 <= k < |written| ==> WellFormed(written[k].message)
  }

  ghost function PacketOf(w: Written): Packet
    requires WellFormed(w.message)
  {
    Packet(w.socket, Serializers.Packet(w.message.header, w.message.payload))
  }

  ghost function PacketsOf(written: seq<Written>): seq<Packet>
    requires AllWellFormed(written)
  {
    seq(|written|, k requires 0 <= k < |written| => PacketOf(written[k]))
  }

  function CommandsOf(written: seq<Written>): seq<Command> {
    seq(|written|, k requires 0 <= k < |written| => FromClient(written[k].socket, written[k].message))
  }

  lemma WrittenIsDecoded(w: Written)
    requires WellFormed(w.message)
    ensures Decoded(PacketOf(w)) == [FromClient(w.socket, w.message)]
  {
    hide WellFormed, Serializers.Packet, Decode, Whole;
    var data := PacketOf(w).data;
    assert data + [] == data;
    PacketSize(w.message);
    RoundTrip(w.message, []);
  }

  lemma PacketSize(m: Message)
    requires WellFormed(m)
    ensures |Serializers.Packet(m.header, m.payload)| <= MAX_INT
  {
  }

  lemma {:induction false} AllWrittenAreDecoded(written: seq<Written>)
    requires AllWellFormed(written)
    ensures DecodeAll(PacketsOf(written)) == CommandsOf(written)
  {
    hide WellFormed, Decoded, PacketOf, DecodeAll;
    if written == [] {
      NothingToDecode();
      assert PacketsOf(written) == [];
    } else {
      var init, last := written[..|written| - 1], written[|written| - 1];
      AllWrittenAreDecoded(init);
      WrittenIsDecoded(last);
      assert PacketsOf(written) == PacketsOf(init) + [PacketOf(last)];
      DecodeAllConcat(PacketsOf(init), [PacketOf(last)]);
      DecodeOne(PacketOf(last));
    }
  }

  lemma NothingToDecode()
    ensures DecodeAll([]) == []
  {
  }

  /** From writing to handling: whatever messages were written, once both threads find their queues empty the
      commands handled for clients are exactly these messages, each once, in the order they came in. */
  lemma MessagesArriveInOrder(events: seq<Event>, written: seq<Written>)
    requires Run(events).Some? && AllWellFormed(written)
    requires
      var s := Run(events).value;
      && s.received == PacketsOf(written)
      && s.packets == [] && s.commands == [] && s.packetThread.Looking? && s.commandThread.Looking?
    ensures Client(Run(events).value.handled) == CommandsOf(written)
  {
    QuietMeansAllHandled(events);
    AllWrittenAreDecoded(written);
  }

  lemma DecodedHeaderIsKnown(packet: Packet, c: Command)
    requires c in Decoded(packet)
    ensures c.FromClient? && c.message.header in FORMATS && c.message.header != INTERNAL_PL_LOST
  {
    assert INTERNAL_PL_LOST !in FORMATS;
  }

  /** No packet can pass for the server's own notice: every client command in the pipeline has a header of the map. */
  lemma {:induction false} NoForgedNotice(events: seq<Event>, c: Command)
    requires Run(events).Some? && c in Run(events).value.pushed && c.FromClient?
    ensures c.message.header in FORMATS && c.message.header != INTERNAL_PL_LOST
  {
    hide Decoded;
    var before := Run(events[..|events| - 1]).value;
    if c in before.pushed {
      NoForgedNotice(events[..|events| - 1], c);
    } else {
      DecodedHeaderIsKnown(before.packetThread.item, c);
    }
  }
}
