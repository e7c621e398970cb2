/** The receiving, packet and command threads over their two queues. */
module Threads {
  import opened Wire
  import opened Serializers
  import opened ConcurrentQueues
  import opened Pipelines

  class Server {
    const packetQueue: ConcurrentQueue<Packet>
    const commandQueue: ConcurrentQueue<Command>
    var packetThread: Consumer<Packet>
    var commandThread: Consumer<Command>
    var unreadable: map<int, nat>
    ghost var received: seq<Packet>
    ghost var pushed: seq<Command>
    ghost var handled: seq<Command>

    ghost function Abs(): State
      reads this, packetQueue, commandQueue
    {
      State(received, packetQueue.queue, packetThread, pushed, commandQueue.queue, commandThread, handled, false)
    }

    constructor ()
      ensures Abs() == START && fresh(packetQueue) && fresh(commandQueue)
    {
      packetQueue := new ConcurrentQueue<Packet>();
      commandQueue := new ConcurrentQueue<Command>();
      packetThread := Looking;
      commandThread := Looking;
      unreadable := map[];
      received, pushed, handled := [], [], [];
    }

    /** Receiving thread: one read of a socket is one packet. */
    method ProcessData(data: seq<byte>, socket: int)
      requires Whole(data)
      modifies this`received, packetQueue
      ensures Abs() == Step(old(Abs()), Receive(Packet(socket, data)))
    {
      var packet := Packet(socket, data);
      packetQueue.Push(packet);
      received := received + [packet];
    }

    /** Packet thread, loop head. */
    method PacketManagerLooks()
      requires packetThread.Looking?
      modifies this`packetThread
      ensures Abs() == Step(old(Abs()), PacketLook)
    {
      var empty := packetQueue.Empty();
      packetThread := if empty then Looking else Saw;
    }

    /** Packet thread, after having seen a non-empty queue: no other thread has emptied it since. */
    method PacketManagerPops()
      requires packetThread.Saw? && Inv(Abs())
      modifies this`packetThread, packetQueue
      ensures Abs() == Step(old(Abs()), PacketPop)
    {
      var packet := packetQueue.Pop();
      packetThread := Holding(packet);
    }

    /** Packet thread, with a packet in hand: a command for the other thread, or one more unreadable packet. */
    method PacketManagerForwards()
      requires packetThread.Holding? && Inv(Abs())
      modifies this`packetThread, this`unreadable, this`pushed, commandQueue
      ensures Abs() == Step(old(Abs()), PacketForward)
      ensures
        var socket := old(packetThread.item.socket);
        var before := if socket in old(unreadable) then old(unreadable)[socket] else 0;
        unreadable ==
          if old(Decoded(packetThread.item)) == [] then old(unreadable)[socket := before + 1] else old(unreadable)
    {
      hide Whole, Decode, Client, DecodeAll;
      var packet := packetThread.item;
      assert packet in Held(packetThread) + packetQueue.queue;
      var buffer := new byte[|packet.data|](k requires 0 <= k < |packet.data| => packet.data[k]);
      assert buffer[..] == packet.data;
      var mess := Deserialize(buffer);
      if mess.Some? {
        commandQueue.Push(FromClient(packet.socket, mess.value));
        pushed := pushed + [FromClient(packet.socket, mess.value)];
      } else {
        var before := if packet.socket in unreadable then unreadable[packet.socket] else 0;
        unreadable := unreadable[packet.socket := before + 1];
      }
      packetThread := Looking;
    }

    /** Any thread that finds the connection of a player in a game gone. */
    method RegisterLoss(player: int)
      modifies this`pushed, commandQueue
      ensures Abs() == Step(old(Abs()), Lose(player))
    {
      commandQueue.Push(PlayerLost(player));
      pushed := pushed + [PlayerLost(player)];
    }

    /** Command thread, loop head. */
    method CommandManagerLooks()
      requires commandThread.Looking?
      modifies this`commandThread
      ensures Abs() == Step(old(Abs()), CommandLook)
    {
      var empty := commandQueue.Empty();
      commandThread := if empty then Looking else Saw;
    }

    /** Command thread, after having seen a non-empty queue. */
    method CommandManagerPops()
      requires commandThread.Saw? && Inv(Abs())
      modifies this`commandThread, commandQueue
      ensures Abs() == Step(old(Abs()), CommandPop)
    {
      var actualCommand := commandQueue.Pop();
      commandThread := Holding(actualCommand);
    }

    /** Command thread, when the handler of the command has returned. */
    method CommandManagerIsDone()
      requires commandThread.Holding?
      modifies this`commandThread, this`handled
      ensures Abs() == Step(old(Abs()), CommandHandle)
    {
      handled := handled + [commandThread.item];
      commandThread := Looking;
    }
  }
}
