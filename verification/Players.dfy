/** A player's connection and standing, as the server keeps them. */
module Players {

  /** Where an object lives. Values that hold a pointer hold the address instead. */
  type Address = int

  const NULL: Address := 0

  const NO_SOCKET := -1

  class Player {
    const address: Address
    var name: string
    var nameSet: bool
    var socket: int
    var socketSet: bool
    var inGame: bool
    var availible: bool
    var joiningPlayer: Player?
    var askedForJoiningBy: Player?
    var lost: bool
    var bullshitMessages: nat

    constructor (address: Address, socket: int)
      ensures this.address == address && Record() == FreshRecord(socket)
      ensures joiningPlayer == null && askedForJoiningBy == null
    {
      this.address := address;
      this.socket := socket;
      this.socketSet := true;
      this.name := "";
      this.nameSet := false;
      this.inGame := false;
      this.availible := false;
      this.joiningPlayer := null;
      this.askedForJoiningBy := null;
      this.lost := false;
      this.bullshitMessages := 0;
    }

    function Record(): PlayerRecord
      reads this
    {
      PlayerRecord(name, nameSet, socket, socketSet, inGame, availible, AddressOf(joiningPlayer),
                   AddressOf(askedForJoiningBy), lost, bullshitMessages)
    }

    method SetName(newName: string)
      modifies this`name, this`nameSet
      ensures Record() == old(Record()).(name := newName, nameSet := true)
    {
      name := newName;
      nameSet := true;
    }

    method RemoveSocket()
      modifies this`socket, this`socketSet
      ensures Record() == old(Record()).(socket := NO_SOCKET, socketSet := false)
    {
      socket := NO_SOCKET;
      socketSet := false;
    }
  }

  function AddressOf(p: Player?): Address {
    if p == null then NULL else p.address
  }

  /** The fields of a player as a value. */
  datatype PlayerRecord = PlayerRecord(
    name: string, nameSet: bool, socket: int, socketSet: bool, inGame: bool, availible: bool,
    joining: Address, askedBy: Address, lost: bool, bullshit: nat)

  function FreshRecord(socket: int): PlayerRecord {
    PlayerRecord("", false, socket, true, false, false, NULL, NULL, false, 0)
  }
}
