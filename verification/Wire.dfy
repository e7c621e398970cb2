/** Bytes, numbers and messages of the server's packets. */
module Wire {
  import opened Wrappers

  type byte = b: int | 0 <= b < 0x100
  type uint32 = n: int | 0 <= n < 0x1_0000_0000

  const MAX_INT: int := 0x7FFF_FFFF

  /** The bytes of a text; its length fits an int. */
  type Bytes = b: seq<byte> | |b| <= MAX_INT

  /** An entry of a message: a number, or a text as its bytes. */
  datatype Item = Number(value: uint32) | Chars(bytes: Bytes)

  datatype Message = Message(header: uint32, format: string, payload: seq<Item>)

  const MSG_MIN_SIZE := 9
  const MSG_HEAD_SIZE := 4
  const MSG_SIZE_SIZE := 4
  const MSG_CHECKSUM_SIZE := 1
  const MSG_STRING_LEN_SIZE := 4
  /** Where the payload starts. */
  const BODY := MSG_HEAD_SIZE + MSG_SIZE_SIZE

  const H_C_NACK: uint32 := 0x00000000
  const H_C_ACK: uint32 := 0x00000001
  const H_C_PING: uint32 := 0x00000002
  const H_C_NEW_PL: uint32 := 0x00000003
  const H_C_PL_RECONN: uint32 := 0x00000004
  const H_C_PL_LOGOUT: uint32 := 0x00000005
  const H_C_PL_LIST_REQ: uint32 := 0x00000006
  const H_C_JOIN_PLAYER: uint32 := 0x00000009
  const H_C_DECLIN_JOIN: uint32 := 0x0000000B
  const H_C_ACCEPT_JOIN: uint32 := 0x0000000C
  const H_C_GAME_MOVE: uint32 := 0x0000000E
  const H_S_NACK: uint32 := 0x00010000
  const H_S_ACK: uint32 := 0x00010001
  const H_S_PING: uint32 := 0x00010002
  const H_S_PL_LIST_ANS: uint32 := 0x00010007
  const H_S_NACK_REAS: uint32 := 0x00010008
  const H_S_JOIN_PLAYER: uint32 := 0x0001000A
  const H_S_GAME_START: uint32 := 0x0001000D
  const H_S_GAME_MOVE: uint32 := 0x0001000F
  const H_S_GAME_WON: uint32 := 0x00010010
  const H_S_GAME_ENDED: uint32 := 0x00010011
  const H_S_PL_LOSS: uint32 := 0x00010012
  const H_S_GAME_CON: uint32 := 0x00010013
  /** Made by the server itself when a connection in a game is gone; no packet carries it. */
  const INTERNAL_PL_LOST: uint32 := 0x00011111

  /** The payload format of every header: 'i' a number, 's' a text. */
  const FORMATS: map<uint32, string> := map[
    H_C_NACK := "", H_C_ACK := "", H_C_PING := "",
    H_S_NACK := "", H_S_ACK := "", H_S_PING := "",
    H_C_NEW_PL := "s", H_C_PL_RECONN := "s", H_C_PL_LOGOUT := "",
    H_C_PL_LIST_REQ := "", H_S_PL_LIST_ANS := "is",
    H_S_NACK_REAS := "s",
    H_C_JOIN_PLAYER := "s", H_S_JOIN_PLAYER := "s",
    H_C_DECLIN_JOIN := "", H_C_ACCEPT_JOIN := "",
    H_S_GAME_START := "ss",
    H_C_GAME_MOVE := "iii", H_S_GAME_MOVE := "iii",
    H_S_GAME_WON := "siii",
    H_S_GAME_ENDED := "",
    H_S_PL_LOSS := "",
    H_S_GAME_CON := "sss"]

  /** The format of each header, by its number. */
  function FormatNumbered(h: uint32): Option<string> {
    if h == 0x00000 || h == 0x00001 || h == 0x00002 then Some("")
    else if h == 0x10000 || h == 0x10001 || h == 0x10002 then Some("")
    else if h == 0x00003 || h == 0x00004 || h == 0x00009 then Some("s")
    else if h == 0x00005 || h == 0x00006 || h == 0x0000B || h == 0x0000C then Some("")
    else if h == 0x0000E || h == 0x1000F then Some("iii")
    else if h == 0x10007 then Some("is")
    else if h == 0x10008 || h == 0x1000A then Some("s")
    else if h == 0x1000D then Some("ss")
    else if h == 0x10010 then Some("siii")
    else if h == 0x10011 || h == 0x10012 then Some("")
    else if h == 0x10013 then Some("sss")
    else None
  }

  /** The map has these headers with these formats and no others. */
  lemma FormatsByNumber(h: uint32)
    ensures (if h in FORMATS then Some(FORMATS[h]) else None) == FormatNumbered(h)
  {
  }
}
