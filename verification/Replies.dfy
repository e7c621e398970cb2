/** What the server's answers look like on the wire. */
module Replies {
  import opened Wrappers
  import opened Wire
  import opened Serializers
  import opened Lobby

  /** The characters of a text are bytes. */
  predicate IsByteText(t: string) {
    |t| <= MAX_INT && forall k :: 0 <= k < |t| ==> t[k] as int < 0x100
  }

  function BytesOf(t: string): (b: Bytes)
    requires IsByteText(t)
    ensures |b| == |t| && forall k :: 0 <= k < |t| ==> b[k] == t[k] as int
  {
    seq(|t|, k requires 0 <= k < |t| => t[k] as int)
  }

  function TextOf(b: Bytes): (t: string)
    ensures IsByteText(t) && BytesOf(t) == b
    ensures |t| == |b| && forall k :: 0 <= k < |b| ==> t[k] as int == b[k]
  {
    seq(|b|, k requires 0 <= k < |b| => b[k] as char)
  }

  lemma TextReadsBack(t: string)
    requires IsByteText(t)
    ensures TextOf(BytesOf(t)) == t
  {
    assert |TextOf(BytesOf(t))| == |t|;
  }

  /** The texts of a reply, in the order they are written. */
  function TextsOf(r: Reply): seq<string> {
    match r
    case NackReason(reason) => [reason]
    case PlayerList(_, names) => [names]
    case JoinRequest(asking) => [asking]
    case GameStart(first, opponent) => [first, opponent]
    case GameWon(winner, _, _, _) => [winner]
    case GameContinues(onTurn, opponent, board) => [onTurn, opponent, board]
    case _ => []
  }

  function NumbersOf(r: Reply): seq<int> {
    match r
    case PlayerList(count, _) => [count]
    case GameMove(card, i, j) => [card, i, j]
    case GameWon(_, card, i, j) => [card, i, j]
    case _ => []
  }

  /** Texts of bytes and numbers of 32 bits. */
  predicate HasBytes(r: Reply) {
    && (forall t :: t in TextsOf(r) ==> IsByteText(t))
    && (forall n :: n in NumbersOf(r) ==> 0 <= n < 0x1_0000_0000)
  }

  function HeaderOf(r: Reply): uint32 {
    match r
    case Ack => H_S_ACK
    case Nack => H_S_NACK
    case NackReason(_) => H_S_NACK_REAS
    case PlayerList(_, _) => H_S_PL_LIST_ANS
    case JoinRequest(_) => H_S_JOIN_PLAYER
    case GameStart(_, _) => H_S_GAME_START
    case GameMove(_, _, _) => H_S_GAME_MOVE
    case GameWon(_, _, _, _) => H_S_GAME_WON
    case GameEnded => H_S_GAME_ENDED
    case PlayerLoss => H_S_PL_LOSS
    case GameContinues(_, _, _) => H_S_GAME_CON
  }

  function EntriesOf(r: Reply): seq<Item>
    requires HasBytes(r)
  {
    match r
    case NackReason(reason) => [TextItem(r, 0)]
    case PlayerList(count, _) => [NumberItem(r, 0), TextItem(r, 0)]
    case JoinRequest(_) => [TextItem(r, 0)]
    case GameStart(_, _) => [TextItem(r, 0), TextItem(r, 1)]
    case GameMove(_, _, _) => [NumberItem(r, 0), NumberItem(r, 1), NumberItem(r, 2)]
    case GameWon(_, _, _, _) => [TextItem(r, 0), NumberItem(r, 0), NumberItem(r, 1), NumberItem(r, 2)]
    case GameContinues(_, _, _) => [TextItem(r, 0), TextItem(r, 1), TextItem(r, 2)]
    case _ => []
  }

  function TextItem(r: Reply, k: nat): Item
    requires HasBytes(r) && k < |TextsOf(r)|
  {
    Chars(BytesOf(TextsOf(r)[k]))
  }

  function NumberItem(r: Reply, k: nat): Item
    requires HasBytes(r) && k < |NumbersOf(r)|
  {
    assert NumbersOf(r)[k] in NumbersOf(r);
    Number(NumbersOf(r)[k])
  }

  /** The message a handler makes of a reply: header, the format the map has for it, and the entries. */
  function MessageOf(r: Reply): Message
    requires HasBytes(r)
  {
    Message(HeaderOf(r), FORMATS[HeaderOf(r)], EntriesOf(r))
  }

  /** The reply a client reads from a message. */
  function ReplyOf(m: Message): Reply {
    var p := m.payload;
    if m.header == H_S_ACK then Ack
    else if m.header == H_S_NACK_REAS && Fits("s", p) then NackReason(TextOf(p[0].bytes))
    else if m.header == H_S_PL_LIST_ANS && Fits("is", p) then PlayerList(p[0].value, TextOf(p[1].bytes))
    else if m.header == H_S_JOIN_PLAYER && Fits("s", p) then JoinRequest(TextOf(p[0].bytes))
    else if m.header == H_S_GAME_START && Fits("ss", p) then GameStart(TextOf(p[0].bytes), TextOf(p[1].bytes))
    else if m.header == H_S_GAME_MOVE && Fits("iii", p) then GameMove(p[0].value, p[1].value, p[2].value)
    else if m.header == H_S_GAME_WON && Fits("siii", p) then
      GameWon(TextOf(p[0].bytes), p[1].value, p[2].value, p[3].value)
    else if m.header == H_S_GAME_ENDED then GameEnded
    else if m.header == H_S_PL_LOSS then PlayerLoss
    else if m.header == H_S_GAME_CON && Fits("sss", p) then
      GameContinues(TextOf(p[0].bytes), TextOf(p[1].bytes), TextOf(p[2].bytes))
    else Nack
  }

  lemma EntriesFit(r: Reply)
    requires HasBytes(r)
    ensures HeaderOf(r) in FORMATS && Fits(FORMATS[HeaderOf(r)], EntriesOf(r))
  {
  }

  lemma ReplyReadsBack(r: Reply)
    requires HasBytes(r)
    ensures ReplyOf(MessageOf(r)) == r
  {
    EntriesFit(r);
    forall t | t in TextsOf(r) ensures TextOf(BytesOf(t)) == t { TextReadsBack(t); }
    hide BytesOf, TextOf, IsByteText;
  }

  /** Every reply whose packet is not too long is sent as a packet from which exactly that reply is read. */
  lemma ReplyArrives(r: Reply, trailing: seq<byte>)
    requires HasBytes(r) && MSG_MIN_SIZE + |EncodePayload(EntriesOf(r))| + |trailing| <= MAX_INT
    ensures
      var packet := Packet(HeaderOf(r), EntriesOf(r)) + trailing;
      Whole(packet) && Decode(packet) == Some(MessageOf(r)) && ReplyOf(MessageOf(r)) == r
  {
    EntriesFit(r);
    ReplyReadsBack(r);
    hide HeaderOf, EntriesOf, ReplyOf, HasBytes, EncodePayload, Sum, Encode32, Whole, Decode;
    RoundTrip(MessageOf(r), trailing);
  }

  /** The messages by number, format and entries: what a client has to expect for each reply. */
  lemma PlainRepliesByNumber()
    ensures MessageOf(Ack) == Message(0x10001, "", [])
    ensures MessageOf(Nack) == Message(0x10000, "", [])
    ensures MessageOf(GameEnded) == Message(0x10011, "", [])
    ensures MessageOf(PlayerLoss) == Message(0x10012, "", [])
  {
  }

  lemma LobbyRepliesByNumber(text: string, count: uint32)
    requires IsByteText(text)
    ensures MessageOf(NackReason(text)) == Message(0x10008, "s", [Chars(BytesOf(text))])
    ensures MessageOf(PlayerList(count, text)) == Message(0x10007, "is", [Number(count), Chars(BytesOf(text))])
    ensures MessageOf(JoinRequest(text)) == Message(0x1000A, "s", [Chars(BytesOf(text))])
  {
    hide BytesOf, IsByteText;
  }

  /** Who begins and then who the opponent is; the player on turn, the opponent and then the board; the winner and then
      tile, row and column. */
  lemma GameRepliesByNumber(a: string, b: string, board: string, card: uint32, i: uint32, j: uint32)
    requires IsByteText(a) && IsByteText(b) && IsByteText(board)
    ensures MessageOf(GameStart(a, b)) == Message(0x1000D, "ss", [Chars(BytesOf(a)), Chars(BytesOf(b))])
    ensures MessageOf(GameMove(card, i, j)) == Message(0x1000F, "iii", [Number(card), Number(i), Number(j)])
    ensures MessageOf(GameWon(a, card, i, j))
         == Message(0x10010, "siii", [Chars(BytesOf(a)), Number(card), Number(i), Number(j)])
    ensures MessageOf(GameContinues(a, b, board))
         == Message(0x10013, "sss", [Chars(BytesOf(a)), Chars(BytesOf(b)), Chars(BytesOf(board))])
  {
    hide BytesOf, IsByteText;
  }
}
