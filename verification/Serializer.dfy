/** Packets: writing a message into a byte buffer and reading it back. */
module Serializers {
  import opened Wrappers
  import opened Wire

  // ---------- numbers ----------

  /** The four bytes of a number, most significant first. */
  function Encode32(n: uint32): (b: seq<byte>)
    ensures |b| == 4
  {
    [n / 0x100_0000, n / 0x1_0000 % 0x100, n / 0x100 % 0x100, n % 0x100]
  }

  /** The number four bytes stand for. */
  function Decode32(b: seq<byte>): uint32
    requires |b| == 4
  {
    b[0] as int * 0x100_0000 + b[1] as int * 0x1_0000 + b[2] as int * 0x100 + b[3]
  }

  lemma NumberRoundTrip(n: uint32)
    ensures Decode32(Encode32(n)) == n
  {
    var q := n / 0x100;
    assert n / 0x1_0000 == q / 0x100 && n / 0x100_0000 == q / 0x100 / 0x100;
    assert q == q / 0x100 * 0x100 + q % 0x100;
    assert q / 0x100 == q / 0x100 / 0x100 * 0x100 + q / 0x100 % 0x100;
  }

  /** A number is the sum of its four bytes by their places, the first of them the highest. */
  lemma BytesByPlace(n: uint32)
    ensures
      var b := Encode32(n);
      n == b[0] as int * 0x100_0000 + b[1] as int * 0x1_0000 + b[2] as int * 0x100 + b[3] as int
  {
    NumberRoundTrip(n);
  }

  // ---------- payloads ----------

  /** The entry is of the kind the letter names. */
  predicate Is(letter: char, item: Item) {
    (letter == 'i' && item.Number?) || (letter == 's' && item.Chars?)
  }

  /** The payload entries are of the kinds the format names, one entry a letter. */
  predicate Fits(format: string, payload: seq<Item>) {
    |payload| == |format| && forall k :: 0 <= k < |format| ==> Is(format[k], payload[k])
  }

  function EncodeItem(item: Item): seq<byte> {
    match item
    case Number(n) => Encode32(n)
    case Chars(b) => Encode32(|b|) + b
  }

  function EncodePayload(payload: seq<Item>): seq<byte> {
    if payload == [] then []
    else EncodePayload(payload[..|payload| - 1]) + EncodeItem(payload[|payload| - 1])
  }

  function Sum(b: seq<byte>): nat {
    if b == [] then 0 else Sum(b[..|b| - 1]) + b[|b| - 1]
  }

  /** The payload fits the format, and the total size is an int. */
  ghost predicate Writable(m: Message) {
    Fits(m.format, m.payload) && MSG_MIN_SIZE + |EncodePayload(m.payload)| <= MAX_INT
  }

  /** A message to be written whose format is the one its header stands for. */
  ghost predicate WellFormed(m: Message) {
    Writable(m) && m.header in FORMATS && m.format == FORMATS[m.header]
  }

  /** A packet: header, total size, payload, and the sum of all bytes before it modulo 128. */
  function Packet(header: uint32, payload: seq<Item>): seq<byte>
    requires MSG_MIN_SIZE + |EncodePayload(payload)| <= MAX_INT
  {
    var body := EncodePayload(payload);
    var front := Encode32(header) + Encode32(MSG_MIN_SIZE + |body|) + body;
    front + [Sum(front) % 128]
  }

  /** What is in a packet, place by place: the header, the number of all its bytes, the payload, and in the last byte
      the sum of all bytes before it modulo 128. */
  ghost predicate IsLaidOut(packet: seq<byte>, header: uint32, payload: seq<Item>) {
    && |packet| == 9 + |EncodePayload(payload)| <= MAX_INT
    && packet[..4] == Encode32(header)
    && packet[4..8] == Encode32(|packet|)
    && packet[8..|packet| - 1] == EncodePayload(payload)
    && packet[|packet| - 1] == Sum(packet[..|packet| - 1]) % 128
  }

  lemma PacketIsLaidOut(header: uint32, payload: seq<Item>)
    requires MSG_MIN_SIZE + |EncodePayload(payload)| <= MAX_INT
    ensures IsLaidOut(Packet(header, payload), header, payload)
  {
    hide Encode32, EncodePayload, Sum;
    var body := EncodePayload(payload);
    var front := Encode32(header) + Encode32(MSG_MIN_SIZE + |body|) + body;
    assert Packet(header, payload)[..|front|] == front;
  }

  /** A sum does not depend on the order in which it is added up. */
  lemma {:induction false} SumConcat(a: seq<byte>, b: seq<byte>)
    ensures Sum(a + b) == Sum(a) + Sum(b)
  {
    if b == [] {
      assert a + b == a;
    } else {
      SumConcat(a, b[..|b| - 1]);
      assert (a + b)[..|a + b| - 1] == a + b[..|b| - 1];
    }
  }

  lemma SumOfFour(b0: byte, b1: byte, b2: byte, b3: byte)
    ensures Sum([b0, b1, b2, b3]) == b0 as int + b1 as int + b2 as int + b3 as int
  {
    hide Sum;
    var b := [b0, b1, b2, b3];
    EmptySum();
    SumOneMore(b, 0);
    SumOneMore(b, 1);
    SumOneMore(b, 2);
    SumOneMore(b, 3);
    assert b[..0] == [] && b[..4] == b;
  }

  lemma SumOfTwo(b0: byte, b1: byte)
    ensures Sum([b0, b1]) == b0 as int + b1 as int
  {
    hide Sum;
    var b := [b0, b1];
    EmptySum();
    SumOneMore(b, 0);
    SumOneMore(b, 1);
    assert b[..0] == [] && b[..2] == b;
  }

  /** A packet from its parts. */
  lemma PacketFrom(header: uint32, payload: seq<Item>, front: seq<byte>)
    requires MSG_MIN_SIZE + |EncodePayload(payload)| <= MAX_INT
    requires front == Encode32(header) + Encode32(MSG_MIN_SIZE + |EncodePayload(payload)|) + EncodePayload(payload)
    ensures Packet(header, payload) == front + [Sum(front) % 128]
  {
  }

  lemma SmallNumber(n: uint32)
    requires n < 0x100
    ensures Encode32(n) == [0, 0, 0, n]
  {
  }

  /** The acknowledgement, byte by byte. */
  lemma AckPacket()
    ensures EncodePayload([]) == [] && Packet(0x0001_0001, []) == [0, 1, 0, 1, 0, 0, 0, 9, 11]
  {
    EncodeNothing();
    assert Encode32(0x0001_0001) == [0, 1, 0, 1];
    SmallNumber(9);
    hide Encode32, EncodePayload, Packet, Sum;
    PacketFrom(0x0001_0001, [], [0, 1, 0, 1] + [0, 0, 0, 9]);
    SumConcat([0, 1, 0, 1], [0, 0, 0, 9]);
    SumOfFour(0, 1, 0, 1);
    SumOfFour(0, 0, 0, 9);
  }

  /** A number is its four bytes; a text is its length in four bytes and then its bytes; entries follow each other. */
  lemma EntriesByteByByte(rest: seq<Item>, n: uint32, text: Bytes)
    ensures EncodePayload([]) == []
    ensures EncodePayload(rest + [Number(n)]) == EncodePayload(rest) + Encode32(n)
    ensures EncodePayload(rest + [Chars(text)]) == EncodePayload(rest) + Encode32(|text|) + text
  {
    EncodeNothing();
    EncodeOneMore(rest, Number(n));
    EncodeOneMore(rest, Chars(text));
  }

  /** A number and a text of two bytes, as in a list answer. */
  lemma ListPayload()
    ensures EncodePayload([Number(1), Chars([97, 98])]) == [0, 0, 0, 1] + [0, 0, 0, 2] + [97, 98]
  {
    SmallNumber(1);
    SmallNumber(2);
    hide Encode32, EncodePayload;
    EntriesByteByByte([], 1, []);
    EntriesByteByByte([Number(1)], 0, [97, 98]);
    assert [] + [Number(1)] == [Number(1)] && [Number(1)] + [Chars([97, 98])] == [Number(1), Chars([97, 98])];
  }

  lemma ListSum()
    ensures Sum([0, 1, 0, 7] + [0, 0, 0, 19] + ([0, 0, 0, 1] + [0, 0, 0, 2] + [97, 98])) == 225
  {
    hide Sum;
    SumConcat([0, 1, 0, 7] + [0, 0, 0, 19], [0, 0, 0, 1] + [0, 0, 0, 2] + [97, 98]);
    SumConcat([0, 0, 0, 1] + [0, 0, 0, 2], [97, 98]);
    SumConcat([0, 1, 0, 7], [0, 0, 0, 19]);
    SumConcat([0, 0, 0, 1], [0, 0, 0, 2]);
    SumOfFour(0, 1, 0, 7);
    SumOfFour(0, 0, 0, 19);
    SumOfFour(0, 0, 0, 1);
    SumOfFour(0, 0, 0, 2);
    SumOfTwo(97, 98);
  }

  /** A list answer with one player "ab", byte by byte: header, 19 bytes, the count, the length of the text, the text,
      and the checksum, which is 225 less 128. */
  lemma ListPacket()
    ensures Packet(0x0001_0007, [Number(1), Chars([97, 98])])
         == [0, 1, 0, 7] + [0, 0, 0, 19] + ([0, 0, 0, 1] + [0, 0, 0, 2] + [97, 98]) + [97]
  {
    assert Encode32(0x0001_0007) == [0, 1, 0, 7];
    SmallNumber(19);
    hide Encode32, EncodePayload, Packet, Sum;
    ListPayload();
    ListSum();
    PacketFrom(0x0001_0007, [Number(1), Chars([97, 98])],
               [0, 1, 0, 7] + [0, 0, 0, 19] + ([0, 0, 0, 1] + [0, 0, 0, 2] + [97, 98]));
  }

  // ---------- reading ----------

  /** The entry the letter announces at an index of the data, none if it does not lie within the data. */
  function ReadItem(letter: char, data: seq<byte>, at: nat): (r: Option<Item>)
    requires |data| <= MAX_INT
  {
    if at + 4 > |data| then None
    else
      var number := Decode32(data[at..at + 4]);
      if letter == 'i' then Some(Number(number))
      else if at + 4 + number > |data| then None
      else Some(Chars(data[at + 4..at + 4 + number]))
  }

  function Width(item: Item): nat {
    match item
    case Number(_) => 4
    case Chars(b) => 4 + |b|
  }

  /** Entries read, and the index of the byte after them. */
  datatype Progress = Progress(payload: seq<Item>, index: nat)

  /** The first `n` entries of a packet's payload; none if they do not all lie within the data. */
  function ReadPayload(format: string, n: nat, data: seq<byte>): (r: Option<Progress>)
    requires n <= |format| && |data| <= MAX_INT
  {
    if n == 0 then Some(Progress([], BODY))
    else
      var before := ReadPayload(format, n - 1, data);
      if before.None? then None
      else
        var item := ReadItem(format[n - 1], data, before.value.index);
        if item.None? then None
        else Some(Progress(before.value.payload + [item.value], before.value.index + Width(item.value)))
  }

  /** A whole packet arrived: as many bytes as its header and its lengths announce. */
  predicate Whole(data: seq<byte>) {
    && BODY <= |data| <= MAX_INT
    && var header := Decode32(data[..4]);
       header in FORMATS ==> ReadPayload(FORMATS[header], |FORMATS[header]|, data).Some?
  }

  /** The message in a whole packet, none if its header is unknown. */
  function Decode(data: seq<byte>): Option<Message>
    requires Whole(data)
  {
    var header := Decode32(data[..4]);
    if header !in FORMATS then None
    else
      var format := FORMATS[header];
      Some(Message(header, format, ReadPayload(format, |format|, data).value.payload))
  }

  predicate LettersOnly(format: string) {
    forall k :: 0 <= k < |format| ==> format[k] == 'i' || format[k] == 's'
  }

  lemma FormatsAreLetters(header: uint32)
    requires header in FORMATS
    ensures LettersOnly(FORMATS[header])
  {
  }

  lemma EncodeNothing()
    ensures EncodePayload([]) == []
  {
  }

  lemma EncodeOneMore(payload: seq<Item>, item: Item)
    ensures EncodePayload(payload + [item]) == EncodePayload(payload) + EncodeItem(item)
  {
    assert (payload + [item])[..|payload|] == payload;
  }

  lemma Encode32OfDecode(b: seq<byte>)
    requires |b| == 4
    ensures Encode32(Decode32(b)) == b
  {
    var b0: int, b1: int, b2: int, b3: int := b[0], b[1], b[2], b[3];
    var n: int := Decode32(b);
    var high := b0 * 0x100 + b1;
    assert n == (high * 0x100 + b2) * 0x100 + b3;
    assert n / 0x100 == high * 0x100 + b2 && n % 0x100 == b3;
    assert n / 0x1_0000 == n / 0x100 / 0x100 == high;
    assert n / 0x100_0000 == high / 0x100 == b0;
  }

  /** An entry that was read is of the kind its letter names and encodes to the bytes it was read from. */
  lemma ItemReadIsEncoded(letter: char, data: seq<byte>, at: nat)
    requires |data| <= MAX_INT && (letter == 'i' || letter == 's') && ReadItem(letter, data, at).Some?
    ensures
      var item := ReadItem(letter, data, at).value;
      && Is(letter, item) && at + Width(item) <= |data|
      && EncodeItem(item) == data[at..at + Width(item)]
  {
    var item := ReadItem(letter, data, at).value;
    Encode32OfDecode(data[at..at + 4]);
    if letter == 's' {
      assert data[at..at + 4] + data[at + 4..at + Width(item)] == data[at..at + Width(item)];
    }
  }

  /** An encoded entry reads back. */
  lemma EncodedItemReadsBack(letter: char, item: Item, data: seq<byte>, at: nat)
    requires Is(letter, item) && at + Width(item) <= |data| <= MAX_INT
    requires data[at..at + Width(item)] == EncodeItem(item)
    ensures ReadItem(letter, data, at) == Some(item)
  {
    var number := if item.Number? then item.value else |item.bytes|;
    assert data[at..at + 4] == data[at..at + Width(item)][..4] == Encode32(number);
    NumberRoundTrip(number);
    if item.Chars? {
      assert data[at + 4..at + Width(item)] == data[at..at + Width(item)][4..] == item.bytes;
    }
  }

  /** What has been read of a payload fits the format and encodes to the bytes that were read. */
  lemma {:induction false} ReadIsEncoded(format: string, n: nat, data: seq<byte>)
    requires n <= |format| && LettersOnly(format) && BODY <= |data| <= MAX_INT
    requires ReadPayload(format, n, data).Some?
    ensures
      var r := ReadPayload(format, n, data).value;
      && BODY <= r.index <= |data| && Fits(format[..n], r.payload)
      && EncodePayload(r.payload) == data[BODY..r.index]
  {
    hide ReadItem, EncodeItem, EncodePayload;
    EncodeNothing();
    if n > 0 {
      ReadIsEncoded(format, n - 1, data);
      var before := ReadPayload(format, n - 1, data).value;
      ItemReadIsEncoded(format[n - 1], data, before.index);
      var item := ReadItem(format[n - 1], data, before.index).value;
      EncodeOneMore(before.payload, item);
      assert data[BODY..before.index] + data[before.index..before.index + Width(item)]
          == data[BODY..before.index + Width(item)];
    }
  }

  lemma WidthIsLength(item: Item)
    ensures |EncodeItem(item)| == Width(item)
  {
  }

  /** Bytes that start with an encoded payload read back as that payload. */
  lemma {:induction false} EncodedReadsBack(format: string, payload: seq<Item>, n: nat, data: seq<byte>)
    requires Fits(format, payload) && n <= |payload|
    requires BODY + |EncodePayload(payload[..n])| <= |data| <= MAX_INT
    requires data[BODY..BODY + |EncodePayload(payload[..n])|] == EncodePayload(payload[..n])
    ensures ReadPayload(format, n, data) == Some(Progress(payload[..n], BODY + |EncodePayload(payload[..n])|))
  {
    hide ReadItem, EncodeItem, EncodePayload;
    if n == 0 {
      EncodeNothing();
      assert payload[..0] == [];
    } else {
      var before, item := payload[..n - 1], payload[n - 1];
      assert payload[..n] == before + [item];
      EncodeOneMore(before, item);
      WidthIsLength(item);
      var at := BODY + |EncodePayload(before)|;
      var end := at + Width(item);
      assert data[BODY..at] == data[BODY..end][..at - BODY] == EncodePayload(before);
      assert data[at..end] == data[BODY..end][at - BODY..] == EncodeItem(item);
      EncodedReadsBack(format, payload, n - 1, data);
      EncodedItemReadsBack(format[n - 1], item, data, at);
    }
  }

  /** Reading looks at nothing but the header and the payload: whatever stands for the size, and whatever follows
      the payload in place of the checksum, the message is read. */
  lemma SizeAndChecksumAreNotRead(m: Message, size: seq<byte>, rest: seq<byte>)
    requires WellFormed(m) && |size| == MSG_SIZE_SIZE
    requires |Encode32(m.header) + size + EncodePayload(m.payload) + rest| <= MAX_INT
    ensures
      var data := Encode32(m.header) + size + EncodePayload(m.payload) + rest;
      Whole(data) && Decode(data) == Some(m)
  {
    hide Encode32, Decode32, EncodePayload, ReadPayload;
    var body := EncodePayload(m.payload);
    var data := Encode32(m.header) + size + body + rest;
    assert m.payload[..|m.payload|] == m.payload;
    assert data[BODY..BODY + |body|] == body;
    assert data[..4] == Encode32(m.header);
    NumberRoundTrip(m.header);
    EncodedReadsBack(m.format, m.payload, |m.payload|, data);
  }

  /** Reading a written packet, whatever bytes follow it, gives the message back. */
  lemma RoundTrip(m: Message, trailing: seq<byte>)
    requires WellFormed(m) && |Packet(m.header, m.payload) + trailing| <= MAX_INT
    ensures Whole(Packet(m.header, m.payload) + trailing)
    ensures Decode(Packet(m.header, m.payload) + trailing) == Some(m)
  {
    hide Encode32, EncodePayload, Sum, Whole, Decode;
    var body := EncodePayload(m.payload);
    var size := Encode32(MSG_MIN_SIZE + |body|);
    var front := Encode32(m.header) + size + body;
    assert Packet(m.header, m.payload) + trailing == front + ([Sum(front) % 128] + trailing);
    SizeAndChecksumAreNotRead(m, size, [Sum(front) % 128] + trailing);
  }

  /** A message that was read can be written again, and the payload bytes are those it was read from. */
  lemma DecodedIsEncodable(data: seq<byte>)
    requires Whole(data) && Decode(data).Some?
    ensures
      var m := Decode(data).value;
      && m.header == Decode32(data[..4]) && m.header in FORMATS && m.format == FORMATS[m.header]
      && Fits(m.format, m.payload)
      && EncodePayload(m.payload) <= data[BODY..]
  {
    var m := Decode(data).value;
    FormatsAreLetters(m.header);
    ReadIsEncoded(m.format, |m.format|, data);
    assert m.format[..|m.format|] == m.format;
    var index := ReadPayload(m.format, |m.format|, data).value.index;
    assert data[BODY..index] <= data[BODY..];
  }

  // ---------- the buffer ----------

  method Copy32IntToPlace(target: array<byte>, data: uint32, startIndex: nat)
    requires startIndex + 4 <= target.Length
    modifies target
    ensures target[..startIndex] == old(target[..startIndex])
    ensures target[startIndex..startIndex + 4] == Encode32(data)
    ensures target[startIndex + 4..] == old(target[startIndex + 4..])
  {
    target[startIndex + 0] := data / 0x100_0000;
    target[startIndex + 1] := data / 0x1_0000 % 0x100;
    target[startIndex + 2] := data / 0x100 % 0x100;
    target[startIndex + 3] := data % 0x100;
  }

  method Parse32IntFromArray(source: array<byte>, index: nat) returns (result: uint32)
    requires index + 4 <= source.Length
    ensures result == Decode32(source[index..index + 4])
  {
    result := source[index] as int * 0x100_0000 + source[index + 1] as int * 0x1_0000
            + source[index + 2] as int * 0x100 + source[index + 3];
  }

  method GetStringFromMessage(source: array<byte>, size: nat, index: nat) returns (payload: seq<byte>)
    requires index + size <= source.Length
    ensures payload == source[index..index + size]
  {
    payload := [];
    var i := 0;
    while i < size
      invariant 0 <= i <= size
      invariant payload == source[index..index + i]
    {
      payload := payload + [source[index + i]];
      i := i + 1;
    }
  }

  /** A fresh packet with header and total size in place and zeros elsewhere. */
  method PrepareEmptyPacket(header: uint32, dataSize: nat) returns (result: array<byte>)
    requires MSG_MIN_SIZE + dataSize <= MAX_INT
    ensures fresh(result) && result.Length == MSG_MIN_SIZE + dataSize
    ensures result[..BODY] == Encode32(header) + Encode32(MSG_MIN_SIZE + dataSize)
    ensures forall k :: BODY <= k < result.Length ==> result[k] == 0
  {
    var messageSize := MSG_HEAD_SIZE + MSG_SIZE_SIZE + dataSize + MSG_CHECKSUM_SIZE;
    result := new byte[messageSize];
    var i := 0;
    while i < MSG_MIN_SIZE + dataSize
      invariant 0 <= i <= result.Length
      invariant forall k :: 0 <= k < i ==> result[k] == 0
    {
      result[i] := 0;
      i := i + 1;
    }
    ghost var zeros := result[BODY..];
    assert forall k :: 0 <= k < |zeros| ==> zeros[k] == 0;
    assert zeros == result[4..][4..];
    Copy32IntToPlace(result, header, 0);
    assert result[..4] == result[0..4] == Encode32(header);
    assert zeros == result[4..][4..] == result[BODY..];
    Copy32IntToPlace(result, messageSize, 4);
    assert result[..BODY] == result[..4] + result[4..BODY];
    assert result[BODY..] == zeros;
    forall k | BODY <= k < result.Length ensures result[k] == 0 { assert result[k] == zeros[k - BODY]; }
  }

  /** The size of the payload in bytes, summed up entry by entry. */
  method GetMessageSizeByPayload(format: string, payload: seq<Item>) returns (resultSize: nat)
    requires Fits(format, payload)
    ensures resultSize == |EncodePayload(payload)|
  {
    hide EncodePayload, EncodeItem;
    EncodeNothing();
    resultSize := 0;
    var i := 0;
    while i < |format|
      invariant 0 <= i <= |format|
      invariant resultSize == |EncodePayload(payload[..i])|
    {
      PrefixIsShorter(payload, i);
      WidthIsLength(payload[i]);
      assert Is(format[i], payload[i]);
      match format[i] {
        case 'i' => resultSize := resultSize + 4;
        case 's' =>
          resultSize := resultSize + MSG_STRING_LEN_SIZE;
          resultSize := resultSize + |payload[i].bytes|;
      }
      i := i + 1;
    }
    assert payload[..i] == payload;
  }

  /** Writes the payload right after header and size: exactly its bytes, up to exactly its separately computed end,
      and nothing else. */
  method PutDataToMessage(target: array<byte>, format: string, payload: seq<Item>) returns (index: nat)
    requires Fits(format, payload) && BODY + |EncodePayload(payload)| <= target.Length
    modifies target
    ensures index == BODY + |EncodePayload(payload)|
    ensures target[..BODY] == old(target[..BODY])
    ensures target[BODY..index] == EncodePayload(payload)
    ensures target[index..] == old(target[index..])
  {
    hide EncodePayload, EncodeItem;
    EncodeNothing();
    index := BODY;
    var i := 0;
    while i < |format|
      invariant 0 <= i <= |format|
      invariant index == BODY + |EncodePayload(payload[..i])| <= target.Length
      invariant target[..BODY] == old(target[..BODY])
      invariant target[BODY..index] == EncodePayload(payload[..i])
      invariant target[index..] == old(target[index..])
    {
      PrefixIsShorter(payload, i);
      assert Is(format[i], payload[i]);
      ghost var before, at := target[..], index;
      index := PutItem(target, format[i], payload[i], index);
      SlicesStay(before, target[..], BODY, at, index);
      assert target[BODY..index] == target[BODY..at] + target[at..index];
      assert target[index..] == before[at..][index - at..];
      i := i + 1;
    }
    assert payload[..i] == payload;
  }

  lemma SlicesStay(before: seq<byte>, after: seq<byte>, from: nat, at: nat, index: nat)
    requires |before| == |after| && from <= at <= index <= |before| && after[..at] == before[..at]
    ensures after[..from] == before[..from] && after[from..at] == before[from..at]
  {
    assert after[..from] == after[..at][..from] && before[..from] == before[..at][..from];
    assert after[from..at] == after[..at][from..] && before[from..at] == before[..at][from..];
  }

  /** Writes one entry at an index. */
  method PutItem(target: array<byte>, f: char, item: Item, at: nat) returns (index: nat)
    requires Is(f, item) && at + Width(item) <= target.Length
    modifies target
    ensures index == at + Width(item)
    ensures target[..at] == old(target[..at])
    ensures target[at..index] == EncodeItem(item)
    ensures target[index..] == old(target[index..])
  {
    hide Encode32;
    index := at;
    match f {
      case 'i' =>
        Copy32IntToPlace(target, item.value, index);
        index := index + 4;
      case 's' =>
        var stringSize := |item.bytes|;
        Copy32IntToPlace(target, stringSize, index);
        index := index + 4;
        ghost var written := target[..];
        var k := 0;
        while k < stringSize
          invariant 0 <= k <= stringSize && index == at + 4 + k
          invariant target[..at] == old(target[..at])
          invariant target[at..at + 4] == Encode32(stringSize)
          invariant target[at + 4..index] == item.bytes[..k]
          invariant forall m :: index <= m < target.Length ==> target[m] == written[m]
        {
          target[index] := item.bytes[k];
          index := index + 1;
          k := k + 1;
        }
        assert target[at..index] == target[at..at + 4] + target[at + 4..index];
        assert target[index..] == written[at + 4..][k..] == old(target[at + 4..])[k..];
    }
  }

  lemma {:induction false} PrefixIsShorter(payload: seq<Item>, i: nat)
    requires i < |payload|
    ensures EncodePayload(payload[..i + 1]) == EncodePayload(payload[..i]) + EncodeItem(payload[i])
    ensures |EncodePayload(payload[..i])| + Width(payload[i]) <= |EncodePayload(payload)|
    decreases |payload| - i
  {
    assert payload[..i + 1] == payload[..i] + [payload[i]];
    EncodeOneMore(payload[..i], payload[i]);
    WidthIsLength(payload[i]);
    if i + 1 < |payload| {
      PrefixIsShorter(payload, i + 1);
    } else {
      assert payload[..i + 1] == payload;
    }
  }

  lemma SumOneMore(b: seq<byte>, i: nat)
    requires i < |b|
    ensures Sum(b[..i + 1]) == Sum(b[..i]) + b[i]
  {
    assert b[..i + 1][..i] == b[..i];
  }

  /** A sum that wraps at 8 bits and is then reduced modulo 128 loses nothing modulo 128. */
  lemma WrappedStep(sum: nat, x: byte)
    ensures (sum % 128 + x) % 0x100 % 128 == (sum + x) % 128
  {
    assert sum == sum / 128 * 128 + sum % 128;
    var t := sum % 128 + x;
    assert t == t / 0x100 * 0x100 + t % 0x100;
    assert t % 128 == t % 0x100 % 128;
  }

  /** The sum in 8-bit arithmetic, with a remainder at every step, is the true sum modulo 128. */
  method CountAndPlaceChecksum(target: array<byte>, size: nat)
    requires 0 < size <= target.Length
    modifies target
    ensures target[..size - 1] == old(target[..size - 1])
    ensures target[size - 1] == Sum(old(target[..size - 1])) % 128
    ensures target[size..] == old(target[size..])
  {
    hide Sum;
    ghost var b := target[..];
    EmptySum();
    var checkSum: byte := 0;
    var i := 0;
    while i < size - 1
      modifies {}
      invariant 0 <= i <= size - 1
      invariant checkSum == Sum(b[..i]) % 128
    {
      SumOneMore(b, i);
      WrappedStep(Sum(b[..i]), b[i]);
      checkSum := (checkSum + target[i]) % 0x100;
      checkSum := checkSum % 128;
      i := i + 1;
    }
    assert b[..i] == target[..size - 1];
    target[size - 1] := checkSum;
  }

  lemma EmptySum()
    ensures Sum([]) == 0
  {
  }

  /** Writing a message makes its packet, whatever its header. */
  method Serialize(msg: Message) returns (result: array<byte>, resultSize: nat)
    requires Writable(msg)
    ensures fresh(result) && resultSize == result.Length
    ensures result[..] == Packet(msg.header, msg.payload)
    ensures IsLaidOut(result[..], msg.header, msg.payload)
  {
    hide EncodePayload, Sum, Encode32, IsLaidOut;
    PacketIsLaidOut(msg.header, msg.payload);
    ghost var body := EncodePayload(msg.payload);
    ghost var front := Encode32(msg.header) + Encode32(MSG_MIN_SIZE + |body|) + body;
    var messageSize;
    if msg.format == "" {
      EncodeNothing();
      assert msg.payload == [];
      messageSize := MSG_MIN_SIZE;
      result := PrepareEmptyPacket(msg.header, 0);
      assert result[..messageSize - 1] == front;
      CountAndPlaceChecksum(result, messageSize);
    } else {
      var payloadSize := GetMessageSizeByPayload(msg.format, msg.payload);
      messageSize := MSG_MIN_SIZE + payloadSize;
      result := PrepareEmptyPacket(msg.header, payloadSize);
      var _ := PutDataToMessage(result, msg.format, msg.payload);
      assert result[..messageSize - 1] == result[..BODY] + result[BODY..messageSize - 1];
      assert result[..messageSize - 1] == front;
      CountAndPlaceChecksum(result, messageSize);
    }
    resultSize := messageSize;
    assert result[..] == result[..messageSize - 1] + [result[messageSize - 1]];
  }

  /** Reading a whole packet. */
  method Deserialize(data: array<byte>) returns (message: Option<Message>)
    requires Whole(data[..])
    ensures message == Decode(data[..])
  {
    hide ReadItem, Decode32;
    var header := Parse32IntFromArray(data, 0);
    var size := Parse32IntFromArray(data, 4);
    var index: nat := 8;
    if header !in FORMATS {
      return None;
    }
    var format := FORMATS[header];
    FormatsAreLetters(header);
    var payload: seq<Item> := [];
    var i := 0;
    while i < |format|
      invariant 0 <= i <= |format|
      invariant ReadPayload(format, i, data[..]) == Some(Progress(payload, index))
    {
      ReadsFurther(format, i + 1, |format|, data[..]);
      var item;
      item, index := ReadOne(data, format[i], index);
      payload := payload + [item];
      i := i + 1;
    }
    message := Some(Message(header, format, payload));
  }

  /** Reads the entry a letter announces, and moves the index behind it. */
  method ReadOne(data: array<byte>, c: char, at: nat) returns (item: Item, index: nat)
    requires data.Length <= MAX_INT && (c == 'i' || c == 's') && ReadItem(c, data[..], at).Some?
    ensures item == ReadItem(c, data[..], at).value && index == at + Width(item)
  {
    index := at;
    assert data[..][at..at + 4] == data[at..at + 4];
    match c {
      case 'i' =>
        var intPayload := Parse32IntFromArray(data, index);
        item := Number(intPayload);
        index := index + 4;
      case 's' =>
        var stringLength := Parse32IntFromArray(data, index);
        index := index + 4;
        var stringPayload := GetStringFromMessage(data, stringLength, index);
        assert data[..][index..index + stringLength] == data[index..index + stringLength];
        item := Chars(stringPayload);
        index := index + stringLength;
    }
  }

  /** A payload that can be read to its end can be read that far. */
  lemma {:induction false} ReadsFurther(format: string, n: nat, end: nat, data: seq<byte>)
    requires n <= end <= |format| && |data| <= MAX_INT && ReadPayload(format, end, data).Some?
    ensures ReadPayload(format, n, data).Some?
    decreases end - n
  {
    if n < end { ReadsFurther(format, n, end - 1, data); }
  }
}
