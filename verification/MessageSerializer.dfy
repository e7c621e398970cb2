/** The client's packet codec with its length and checksum checks. */
module MessageSerializers {
  import opened Wrappers
  import opened JavaBase
  import opened DataSerializers

  datatype MessageType = PARSING_TEST0 | PARSING_TEST1 | PARSING_TEST2 | PARSING_TEST3 | PARSING_TEST4 | PARSING_TEST5

  function HeaderId(t: MessageType): jint {
    match t
    case PARSING_TEST0 => 1
    case PARSING_TEST1 => 101
    case PARSING_TEST2 => 102
    case PARSING_TEST3 => 103
    case PARSING_TEST4 => 104
    case PARSING_TEST5 => 105
  }

  function PayloadTypes(t: MessageType): Option<seq<FieldClass>> {
    match t
    case PARSING_TEST0 => None
    case PARSING_TEST1 => Some([IntegerClass])
    case PARSING_TEST2 => Some([IntegerClass, IntegerClass])
    case PARSING_TEST3 => Some([StringClass])
    case PARSING_TEST4 => Some([StringClass, StringClass])
    case PARSING_TEST5 => Some([StringClass, IntegerClass])
  }

  /** The type a header stands for. */
  function TypeOf(headerId: int): Option<MessageType> {
    if headerId == 1 then Some(PARSING_TEST0)
    else if headerId == 101 then Some(PARSING_TEST1)
    else if headerId == 102 then Some(PARSING_TEST2)
    else if headerId == 103 then Some(PARSING_TEST3)
    else if headerId == 104 then Some(PARSING_TEST4)
    else if headerId == 105 then Some(PARSING_TEST5)
    else None
  }

  const SUM_SIZE := 1
  const HEADER_POSITION := 0
  const MSG_LEN_POSITION := 4
  const PAYLOAD_POSITION := 8
  const MIN_SIZE := 2 * INTEGER_SIZE + SUM_SIZE

  // ---------- the checksum ----------

  /** The running remainder over the bytes, starting from `start`. */
  function RunSum(start: int, bytes: seq<sbyte>): int {
    if bytes == [] then start else Rem(RunSum(start, bytes[..|bytes| - 1]) + bytes[|bytes| - 1], 128)
  }

  /** The true sum of the signed bytes. */
  function TrueSum(bytes: seq<sbyte>): int {
    if bytes == [] then 0 else TrueSum(bytes[..|bytes| - 1]) + bytes[|bytes| - 1]
  }

  function ChecksumByte(bytes: seq<sbyte>): sbyte {
    ToByte(128 - Rem(RunSum(0, bytes), 128))
  }

  lemma RemIsCongruent(a: int)
    ensures Rem(a, 128) % 128 == a % 128 && -128 < Rem(a, 128) < 128
    ensures Rem(a, 128) == 0 <==> a % 128 == 0
  {
    if a < 0 {
      var q, r := (-a) / 128, (-a) % 128;
      assert -a == q * 128 + r && 0 <= r < 128;
      assert a == (-q) * 128 + (-r);
      if r == 0 {
        assert a % 128 == 0;
      } else {
        assert a == (-q - 1) * 128 + (128 - r);
        assert a % 128 == 128 - r == (-r) % 128;
      }
    }
  }

  lemma ModSum(a: int, b: int, x: int)
    requires a % 128 == b % 128
    ensures (a + x) % 128 == (b + x) % 128
  {
    assert a == a / 128 * 128 + a % 128 && b == b / 128 * 128 + b % 128;
    assert a + x == (b + x) + 128 * (a / 128 - b / 128);
  }

  lemma {:induction false} RunSumIsCongruent(start: int, bytes: seq<sbyte>)
    ensures RunSum(start, bytes) % 128 == (start + TrueSum(bytes)) % 128
  {
    if bytes != [] {
      var init, last := bytes[..|bytes| - 1], bytes[|bytes| - 1];
      RunSumIsCongruent(start, init);
      RemIsCongruent(RunSum(start, init) + last);
      ModSum(RunSum(start, init), start + TrueSum(init), last);
    }
  }

  /** The truncating remainder over signed bytes is zero exactly when their true sum is divisible by 128. */
  lemma RunSumDecidesDivisibility(bytes: seq<sbyte>)
    ensures RunSum(0, bytes) == 0 <==> TrueSum(bytes) % 128 == 0
  {
    RunSumIsCongruent(0, bytes);
    if bytes != [] {
      RemIsCongruent(RunSum(0, bytes[..|bytes| - 1]) + bytes[|bytes| - 1]);
    }
  }

  lemma {:induction false} TrueSumConcat(a: seq<sbyte>, b: seq<sbyte>)
    ensures TrueSum(a + b) == TrueSum(a) + TrueSum(b)
  {
    if b == [] {
      assert a + b == a;
    } else {
      TrueSumConcat(a, b[..|b| - 1]);
      assert (a + b)[..|a + b| - 1] == a + b[..|b| - 1];
    }
  }

  lemma {:induction false} RunSumConcat(start: int, a: seq<sbyte>, b: seq<sbyte>)
    ensures RunSum(start, a + b) == RunSum(RunSum(start, a), b)
  {
    if b == [] {
      assert a + b == a;
    } else {
      RunSumConcat(start, a, b[..|b| - 1]);
      assert (a + b)[..|a + b| - 1] == a + b[..|b| - 1];
    }
  }

  /** The bytes with their checksum byte sum up to a multiple of 128, negative bytes included. */
  lemma ChecksumFits(bytes: seq<sbyte>)
    ensures RunSum(0, bytes + [ChecksumByte(bytes)]) == 0
  {
    var check := ChecksumByte(bytes);
    var r := Rem(RunSum(0, bytes), 128);
    RunSumIsCongruent(0, bytes);
    RemIsCongruent(RunSum(0, bytes));
    CastIsCongruent(128 - r);
    ModSum(TrueSum(bytes), r, check);
    ModSum(check, 128 - r, r);
    TrueSumConcat(bytes, [check]);
    assert TrueSum([check]) == check by { assert [check][..0] == []; }
    RunSumDecidesDivisibility(bytes + [check]);
  }

  lemma CastIsCongruent(n: int)
    ensures ToByte(n) % 128 == n % 128
  {
    var m := n + 0x80;
    var q := m / 0x100;
    assert m % 0x100 == m - q * 0x100;
    MovedByMultiple(n, ToByte(n), 2 * q);
  }

  lemma MovedByMultiple(a: int, b: int, k: int)
    requires a == b + 128 * k
    ensures b % 128 == a % 128
  {
    var q, r := b / 128, b % 128;
    assert a == 128 * (q + k) + r && 0 <= r < 128;
    assert a / 128 == q + k;
  }

  /** A multiple of 128 moved by less than 256 is again one only if moved by 128. */
  lemma MovedMultiple(was: int, now: int)
    requires was % 128 == 0 && was != now && -256 < now - was < 256
    ensures now % 128 == 0 <==> now - was == 128 || was - now == 128
  {
    assert was == was / 128 * 128 && now == now / 128 * 128 + now % 128;
    var d := now / 128 - was / 128;
    assert now - was == 128 * d + now % 128;
  }

  /** A single changed byte goes unnoticed exactly when it has moved by 128. */
  lemma OneChangedByte(bytes: seq<sbyte>, k: nat, b: sbyte)
    requires k < |bytes| && b != bytes[k] && RunSum(0, bytes) == 0
    ensures RunSum(0, bytes[k := b]) == 0 <==> b - bytes[k] == 128 || bytes[k] - b == 128
  {
    hide TrueSum, RunSum;
    var front, back := bytes[..k], bytes[k + 1..];
    assert bytes == front + ([bytes[k]] + back) && bytes[k := b] == front + ([b] + back);
    SumAround(front, bytes[k], back);
    SumAround(front, b, back);
    RunSumDecidesDivisibility(bytes);
    RunSumDecidesDivisibility(bytes[k := b]);
    MovedMultiple(TrueSum(bytes), TrueSum(bytes[k := b]));
  }

  lemma SumAround(front: seq<sbyte>, b: sbyte, back: seq<sbyte>)
    ensures TrueSum(front + ([b] + back)) == TrueSum(front) + b + TrueSum(back)
  {
    TrueSumConcat(front, [b] + back);
    TrueSumConcat([b], back);
    assert TrueSum([b]) == b by { assert [b][..0] == []; }
  }

  // ---------- packets ----------

  /** The first check a packet fails, if any. */
  function Check(bytes: seq<sbyte>): Option<Error> {
    if |bytes| < MIN_SIZE then Some(TooShort)
    else if |bytes| != BytesToInt(bytes[MSG_LEN_POSITION..MSG_LEN_POSITION + INTEGER_SIZE]) then Some(BadLength)
    else if RunSum(0, bytes) != 0 then Some(BadCheckSum)
    else None
  }

  /** The payload part of a packet. */
  function Raw(bytes: seq<sbyte>): seq<sbyte>
    requires |bytes| >= MIN_SIZE
  {
    bytes[PAYLOAD_POSITION..|bytes| - SUM_SIZE]
  }

  predicate HasFields(t: MessageType) {
    PayloadTypes(t).Some? && |PayloadTypes(t).value| > 0
  }

  /** Type and payload of a packet that passes all checks. */
  function Parse(cs: Charset, bytes: seq<sbyte>): Result<(MessageType, seq<Value>)> {
    if Check(bytes).Some? then Err(Check(bytes).value)
    else
      var t := TypeOf(BytesToInt(bytes[HEADER_POSITION..HEADER_POSITION + INTEGER_SIZE]));
      if t.None? then Err(BadHeader)
      else if !HasFields(t.value) then Ok((t.value, []))
      else
        var payload := PayloadOf(cs, PayloadTypes(t.value).value, Raw(bytes));
        if payload.Err? then Err(payload.error) else Ok((t.value, payload.value))
  }

  /** Everything of a packet but its checksum. */
  function Front(t: MessageType, payloadBytes: seq<sbyte>): seq<sbyte> {
    IntToBytes(HeaderId(t)) + IntToBytes(MIN_SIZE + |payloadBytes|) + payloadBytes
  }

  function Serialized(cs: Charset, t: MessageType, payload: seq<Value>): Result<seq<sbyte>> {
    var payloadBytes := BytesOf(cs, PayloadTypes(t), payload);
    if payloadBytes.Err? then payloadBytes
    else Ok(Front(t, payloadBytes.value) + [ChecksumByte(Front(t, payloadBytes.value))])
  }

  /** The payload is one the type declares; a type without fields has an empty one. */
  predicate Declared(t: MessageType, payload: seq<Value>) {
    match PayloadTypes(t)
    case None => payload == []
    case Some(classes) => Matches(classes, payload)
  }

  /** Whatever the payload bytes, a serialized packet passes the checksum. */
  lemma SerializedPassesChecksum(cs: Charset, t: MessageType, payload: seq<Value>)
    requires Serialized(cs, t, payload).Ok?
    ensures RunSum(0, Serialized(cs, t, payload).value) == 0
  {
    hide RunSum, ChecksumByte;
    ChecksumFits(Front(t, BytesOf(cs, PayloadTypes(t), payload).value));
  }

  lemma SerializedParts(cs: Charset, t: MessageType, payload: seq<Value>)
    requires Declared(t, payload)
    ensures
      var r := Serialized(cs, t, payload);
      && r.Ok? && |r.value| >= MIN_SIZE
      && BytesToInt(r.value[HEADER_POSITION..HEADER_POSITION + INTEGER_SIZE]) == HeaderId(t)
      && BytesToInt(r.value[MSG_LEN_POSITION..MSG_LEN_POSITION + INTEGER_SIZE]) == ToByte(|r.value|)
      && Raw(r.value) == (if PayloadTypes(t).None? then [] else FieldsBytes(cs, payload))
  {
    hide ChecksumByte, RunSum, FieldsBytes;
    var payloadBytes := BytesOf(cs, PayloadTypes(t), payload).value;
    var bytes := Serialized(cs, t, payload).value;
    assert bytes[HEADER_POSITION..HEADER_POSITION + INTEGER_SIZE] == IntToBytes(HeaderId(t));
    assert bytes[MSG_LEN_POSITION..MSG_LEN_POSITION + INTEGER_SIZE] == IntToBytes(MIN_SIZE + |payloadBytes|);
    assert Raw(bytes) == payloadBytes;
  }

  lemma HeadersAreDistinct(t: MessageType)
    ensures TypeOf(HeaderId(t)) == Some(t)
  {
  }

  predicate AsciiTexts(payload: seq<Value>) {
    forall k :: 0 <= k < |payload| && payload[k].Text? ==> IsAsciiText(payload[k].s)
  }

  /** Numbers whose lowest byte says it all. */
  predicate ByteNumbers(payload: seq<Value>) {
    forall k :: 0 <= k < |payload| && payload[k].IntValue? ==> -0x80 <= payload[k].n < 0x80
  }

  lemma TextFits(cs: Charset, payload: seq<Value>, k: nat)
    requires k < |payload| && payload[k].Text?
    ensures |cs.encode(payload[k].s)| <= |FieldsBytes(cs, payload)|
    decreases |payload|
  {
    if k < |payload| - 1 { TextFits(cs, payload[..|payload| - 1], k); }
  }

  lemma FieldlessIsTest0(t: MessageType)
    ensures HasFields(t) <==> PayloadTypes(t).Some?
  {
  }

  /** The number of bytes a payload of ASCII texts takes: four for each number, four and its length for each text. */
  function Widths(payload: seq<Value>): nat {
    if payload == [] then 0
    else
      var last := payload[|payload| - 1];
      Widths(payload[..|payload| - 1]) + INTEGER_SIZE + if last.Text? then |last.s| else 0
  }

  lemma {:induction false} WidthsAreLengths(cs: Charset, payload: seq<Value>)
    requires AsciiCompatible(cs) && AsciiTexts(payload)
    ensures |FieldsBytes(cs, payload)| == Widths(payload)
  {
    hide AsciiCompatible;
    if payload != [] {
      var last := payload[|payload| - 1];
      WidthsAreLengths(cs, payload[..|payload| - 1]);
      if last.Text? { AsciiRoundTrip(cs, last.s); }
    }
  }

  /** A message with ASCII texts comes back unchanged from being serialized, checked and parsed exactly when its packet
      takes at most 127 bytes, nine of them besides the payload, and every number is in the range of a byte. */
  lemma RoundTrip(cs: Charset, t: MessageType, payload: seq<Value>)
    requires AsciiCompatible(cs) && Declared(t, payload) && AsciiTexts(payload)
    ensures
      var r := Serialized(cs, t, payload);
      && r.Ok? && |r.value| == MIN_SIZE + Widths(payload)
      && (Parse(cs, r.value) == Ok((t, payload)) <==> MIN_SIZE + Widths(payload) <= 127 && ByteNumbers(payload))
  {
    hide RunSum, PayloadOf, FieldsBytes, TypeOf, AsciiCompatible, BytesToInt, Widths;
    SerializedParts(cs, t, payload);
    SerializedPassesChecksum(cs, t, payload);
    HeadersAreDistinct(t);
    FieldlessIsTest0(t);
    WidthsAreLengths(cs, payload);
    NoFieldsNoBytes(cs);
    var bytes := Serialized(cs, t, payload).value;
    if |bytes| <= 127 && ByteNumbers(payload) && HasFields(t) {
      forall k | 0 <= k < |payload| ensures Portable(payload[k]) {
        if payload[k].Text? {
          AsciiRoundTrip(cs, payload[k].s);
          TextFits(cs, payload, k);
        }
      }
      PayloadRoundTrip(cs, PayloadTypes(t).value, payload);
    }
    if Parse(cs, bytes) == Ok((t, payload)) && HasFields(t) {
      ParsedNumbersAreBytes(cs, PayloadTypes(t).value, Raw(bytes), payload);
    }
  }

  lemma ParsedNumbersAreBytes(cs: Charset, classes: seq<FieldClass>, raw: seq<sbyte>, payload: seq<Value>)
    requires PayloadOf(cs, classes, raw) == Ok(payload)
    ensures ByteNumbers(payload)
  {
    hide PayloadOf;
    AcceptedIfTiled(cs, classes, raw, payload);
    var chunks :| AreFields(cs, classes, payload, chunks) && Concat(chunks) == raw;
    forall k | 0 <= k < |payload| && payload[k].IntValue? ensures -0x80 <= payload[k].n < 0x80 {
      assert IsField(cs, classes[k], payload[k], chunks[k]);
    }
  }

  // ---------- writing a parsed packet again ----------

  predicate StartsWithZeros(word: seq<sbyte>) {
    |word| >= INTEGER_SIZE && word[..3] == [0, 0, 0]
  }

  /** The form the serializer writes: numbers in their lowest byte, its own checksum byte, nothing without fields. */
  predicate Canonical(t: MessageType, bytes: seq<sbyte>, chunks: seq<seq<sbyte>>)
    requires |bytes| >= MIN_SIZE
  {
    && StartsWithZeros(bytes[HEADER_POSITION..MSG_LEN_POSITION])
    && StartsWithZeros(bytes[MSG_LEN_POSITION..PAYLOAD_POSITION])
    && (!HasFields(t) ==> Raw(bytes) == [])
    && (forall k :: 0 <= k < |chunks| ==> StartsWithZeros(chunks[k]))
    && bytes[|bytes| - 1] == ChecksumByte(bytes[..|bytes| - 1])
  }

  /** The text a chunk holds is ASCII. */
  predicate AsciiChunk(c: FieldClass, chunk: seq<sbyte>) {
    c == StringClass && |chunk| >= INTEGER_SIZE ==> IsAscii(chunk[INTEGER_SIZE..])
  }

  lemma FieldWrittenAgain(cs: Charset, c: FieldClass, v: Value, chunk: seq<sbyte>)
    requires AsciiCompatible(cs) && IsField(cs, c, v, chunk) && AsciiChunk(c, chunk)
    ensures |FieldBytes(cs, v)| == |chunk|
    ensures FieldBytes(cs, v) == chunk <==> StartsWithZeros(chunk)
  {
    assert chunk == chunk[..3] + [chunk[3]] + chunk[INTEGER_SIZE..];
    if c == StringClass {
      AsciiBytesRoundTrip(cs, chunk[INTEGER_SIZE..]);
    }
    assert FieldBytes(cs, v)[..3] == [0, 0, 0];
  }

  lemma {:induction false} FieldsWrittenAgain(
    cs: Charset, classes: seq<FieldClass>, values: seq<Value>, chunks: seq<seq<sbyte>>)
    requires AsciiCompatible(cs) && AreFields(cs, classes, values, chunks)
    requires forall k :: 0 <= k < |chunks| ==> AsciiChunk(classes[k], chunks[k])
    ensures |FieldsBytes(cs, values)| == |Concat(chunks)|
    ensures FieldsBytes(cs, values) == Concat(chunks) <==> forall k :: 0 <= k < |chunks| ==> StartsWithZeros(chunks[k])
  {
    hide AsciiCompatible, IsField, FieldBytes, AsciiChunk, StartsWithZeros;
    if values != [] {
      var n := |values| - 1;
      FieldsWrittenAgain(cs, classes[..n], values[..n], chunks[..n]);
      FieldWrittenAgain(cs, classes[n], values[n], chunks[n]);
      var front := FieldsBytes(cs, values[..n]);
      assert FieldsBytes(cs, values)[..|front|] == front;
      assert FieldsBytes(cs, values)[|front|..] == FieldBytes(cs, values[n]);
      assert Concat(chunks)[..|front|] == Concat(chunks[..n]);
      assert Concat(chunks)[|front|..] == chunks[n];
      assert forall k :: 0 <= k < n ==> chunks[..n][k] == chunks[k];
    }
  }

  /** An accepted packet whose texts are ASCII is reproduced byte for byte by parsing and serializing it exactly when
      it is in canonical form. `chunks` are its fields. */
  lemma WrittenAgain(cs: Charset, t: MessageType, bytes: seq<sbyte>, values: seq<Value>, chunks: seq<seq<sbyte>>)
    requires AsciiCompatible(cs) && Parse(cs, bytes) == Ok((t, values))
    requires HasFields(t) ==>
               AreFields(cs, PayloadTypes(t).value, values, chunks) && Concat(chunks) == Raw(bytes)
               && forall k :: 0 <= k < |chunks| ==> AsciiChunk(PayloadTypes(t).value[k], chunks[k])
    requires !HasFields(t) ==> chunks == []
    ensures Serialized(cs, t, values) == Ok(bytes) <==> Canonical(t, bytes, chunks)
  {
    hide RunSum, ChecksumByte, FieldsBytes, AsciiCompatible, PayloadOf, Concat;
    FieldlessIsTest0(t);
    if HasFields(t) {
      FieldsWrittenAgain(cs, PayloadTypes(t).value, values, chunks);
      FieldsMatch(cs, PayloadTypes(t).value, values, chunks);
    }
    var payloadBytes := BytesOf(cs, PayloadTypes(t), values).value;
    PartsAgree(t, bytes, payloadBytes);
  }

  lemma FieldsMatch(cs: Charset, classes: seq<FieldClass>, values: seq<Value>, chunks: seq<seq<sbyte>>)
    requires AreFields(cs, classes, values, chunks)
    ensures Matches(classes, values)
  {
    forall k | 0 <= k < |classes| ensures IsA(classes[k], values[k]) {
      assert IsField(cs, classes[k], values[k], chunks[k]);
    }
  }

  /** A packet is what the serializer writes if its parts are. */
  lemma PartsAgree(t: MessageType, bytes: seq<sbyte>, payloadBytes: seq<sbyte>)
    requires |bytes| >= MIN_SIZE && |bytes| == bytes[7] && TypeOf(bytes[3]) == Some(t)
    ensures Front(t, payloadBytes) + [ChecksumByte(Front(t, payloadBytes))] == bytes <==>
              && StartsWithZeros(bytes[HEADER_POSITION..MSG_LEN_POSITION])
              && StartsWithZeros(bytes[MSG_LEN_POSITION..PAYLOAD_POSITION])
              && payloadBytes == Raw(bytes)
              && bytes[|bytes| - 1] == ChecksumByte(bytes[..|bytes| - 1])
  {
    hide RunSum, ChecksumByte;
    var front := Front(t, payloadBytes);
    assert HeaderId(t) == bytes[3];
    assert bytes == bytes[..3] + [bytes[3]] + bytes[4..7] + [bytes[7]] + Raw(bytes) + [bytes[|bytes| - 1]];
    if front + [ChecksumByte(front)] == bytes {
      assert bytes[..|bytes| - 1] == front;
      assert front[PAYLOAD_POSITION..] == payloadBytes;
      assert bytes[HEADER_POSITION..MSG_LEN_POSITION] == front[..4] == IntToBytes(HeaderId(t));
      assert bytes[MSG_LEN_POSITION..PAYLOAD_POSITION] == front[4..8] == IntToBytes(MIN_SIZE + |payloadBytes|);
    }
    if StartsWithZeros(bytes[HEADER_POSITION..MSG_LEN_POSITION])
       && StartsWithZeros(bytes[MSG_LEN_POSITION..PAYLOAD_POSITION]) && payloadBytes == Raw(bytes) {
      assert bytes[..3] == bytes[HEADER_POSITION..MSG_LEN_POSITION][..3] == [0, 0, 0];
      assert bytes[4..7] == bytes[MSG_LEN_POSITION..PAYLOAD_POSITION][..3] == [0, 0, 0];
      assert bytes[..|bytes| - 1] == front;
    }
  }

  // ---------- the codec ----------

  class Message {
    var messageType: Option<MessageType>
    var rawType: int
    var length: int
    var payload: seq<Value>
    var checksum: sbyte
    var rawPayloads: seq<sbyte>

    constructor ()
      ensures messageType == None && payload == []
    {
      messageType := None;
      rawType := 0;
      length := 0;
      payload := [];
      checksum := 0;
      rawPayloads := [];
    }
  }

  const ALL_TYPES := [PARSING_TEST0, PARSING_TEST1, PARSING_TEST2, PARSING_TEST3, PARSING_TEST4, PARSING_TEST5]

  /** A table that is right as far as it goes and has every header is the table. */
  lemma TableIsComplete(types: map<int, MessageType>)
    requires forall h :: h in types ==> TypeOf(h) == Some(types[h])
    requires forall k :: 0 <= k < |ALL_TYPES| ==> HeaderId(ALL_TYPES[k]) in types
    ensures forall h: int :: TypeOf(h) == if h in types then Some(types[h]) else None
  {
    forall h: int | h !in types ensures TypeOf(h) == None {
      assert HeaderId(ALL_TYPES[0]) in types && HeaderId(ALL_TYPES[1]) in types && HeaderId(ALL_TYPES[2]) in types;
      assert HeaderId(ALL_TYPES[3]) in types && HeaderId(ALL_TYPES[4]) in types && HeaderId(ALL_TYPES[5]) in types;
    }
  }

  class MessageSerializer {
    var types: map<int, MessageType>
    const dataSerializer: DataSerializer

    constructor (charset: Charset)
      ensures Valid() && dataSerializer.charset == charset
    {
      dataSerializer := new DataSerializer(charset);
      types := map[];
      new;
      var values := ALL_TYPES;
      var i := 0;
      while i < |values|
        invariant 0 <= i <= |values|
        invariant forall h :: h in types ==> TypeOf(h) == Some(types[h])
        invariant forall k :: 0 <= k < i ==> HeaderId(values[k]) in types
      {
        HeadersAreDistinct(values[i]);
        types := types[HeaderId(values[i]) := values[i]];
        i := i + 1;
      }
      TableIsComplete(types);
    }

    /** The table holds every type under its header. */
    ghost predicate Valid()
      reads this
    {
      forall h: int :: TypeOf(h) == if h in types then Some(types[h]) else None
    }

    method CheckMessage(bytes: seq<sbyte>) returns (failure: Option<Error>)
      ensures failure == Check(bytes)
    {
      failure := CheckMinimalSize(bytes);
      if failure.Some? { return; }
      failure := CheckTotalSize(bytes);
      if failure.Some? { return; }
      failure := CheckChecksum(bytes);
    }

    method CheckChecksum(bytes: seq<sbyte>) returns (failure: Option<Error>)
      ensures failure == if RunSum(0, bytes) != 0 then Some(BadCheckSum) else None
    {
      var sum := AddUp(0, bytes);
      return if sum != 0 then Some(BadCheckSum) else None;
    }

    method AddUp(start: int, bytes: seq<sbyte>) returns (sum: int)
      ensures sum == RunSum(start, bytes)
    {
      sum := start;
      var i := 0;
      while i < |bytes|
        invariant 0 <= i <= |bytes|
        invariant sum == RunSum(start, bytes[..i])
      {
        assert bytes[..i + 1][..i] == bytes[..i];
        sum := Rem(sum + bytes[i], 128);
        i := i + 1;
      }
      assert bytes[..i] == bytes;
    }

    method CheckTotalSize(bytes: seq<sbyte>) returns (failure: Option<Error>)
      requires |bytes| >= MIN_SIZE
      ensures failure ==
        if |bytes| != BytesToInt(bytes[MSG_LEN_POSITION..MSG_LEN_POSITION + INTEGER_SIZE]) then Some(BadLength)
        else None
    {
      var lenBytes := CopyOfRange(bytes, MSG_LEN_POSITION, MSG_LEN_POSITION + INTEGER_SIZE);
      var realSize := |bytes|;
      var declaredSize := BytesToInt(lenBytes.value);
      return if realSize != declaredSize then Some(BadLength) else None;
    }

    method CheckMinimalSize(bytes: seq<sbyte>) returns (failure: Option<Error>)
      ensures failure == if |bytes| < MIN_SIZE then Some(TooShort) else None
    {
      return if |bytes| < 2 * INTEGER_SIZE + SUM_SIZE then Some(TooShort) else None;
    }

    /** Takes a packet apart; bytes too few for that end in an error. */
    method InitMessage(bytes: seq<sbyte>) returns (r: Result<Message>)
      ensures |bytes| >= MIN_SIZE ==>
                && r.Ok? && fresh(r.value)
                && r.value.rawType == BytesToInt(bytes[HEADER_POSITION..HEADER_POSITION + INTEGER_SIZE])
                && r.value.checksum == bytes[|bytes| - 1] && r.value.length == |bytes|
                && r.value.rawPayloads == Raw(bytes)
                && r.value.messageType == None && r.value.payload == []
      ensures |bytes| == 0 ==> r == Err(IndexOutOfBounds)
      ensures 0 < |bytes| < MIN_SIZE ==> r == Err(IllegalArgument)
    {
      var head := CopyOfRange(bytes, HEADER_POSITION, HEADER_POSITION + INTEGER_SIZE);
      var headerId := BytesToInt(head.value);

      var message := new Message();
      message.rawType := headerId;
      if |bytes| == 0 { return Err(IndexOutOfBounds); }
      message.checksum := bytes[|bytes| - SUM_SIZE];
      message.length := |bytes|;
      var raw := CopyOfRange(bytes, PAYLOAD_POSITION, |bytes| - SUM_SIZE);
      if raw.Err? { return Err(raw.error); }
      message.rawPayloads := raw.value;
      return Ok(message);
    }

    /** Finds the type and reads the payload. A failure to read it leaves the payload as it was. */
    method DeserializeMessage(message: Message) returns (failure: Option<Error>)
      requires Valid()
      modifies message`messageType, message`payload
      ensures
        var t := TypeOf(message.rawType);
        && (t.None? ==> failure == Some(BadHeader) && message.messageType == old(message.messageType)
                        && message.payload == old(message.payload))
        && (t.Some? ==>
              && message.messageType == t
              && (!HasFields(t.value) ==> failure == None && message.payload == old(message.payload))
              && (HasFields(t.value) ==>
                    match PayloadOf(dataSerializer.charset, PayloadTypes(t.value).value, message.rawPayloads)
                    case Ok(values) => failure == None && message.payload == values
                    case Err(e) => failure == Some(e) && message.payload == old(message.payload)))
    {
      if message.rawType !in types {
        return Some(BadHeader);
      }
      var t := types[message.rawType];
      message.messageType := Some(t);
      var payloadTypes := PayloadTypes(t);
      if payloadTypes.Some? && |payloadTypes.value| > 0 {
        var values := dataSerializer.BytesToPayload(payloadTypes.value, message.rawPayloads);
        if values.Err? { return Some(values.error); }
        message.payload := values.value;
      }
      return None;
    }

    method SerializeMessage(message: Message) returns (r: Result<seq<sbyte>>)
      requires message.messageType.Some?
      ensures r == Serialized(dataSerializer.charset, message.messageType.value, message.payload)
    {
      var t := message.messageType.value;
      var payloadBytes := dataSerializer.PayloadToBytes(PayloadTypes(t), message.payload);
      if payloadBytes.Err? { return payloadBytes; }
      var len := INTEGER_SIZE * 2 + SUM_SIZE + |payloadBytes.value|;

      var byteBuilder: seq<sbyte> := [];
      byteBuilder := byteBuilder + IntToBytes(HeaderId(t));
      byteBuilder := byteBuilder + IntToBytes(len);
      byteBuilder := byteBuilder + payloadBytes.value;
      assert byteBuilder == Front(t, payloadBytes.value);
      var checkSum := CountCheckSum(IntToBytes(HeaderId(t)), IntToBytes(len), payloadBytes.value);
      byteBuilder := byteBuilder + [checkSum];
      return Ok(byteBuilder);
    }

    method CountCheckSum(header: seq<sbyte>, len: seq<sbyte>, payload: seq<sbyte>) returns (check: sbyte)
      ensures check == ChecksumByte(header + len + payload)
    {
      var sum := AddUp(0, header);
      sum := AddUp(sum, len);
      sum := AddUp(sum, payload);
      RunSumConcat(0, header, len);
      RunSumConcat(0, header + len, payload);
      return ToByte(128 - Rem(sum, 128));
    }
  }

  /** The client's whole way in: check, take apart, find the type, read the payload. */
  method Receive(serializer: MessageSerializer, bytes: seq<sbyte>) returns (r: Result<(MessageType, seq<Value>)>)
    requires serializer.Valid()
    ensures r == Parse(serializer.dataSerializer.charset, bytes)
  {
    var failure := serializer.CheckMessage(bytes);
    if failure.Some? { return Err(failure.value); }
    var message := serializer.InitMessage(bytes);
    failure := serializer.DeserializeMessage(message.value);
    if failure.Some? { return Err(failure.value); }
    return Ok((message.value.messageType.value, message.value.payload));
  }
}
