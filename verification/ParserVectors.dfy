/** The packets of the client's own parser tests, in general and one by one. */
module ParserVectors {
  import opened JavaBase
  import opened Wrappers
  import opened DataSerializers
  import opened MessageSerializers

  function Word(b: sbyte): (w: seq<sbyte>) {
    [0, 0, 0, b]
  }

  /** Four bytes of header, four of length, the payload, one of checksum. */
  function Parts(header: sbyte, length: sbyte, raw: seq<sbyte>, check: sbyte): seq<sbyte> {
    Word(header) + Word(length) + raw + [check]
  }

  lemma SumStep(bytes: seq<sbyte>, k: nat)
    requires k < |bytes|
    ensures TrueSum(bytes[..k + 1]) == TrueSum(bytes[..k]) + bytes[k]
  {
    assert bytes[..k + 1][..k] == bytes[..k];
  }

  lemma SumOfFour(b0: sbyte, b1: sbyte, b2: sbyte, b3: sbyte)
    ensures TrueSum([b0, b1, b2, b3]) == b0 as int + b1 as int + b2 as int + b3 as int
  {
    hide TrueSum;
    var b := [b0, b1, b2, b3];
    NoSum();
    SumStep(b, 0);
    SumStep(b, 1);
    SumStep(b, 2);
    SumStep(b, 3);
    assert b[..0] == [] && b[..4] == b;
  }

  lemma NoSum()
    ensures TrueSum([]) == 0
  {
  }

  lemma SumOfWord(b: sbyte)
    ensures TrueSum(Word(b)) == b && TrueSum([b]) == b
  {
    SumOfFour(0, 0, 0, b);
    hide TrueSum;
    NoSum();
    SumStep([b], 0);
    assert [b][..0] == [] && [b][..1] == [b];
  }

  lemma SumOfParts(header: sbyte, length: sbyte, raw: seq<sbyte>, check: sbyte)
    ensures TrueSum(Parts(header, length, raw, check)) == header + length + TrueSum(raw) + check
  {
    hide TrueSum, Word;
    TrueSumConcat(Word(header) + Word(length) + raw, [check]);
    TrueSumConcat(Word(header) + Word(length), raw);
    TrueSumConcat(Word(header), Word(length));
    SumOfWord(header);
    SumOfWord(length);
    SumOfWord(check);
  }

  /** A packet of parts is accepted by the checks exactly when its length byte counts all its bytes and they add up to a
      multiple of 128; then header and payload are taken from where they stand. */
  lemma PartsAreChecked(header: sbyte, length: sbyte, raw: seq<sbyte>, check: sbyte)
    ensures
      var bytes := Parts(header, length, raw, check);
      && |bytes| == 9 + |raw| && Raw(bytes) == raw && bytes[3] == header
      && Check(bytes) == if length as int != 9 + |raw| then Some(BadLength)
                         else if (header + length + TrueSum(raw) + check) % 128 != 0 then Some(BadCheckSum)
                         else None
  {
    hide RunSum, TrueSum;
    var bytes := Parts(header, length, raw, check);
    assert bytes[MSG_LEN_POSITION..MSG_LEN_POSITION + INTEGER_SIZE] == Word(length);
    SumOfParts(header, length, raw, check);
    RunSumDecidesDivisibility(bytes);
  }

  /** The six types by number, and what their payloads hold, in order. */
  lemma TypesByNumber(h: int)
    ensures h == 1 ==> TypeOf(h) == Some(PARSING_TEST0)
    ensures h == 101 ==> TypeOf(h) == Some(PARSING_TEST1)
    ensures h == 102 ==> TypeOf(h) == Some(PARSING_TEST2)
    ensures h == 103 ==> TypeOf(h) == Some(PARSING_TEST3)
    ensures h == 104 ==> TypeOf(h) == Some(PARSING_TEST4)
    ensures h == 105 ==> TypeOf(h) == Some(PARSING_TEST5)
    ensures h != 1 && !(101 <= h <= 105) ==> TypeOf(h) == None
    ensures PayloadTypes(PARSING_TEST0) == None && PayloadTypes(PARSING_TEST1) == Some([IntegerClass])
    ensures PayloadTypes(PARSING_TEST2) == Some([IntegerClass, IntegerClass])
    ensures PayloadTypes(PARSING_TEST3) == Some([StringClass])
    ensures PayloadTypes(PARSING_TEST4) == Some([StringClass, StringClass])
    ensures PayloadTypes(PARSING_TEST5) == Some([StringClass, IntegerClass])
  {
  }

  /** A payload is read field by field: a number from its fourth byte, a text from as many bytes as its fourth byte
      says. */
  lemma OneField(cs: Charset, c: FieldClass, v: Value, chunk: seq<sbyte>)
    requires IsField(cs, c, v, chunk)
    ensures PayloadOf(cs, [c], chunk) == Ok([v])
  {
    hide PayloadOf, IsField;
    assert [chunk][..0] == [] && Concat([]) == [];
    assert Concat([chunk]) == chunk;
    assert AreFields(cs, [c], [v], [chunk]);
    AcceptedIfTiled(cs, [c], chunk, [v]);
  }

  lemma TwoFields(cs: Charset, c: FieldClass, v: Value, chunk: seq<sbyte>, d: FieldClass, w: Value, next: seq<sbyte>)
    requires IsField(cs, c, v, chunk) && IsField(cs, d, w, next)
    ensures PayloadOf(cs, [c, d], chunk + next) == Ok([v, w])
  {
    hide PayloadOf, IsField;
    assert [chunk][..0] == [] && Concat([]) == [] && [chunk, next][..1] == [chunk];
    assert Concat([chunk, next]) == chunk + next;
    assert AreFields(cs, [c, d], [v, w], [chunk, next]);
    AcceptedIfTiled(cs, [c, d], chunk + next, [v, w]);
  }

  lemma NumberField(cs: Charset, n: sbyte)
    ensures IsField(cs, IntegerClass, IntValue(n), Word(n))
  {
  }

  lemma TextField(cs: Charset, s: string)
    requires AsciiCompatible(cs) && IsAsciiText(s) && |s| < 128
    ensures IsField(cs, StringClass, Text(s), Word(|s|) + AsciiBytes(s))
  {
    AsciiRoundTrip(cs, s);
    assert (Word(|s|) + AsciiBytes(s))[INTEGER_SIZE..] == AsciiBytes(s);
  }

  /** How a packet of parts with a known header is read. */
  lemma PartsAreParsed(
    cs: Charset, header: sbyte, raw: seq<sbyte>, check: sbyte, t: MessageType, classes: seq<FieldClass>)
    requires 9 + |raw| < 128 && (header + 9 + |raw| + TrueSum(raw) + check) % 128 == 0
    requires TypeOf(header) == Some(t) && PayloadTypes(t) == Some(classes) && classes != []
    ensures Parse(cs, Parts(header, 9 + |raw|, raw, check)) ==
              match PayloadOf(cs, classes, raw) case Ok(values) => Ok((t, values)) case Err(e) => Err(e)
  {
    hide Check, PayloadOf, TypeOf, PayloadTypes, TrueSum;
    PartsAreChecked(header, 9 + |raw|, raw, check);
    assert BytesToInt(Parts(header, 9 + |raw|, raw, check)[HEADER_POSITION..HEADER_POSITION + INTEGER_SIZE]) == header;
  }

  lemma SumOfTexts()
    ensures TrueSum([65, 66, 99, 100]) == 330 && TrueSum([66, 65]) == 131
    ensures AsciiBytes("ABcd") == [65, 66, 99, 100] && AsciiBytes("BA") == [66, 65]
  {
    SumOfFour(65, 66, 99, 100);
    hide TrueSum;
    NoSum();
    SumStep([66, 65], 0);
    SumStep([66, 65], 1);
    assert [66, 65][..0] == [] && [66, 65][..2] == [66, 65];
  }

  // ---------- the packets the tests expect to be read ----------

  lemma OkMessagesWithNumbers(cs: Charset)
    ensures Parse(cs, Parts(1, 9, [], 118)) == Ok((PARSING_TEST0, []))
    ensures Parse(cs, Parts(101, 13, Word(15), 127)) == Ok((PARSING_TEST1, [IntValue(15)]))
    ensures Parse(cs, Parts(102, 17, Word(15) + Word(25), 97)) == Ok((PARSING_TEST2, [IntValue(15), IntValue(25)]))
  {
    hide PayloadOf, Check, TrueSum;
    PartsAreChecked(1, 9, [], 118);
    NoSum();
    assert BytesToInt(Parts(1, 9, [], 118)[HEADER_POSITION..HEADER_POSITION + INTEGER_SIZE]) == 1;
    hide Word, IsField;
    SumOfWord(15);
    SumOfWord(25);
    TrueSumConcat(Word(15), Word(25));
    NumberField(cs, 15);
    NumberField(cs, 25);
    WordLength(15);
    WordLength(25);
    OneField(cs, IntegerClass, IntValue(15), Word(15));
    TwoFields(cs, IntegerClass, IntValue(15), Word(15), IntegerClass, IntValue(25), Word(25));
    PartsAreParsed(cs, 101, Word(15), 127, PARSING_TEST1, [IntegerClass]);
    PartsAreParsed(cs, 102, Word(15) + Word(25), 97, PARSING_TEST2, [IntegerClass, IntegerClass]);
  }

  lemma WordLength(b: sbyte)
    ensures |Word(b)| == 4
  {
  }

  lemma OkMessagesWithTexts(cs: Charset)
    requires AsciiCompatible(cs)
    ensures
      var text, other := Word(4) + [65, 66, 99, 100], Word(2) + [66, 65];
      && Parse(cs, Parts(103, 17, text, 58)) == Ok((PARSING_TEST3, [Text("ABcd")]))
      && Parse(cs, Parts(104, 23, text + other, 46)) == Ok((PARSING_TEST4, [Text("ABcd"), Text("BA")]))
      && Parse(cs, Parts(105, 21, text + Word(2), 50)) == Ok((PARSING_TEST5, [Text("ABcd"), IntValue(2)]))
  {
    hide PayloadOf, Check, TrueSum, Word, IsField, AsciiBytes, AsciiCompatible, Parse;
    SumOfTexts();
    var text, other := Word(4) + [65, 66, 99, 100], Word(2) + [66, 65];
    SumOfWord(4);
    SumOfWord(2);
    WordLength(4);
    WordLength(2);
    TrueSumConcat(Word(4), [65, 66, 99, 100]);
    TrueSumConcat(Word(2), [66, 65]);
    TrueSumConcat(text, other);
    TrueSumConcat(text, Word(2));
    TextField(cs, "ABcd");
    TextField(cs, "BA");
    NumberField(cs, 2);
    OneField(cs, StringClass, Text("ABcd"), text);
    TwoFields(cs, StringClass, Text("ABcd"), text, StringClass, Text("BA"), other);
    TwoFields(cs, StringClass, Text("ABcd"), text, IntegerClass, IntValue(2), Word(2));
    PartsAreParsed(cs, 103, text, 58, PARSING_TEST3, [StringClass]);
    PartsAreParsed(cs, 104, text + other, 46, PARSING_TEST4, [StringClass, StringClass]);
    PartsAreParsed(cs, 105, text + Word(2), 50, PARSING_TEST5, [StringClass, IntegerClass]);
  }

  // ---------- the packets the tests expect to be refused ----------

  /** Too short, a wrong length, a wrong checksum, an unknown header. */
  lemma BadMessages(cs: Charset)
    ensures Parse(cs, [0, 0, 0, 0, 0, 0, 0]) == Err(TooShort)
    ensures Parse(cs, Parts(1, 5, [], 115)) == Err(BadLength)
    ensures Parse(cs, Parts(1, 9, [], 100)) == Err(BadCheckSum)
    ensures Parse(cs, Parts(99, 9, [], 20)) == Err(BadHeader)
  {
    hide TrueSum, RunSum;
    NoSum();
    PartsAreChecked(1, 5, [], 115);
    PartsAreChecked(1, 9, [], 100);
    PartsAreChecked(99, 9, [], 20);
  }

  /** A text that claims to be longer or shorter than what is left. */
  lemma BadPayloads(cs: Charset)
    ensures Parse(cs, Parts(103, 17, Word(6) + [65, 66, 99, 100], 56)) == Err(BadPayloadLength)
    ensures Parse(cs, Parts(103, 17, Word(2) + [65, 66, 99, 100], 60)) == Err(BadPayloadLength)
  {
    SumOfTexts();
    SumOfWord(6);
    SumOfWord(2);
    TrueSumConcat(Word(6), [65, 66, 99, 100]);
    TrueSumConcat(Word(2), [65, 66, 99, 100]);
    TextMisses(cs, 6, [65, 66, 99, 100]);
    TextMisses(cs, 2, [65, 66, 99, 100]);
    WordLength(6);
    WordLength(2);
    hide PayloadOf, Check, TrueSum, Word, Parse;
    PartsAreParsed(cs, 103, Word(6) + [65, 66, 99, 100], 56, PARSING_TEST3, [StringClass]);
    PartsAreParsed(cs, 103, Word(2) + [65, 66, 99, 100], 60, PARSING_TEST3, [StringClass]);
  }

  /** A text field whose length is not that of the text is refused: as a wrong length, or, if negative, as an illegal
      range. */
  lemma TextMisses(cs: Charset, length: sbyte, text: seq<sbyte>)
    requires length as int != |text|
    ensures PayloadOf(cs, [StringClass], Word(length) + text)
         == Err(if length < 0 then IllegalArgument else BadPayloadLength)
  {
    var bytes := Word(length) + text;
    assert CopyOfRange(bytes, 0, 4).value == Word(length);
    assert ReadFields(cs, [StringClass], 0, bytes) == Ok(Progress([], 0));
  }

  // ---------- writing them again ----------

  /** Bytes that are not negative add up to what the running remainder says. */
  lemma {:induction false} RunSumOfPlain(bytes: seq<sbyte>)
    requires IsAscii(bytes)
    ensures RunSum(0, bytes) == TrueSum(bytes) % 128 && TrueSum(bytes) >= 0
  {
    if bytes != [] {
      var init, last := bytes[..|bytes| - 1], bytes[|bytes| - 1];
      RunSumOfPlain(init);
      ModSum(TrueSum(init) % 128, TrueSum(init), last);
    }
  }

  /** The checksum byte written behind bytes that are not negative is what is missing to the next multiple of 128. */
  lemma ChecksumOfPlain(bytes: seq<sbyte>, check: sbyte)
    requires IsAscii(bytes) && 0 < check < 128 && TrueSum(bytes) % 128 == 128 - check
    ensures ChecksumByte(bytes) == check
  {
    hide RunSum, TrueSum, IsAscii;
    RunSumOfPlain(bytes);
  }

  lemma SumOfWords(h: sbyte, length: sbyte, raw: seq<sbyte>)
    ensures TrueSum(Word(h) + Word(length) + raw) == h + length + TrueSum(raw)
  {
    hide TrueSum, Word;
    TrueSumConcat(Word(h) + Word(length), raw);
    TrueSumConcat(Word(h), Word(length));
    SumOfWord(h);
    SumOfWord(length);
  }

  lemma WordsArePlain(h: sbyte, length: sbyte, raw: seq<sbyte>)
    requires h >= 0 && length >= 0 && IsAscii(raw)
    ensures IsAscii(Word(h) + Word(length) + raw)
  {
    var words := Word(h) + Word(length);
    assert IsAscii(words);
  }

  lemma FrontIsWords(t: MessageType, raw: seq<sbyte>)
    requires 9 + |raw| < 128
    ensures Front(t, raw) == Word(HeaderId(t)) + Word(9 + |raw|) + raw
  {
  }

  /** A message is written as its parts: the number of its type, the length, the fields, the checksum. */
  lemma MessageIsWritten(cs: Charset, t: MessageType, payload: seq<Value>, raw: seq<sbyte>, check: sbyte)
    requires BytesOf(cs, PayloadTypes(t), payload) == Ok(raw)
    requires 9 + |raw| < 128 && IsAscii(raw)
    requires 0 < check < 128 && (HeaderId(t) + 9 + |raw| + TrueSum(raw)) % 128 == 128 - check
    ensures Serialized(cs, t, payload) == Ok(Parts(HeaderId(t), 9 + |raw|, raw, check))
  {
    var h, length := HeaderId(t), 9 + |raw|;
    assert 0 <= h < 128;
    hide TrueSum, ChecksumByte, BytesOf, Front, Word, IsAscii, HeaderId, PayloadTypes;
    FrontIsWords(t, raw);
    SumOfWords(h, length, raw);
    WordsArePlain(h, length, raw);
    ChecksumOfPlain(Word(h) + Word(length) + raw, check);
  }

  /** An empty message of type 1, byte by byte. */
  lemma EmptyMessageIsWritten(cs: Charset)
    ensures Serialized(cs, PARSING_TEST0, []) == Ok(Parts(1, 9, [], 118))
  {
    NoSum();
    hide TrueSum, Serialized, Parts;
    MessageIsWritten(cs, PARSING_TEST0, [], [], 118);
  }

  lemma TextAndNumberBytes(cs: Charset)
    requires AsciiCompatible(cs)
    ensures BytesOf(cs, Some([StringClass, IntegerClass]), [Text("ABcd"), IntValue(2)])
         == Ok(Word(4) + [65, 66, 99, 100] + Word(2))
  {
    SumOfTexts();
    assert IsAsciiText("ABcd") && cs.encode("ABcd") == AsciiBytes("ABcd");
    assert FieldBytes(cs, Text("ABcd")) == Word(4) + [65, 66, 99, 100];
    assert FieldBytes(cs, IntValue(2)) == Word(2);
    assert Matches([StringClass, IntegerClass], [Text("ABcd"), IntValue(2)]);
    hide FieldsBytes, FieldBytes, AsciiCompatible, Matches, Word;
    NoFieldsNoBytes(cs);
    FieldsBytesOneMore(cs, [], Text("ABcd"));
    FieldsBytesOneMore(cs, [Text("ABcd")], IntValue(2));
    assert [] + [Text("ABcd")] == [Text("ABcd")] && [Text("ABcd")] + [IntValue(2)] == [Text("ABcd"), IntValue(2)];
    assert [] + FieldBytes(cs, Text("ABcd")) == FieldBytes(cs, Text("ABcd"));
  }

  lemma TextAndNumberSum()
    ensures
      var raw := Word(4) + [65, 66, 99, 100] + Word(2);
      |raw| == 12 && IsAscii(raw) && TrueSum(raw) == 336
  {
    hide TrueSum;
    SumOfTexts();
    SumOfWord(4);
    SumOfWord(2);
    TrueSumConcat(Word(4), [65, 66, 99, 100]);
    TrueSumConcat(Word(4) + [65, 66, 99, 100], Word(2));
  }

  /** A text and a number, byte by byte. */
  lemma TextAndNumberAreWritten(cs: Charset)
    requires AsciiCompatible(cs)
    ensures Serialized(cs, PARSING_TEST5, [Text("ABcd"), IntValue(2)])
         == Ok(Parts(105, 21, Word(4) + [65, 66, 99, 100] + Word(2), 50))
  {
    hide TrueSum, Serialized, Parts, BytesOf, AsciiCompatible, Word, IsAscii;
    TextAndNumberSum();
    TextAndNumberBytes(cs);
    MessageIsWritten(cs, PARSING_TEST5, [Text("ABcd"), IntValue(2)], Word(4) + [65, 66, 99, 100] + Word(2), 50);
  }
}
