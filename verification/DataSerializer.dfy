/** The client's payload codec: declared fields to and from bytes. */
module DataSerializers {
  import opened Wrappers
  import opened JavaBase

  const INTEGER_SIZE := 4

  datatype FieldClass = IntegerClass | StringClass

  datatype Value = IntValue(n: jint) | Text(s: string)

  predicate IsA(c: FieldClass, v: Value) {
    (c == IntegerClass && v.IntValue?) || (c == StringClass && v.Text?)
  }

  /** Only the lowest byte is looked at. */
  function BytesToInt(bytes: seq<sbyte>): sbyte
    requires |bytes| == INTEGER_SIZE
  {
    bytes[3]
  }

  /** Only the lowest byte is written. */
  function IntToBytes(value: int): (bytes: seq<sbyte>)
    ensures |bytes| == INTEGER_SIZE
  {
    [0, 0, 0, ToByte(value)]
  }

  // ---------- reading ----------

  datatype Progress = Progress(list: seq<Value>, pointer: nat)

  /** One field read at a pointer. */
  function ReadField(cs: Charset, c: FieldClass, bytes: seq<sbyte>, pointer: nat): Result<(Value, nat)> {
    var word := CopyOfRange(bytes, pointer, pointer + INTEGER_SIZE);
    if word.Err? then Err(word.error)
    else
      var number := BytesToInt(word.value);
      if c == IntegerClass then Ok((IntValue(number), pointer + INTEGER_SIZE))
      else
        var start := pointer + INTEGER_SIZE;
        var chars := CopyOfRange(bytes, start, start + number);
        if chars.Err? then Err(chars.error) else Ok((Text(cs.decode(chars.value)), start + number))
  }

  /** The first `n` fields. */
  function ReadFields(cs: Charset, classes: seq<FieldClass>, n: nat, bytes: seq<sbyte>): Result<Progress>
    requires n <= |classes|
  {
    if n == 0 then Ok(Progress([], 0))
    else
      var before := ReadFields(cs, classes, n - 1, bytes);
      if before.Err? then before
      else
        var field := ReadField(cs, classes[n - 1], bytes, before.value.pointer);
        if field.Err? then Err(field.error)
        else Ok(Progress(before.value.list + [field.value.0], field.value.1))
  }

  /** All fields, if they use up the bytes exactly; running off the array counts as a wrong length. */
  function PayloadOf(cs: Charset, classes: seq<FieldClass>, bytes: seq<sbyte>): Result<seq<Value>> {
    var r := ReadFields(cs, classes, |classes|, bytes);
    if r.Err? then Err(if r.error == IndexOutOfBounds then BadPayloadLength else r.error)
    else if r.value.pointer != |bytes| then Err(BadPayloadLength)
    else Ok(r.value.list)
  }

  /** A chunk of bytes that is one field: four bytes, in a text followed by as many as the fourth says. */
  predicate IsField(cs: Charset, c: FieldClass, v: Value, chunk: seq<sbyte>) {
    match c
    case IntegerClass => |chunk| == INTEGER_SIZE && v == IntValue(chunk[3])
    case StringClass =>
      |chunk| >= INTEGER_SIZE && |chunk| == INTEGER_SIZE + chunk[3] && v == Text(cs.decode(chunk[INTEGER_SIZE..]))
  }

  predicate AreFields(cs: Charset, classes: seq<FieldClass>, values: seq<Value>, chunks: seq<seq<sbyte>>) {
    && |classes| == |values| == |chunks|
    && forall k :: 0 <= k < |classes| ==> IsField(cs, classes[k], values[k], chunks[k])
  }

  function Concat(chunks: seq<seq<sbyte>>): seq<sbyte> {
    if chunks == [] then [] else Concat(chunks[..|chunks| - 1]) + chunks[|chunks| - 1]
  }

  lemma ConcatOneMore(chunks: seq<seq<sbyte>>, chunk: seq<sbyte>)
    ensures Concat(chunks + [chunk]) == Concat(chunks) + chunk
  {
    assert (chunks + [chunk])[..|chunks|] == chunks;
  }

  /** The fields cover the bytes without gap or overlap. */
  ghost predicate Tiled(cs: Charset, classes: seq<FieldClass>, values: seq<Value>, bytes: seq<sbyte>) {
    exists chunks :: AreFields(cs, classes, values, chunks) && Concat(chunks) == bytes
  }

  /** A field that ends within the bytes is the chunk of bytes it was read from: no padding is in it. */
  lemma ReadFieldIsChunk(cs: Charset, c: FieldClass, bytes: seq<sbyte>, pointer: nat)
    requires ReadField(cs, c, bytes, pointer).Ok?
    ensures var (v, end) := ReadField(cs, c, bytes, pointer).value;
            && pointer < end && (end <= |bytes| ==> IsField(cs, c, v, bytes[pointer..end]))
  {
    var (v, end) := ReadField(cs, c, bytes, pointer).value;
    if end <= |bytes| && c == StringClass {
      var chars := CopyOfRange(bytes, pointer + INTEGER_SIZE, end).value;
      assert chars == bytes[pointer..end][INTEGER_SIZE..];
    }
  }

  /** A chunk that is a field is read as that field. */
  lemma ChunkIsRead(cs: Charset, c: FieldClass, v: Value, bytes: seq<sbyte>, pointer: nat, end: nat)
    requires pointer <= end <= |bytes| && IsField(cs, c, v, bytes[pointer..end])
    ensures ReadField(cs, c, bytes, pointer) == Ok((v, end))
  {
    if c == StringClass {
      assert CopyOfRange(bytes, pointer + INTEGER_SIZE, end).value == bytes[pointer..end][INTEGER_SIZE..];
    }
  }

  /** Fields read so far, if they end within the bytes, are chunks of what has been read. */
  lemma {:induction false} ReadFieldsAreChunks(cs: Charset, classes: seq<FieldClass>, n: nat, bytes: seq<sbyte>)
    returns (chunks: seq<seq<sbyte>>)
    requires n <= |classes| && ReadFields(cs, classes, n, bytes).Ok?
    requires ReadFields(cs, classes, n, bytes).value.pointer <= |bytes|
    ensures var r := ReadFields(cs, classes, n, bytes).value;
            AreFields(cs, classes[..n], r.list, chunks) && Concat(chunks) == bytes[..r.pointer]
  {
    hide ReadField, IsField;
    if n == 0 {
      chunks := [];
    } else {
      var before := ReadFields(cs, classes, n - 1, bytes).value;
      var end := ReadFields(cs, classes, n, bytes).value.pointer;
      ReadFieldIsChunk(cs, classes[n - 1], bytes, before.pointer);
      var init := ReadFieldsAreChunks(cs, classes, n - 1, bytes);
      var chunk := bytes[before.pointer..end];
      chunks := init + [chunk];
      ConcatOneMore(init, chunk);
      assert bytes[..before.pointer] + chunk == bytes[..end];
    }
  }

  /** Chunks that are fields are read one by one. */
  lemma {:induction false} ChunksAreRead(
    cs: Charset, classes: seq<FieldClass>, values: seq<Value>, chunks: seq<seq<sbyte>>, n: nat, bytes: seq<sbyte>)
    requires AreFields(cs, classes, values, chunks) && n <= |classes|
    requires Concat(chunks[..n]) <= bytes
    ensures ReadFields(cs, classes, n, bytes) == Ok(Progress(values[..n], |Concat(chunks[..n])|))
  {
    hide ReadField, IsField;
    if n == 0 {
      assert chunks[..0] == [];
    } else {
      var before := Concat(chunks[..n - 1]);
      assert chunks[..n] == chunks[..n - 1] + [chunks[n - 1]];
      ConcatOneMore(chunks[..n - 1], chunks[n - 1]);
      var end := |before| + |chunks[n - 1]|;
      assert bytes[..end] == before + chunks[n - 1];
      assert before == bytes[..end][..|before|];
      assert bytes[|before|..end] == bytes[..end][|before|..] == chunks[n - 1];
      assert values[..n - 1] + [values[n - 1]] == values[..n];
      ChunksAreRead(cs, classes, values, chunks, n - 1, bytes);
      ChunkIsRead(cs, classes[n - 1], values[n - 1], bytes, |before|, end);
    }
  }

  /** Bytes are accepted with certain values exactly when fields with these values cover them: a text running past
      the end, missing bytes and left-over bytes are all rejected, and padding never shows in a value. */
  lemma AcceptedIfTiled(cs: Charset, classes: seq<FieldClass>, bytes: seq<sbyte>, values: seq<Value>)
    ensures PayloadOf(cs, classes, bytes) == Ok(values) <==> Tiled(cs, classes, values, bytes)
  {
    if PayloadOf(cs, classes, bytes) == Ok(values) {
      var chunks := ReadFieldsAreChunks(cs, classes, |classes|, bytes);
      assert classes[..|classes|] == classes && bytes[..|bytes|] == bytes;
    }
    if Tiled(cs, classes, values, bytes) {
      var chunks :| AreFields(cs, classes, values, chunks) && Concat(chunks) == bytes;
      assert chunks[..|classes|] == chunks && values[..|classes|] == values;
      ChunksAreRead(cs, classes, values, chunks, |classes|, bytes);
    }
  }

  /** Bytes are refused as of a wrong length, or, when a text claims a negative length, as an illegal range. */
  lemma {:induction false} RefusedHow(cs: Charset, classes: seq<FieldClass>, n: nat, bytes: seq<sbyte>)
    requires n <= |classes| && ReadFields(cs, classes, n, bytes).Err?
    ensures
      var e := ReadFields(cs, classes, n, bytes).error;
      || e == IndexOutOfBounds
      || (e == IllegalArgument
          && exists k :: 0 <= k < n && classes[k] == StringClass && ReadFields(cs, classes, k, bytes).Ok?
               && HasNegativeLength(bytes, ReadFields(cs, classes, k, bytes).value.pointer))
  {
    hide HasNegativeLength;
    if ReadFields(cs, classes, n - 1, bytes).Err? {
      RefusedHow(cs, classes, n - 1, bytes);
    } else {
      FieldRefusedHow(cs, classes[n - 1], bytes, ReadFields(cs, classes, n - 1, bytes).value.pointer);
    }
  }

  /** The fourth byte from here on is negative. */
  predicate HasNegativeLength(bytes: seq<sbyte>, at: nat) {
    at + 3 < |bytes| && bytes[at + 3] < 0
  }

  lemma FieldRefusedHow(cs: Charset, c: FieldClass, bytes: seq<sbyte>, at: nat)
    requires ReadField(cs, c, bytes, at).Err?
    ensures
      var e := ReadField(cs, c, bytes, at).error;
      e == IndexOutOfBounds || (e == IllegalArgument && c == StringClass && HasNegativeLength(bytes, at))
  {
  }

  // ---------- writing ----------

  function FieldBytes(cs: Charset, v: Value): seq<sbyte> {
    match v
    case IntValue(n) => IntToBytes(n)
    case Text(s) => IntToBytes(|s|) + cs.encode(s)
  }

  function FieldsBytes(cs: Charset, values: seq<Value>): seq<sbyte> {
    if values == [] then [] else FieldsBytes(cs, values[..|values| - 1]) + FieldBytes(cs, values[|values| - 1])
  }

  /** The values are of the declared classes. */
  predicate Matches(classes: seq<FieldClass>, values: seq<Value>) {
    |classes| == |values| && forall k :: 0 <= k < |classes| ==> IsA(classes[k], values[k])
  }

  /** The bytes of a payload, for a type without fields none whatever the payload is. */
  function BytesOf(cs: Charset, classes: Option<seq<FieldClass>>, payload: seq<Value>): Result<seq<sbyte>> {
    if classes.None? then Ok([])
    else if |classes.value| != |payload| then Err(BadPayloadLength)
    else if !Matches(classes.value, payload) then Err(BadPayloadType)
    else Ok(FieldsBytes(cs, payload))
  }

  /** A wrong number of values and a value of another class are told apart; a type without fields takes anything. */
  lemma PayloadRefusedHow(cs: Charset, classes: seq<FieldClass>, payload: seq<Value>)
    ensures BytesOf(cs, None, payload) == Ok([])
    ensures |classes| != |payload| ==> BytesOf(cs, Some(classes), payload) == Err(BadPayloadLength)
    ensures |classes| == |payload| && (exists k :: 0 <= k < |classes| && !IsA(classes[k], payload[k])) ==>
              BytesOf(cs, Some(classes), payload) == Err(BadPayloadType)
  {
  }

  lemma NoFieldsNoBytes(cs: Charset)
    ensures FieldsBytes(cs, []) == []
  {
  }

  lemma FieldsBytesOneMore(cs: Charset, values: seq<Value>, v: Value)
    ensures FieldsBytes(cs, values + [v]) == FieldsBytes(cs, values) + FieldBytes(cs, v)
  {
    assert (values + [v])[..|values|] == values;
  }

  lemma PrefixBytes(cs: Charset, values: seq<Value>, i: nat)
    requires i < |values|
    ensures FieldsBytes(cs, values[..i + 1]) == FieldsBytes(cs, values[..i]) + FieldBytes(cs, values[i])
  {
    assert values[..i + 1] == values[..i] + [values[i]];
    FieldsBytesOneMore(cs, values[..i], values[i]);
  }

  /** Numbers in the range of a byte, and short ASCII texts. */
  predicate Portable(v: Value) {
    match v
    case IntValue(n) => -0x80 <= n < 0x80
    case Text(s) => IsAsciiText(s) && |s| < 0x80
  }

  function Chunks(cs: Charset, values: seq<Value>): (chunks: seq<seq<sbyte>>)
    ensures |chunks| == |values| && forall k :: 0 <= k < |values| ==> chunks[k] == FieldBytes(cs, values[k])
  {
    seq(|values|, k requires 0 <= k < |values| => FieldBytes(cs, values[k]))
  }

  lemma {:induction false} FieldsBytesIsConcat(cs: Charset, values: seq<Value>)
    ensures FieldsBytes(cs, values) == Concat(Chunks(cs, values))
  {
    if values != [] {
      FieldsBytesIsConcat(cs, values[..|values| - 1]);
      assert Chunks(cs, values)[..|values| - 1] == Chunks(cs, values[..|values| - 1]);
    }
  }

  /** What a portable value is written as is read as that value. */
  lemma PortableIsField(cs: Charset, c: FieldClass, v: Value)
    requires AsciiCompatible(cs) && IsA(c, v) && Portable(v)
    ensures IsField(cs, c, v, FieldBytes(cs, v))
  {
    if v.Text? {
      AsciiRoundTrip(cs, v.s);
      assert FieldBytes(cs, v)[INTEGER_SIZE..] == cs.encode(v.s);
    }
  }

  /** Portable payloads survive being written and read. */
  lemma PayloadRoundTrip(cs: Charset, classes: seq<FieldClass>, payload: seq<Value>)
    requires AsciiCompatible(cs) && Matches(classes, payload)
    requires forall k :: 0 <= k < |payload| ==> Portable(payload[k])
    ensures PayloadOf(cs, classes, FieldsBytes(cs, payload)) == Ok(payload)
  {
    var chunks := Chunks(cs, payload);
    forall k | 0 <= k < |classes| ensures IsField(cs, classes[k], payload[k], chunks[k]) {
      assert IsA(classes[k], payload[k]);
      PortableIsField(cs, classes[k], payload[k]);
    }
    FieldsBytesIsConcat(cs, payload);
    AcceptedIfTiled(cs, classes, FieldsBytes(cs, payload), payload);
  }

  // ---------- the codec ----------

  class DataSerializer {
    const charset: Charset

    constructor (charset: Charset)
      ensures this.charset == charset
    {
      this.charset := charset;
    }

    method BytesToPayload(classes: seq<FieldClass>, bytes: seq<sbyte>) returns (r: Result<seq<Value>>)
      ensures r == PayloadOf(charset, classes, bytes)
    {
      var list: seq<Value> := [];
      var pointer: nat := 0;
      var i := 0;
      while i < |classes|
        invariant 0 <= i <= |classes|
        invariant ReadFields(charset, classes, i, bytes) == Ok(Progress(list, pointer))
      {
        var word := CopyOfRange(bytes, pointer, pointer + INTEGER_SIZE);
        if word.Err? {
          ErrorStays(charset, classes, i + 1, |classes|, bytes);
          return Err(if word.error == IndexOutOfBounds then BadPayloadLength else word.error);
        }
        if classes[i] == IntegerClass {
          list := list + [IntValue(BytesToInt(word.value))];
          pointer := pointer + INTEGER_SIZE;
        } else {
          var len := BytesToInt(word.value);
          var chars := CopyOfRange(bytes, pointer + INTEGER_SIZE, pointer + INTEGER_SIZE + len);
          if chars.Err? {
            ErrorStays(charset, classes, i + 1, |classes|, bytes);
            return Err(if chars.error == IndexOutOfBounds then BadPayloadLength else chars.error);
          }
          pointer := pointer + INTEGER_SIZE;
          list := list + [Text(charset.decode(chars.value))];
          pointer := pointer + len;
        }
        i := i + 1;
      }
      if pointer != |bytes| {
        return Err(BadPayloadLength);
      }
      return Ok(list);
    }

    method FieldToBytes(c: FieldClass, v: Value) returns (field: seq<sbyte>)
      requires IsA(c, v)
      ensures field == FieldBytes(charset, v)
    {
      if c == StringClass {
        var value := v.s;
        field := IntToBytes(|value|);
        field := field + charset.encode(value);
      } else {
        field := IntToBytes(v.n);
      }
    }

    method PayloadToBytes(classes: Option<seq<FieldClass>>, payload: seq<Value>) returns (r: Result<seq<sbyte>>)
      ensures r == BytesOf(charset, classes, payload)
    {
      if classes.None? { return Ok([]); }
      var types := classes.value;
      if |types| != |payload| {
        return Err(BadPayloadLength);
      }
      r := AllFieldsToBytes(types, payload);
    }

    method AllFieldsToBytes(types: seq<FieldClass>, payload: seq<Value>) returns (r: Result<seq<sbyte>>)
      requires |types| == |payload|
      ensures r == if Matches(types, payload) then Ok(FieldsBytes(charset, payload)) else Err(BadPayloadType)
    {
      NoFieldsNoBytes(charset);
      hide FieldsBytes, FieldBytes;
      var byteBuilder: seq<sbyte> := [];
      var i := 0;
      while i < |types|
        invariant 0 <= i <= |types|
        invariant forall k :: 0 <= k < i ==> IsA(types[k], payload[k])
        invariant byteBuilder == FieldsBytes(charset, payload[..i])
      {
        if !IsA(types[i], payload[i]) {
          return Err(BadPayloadType);
        }
        PrefixBytes(charset, payload, i);
        var field := FieldToBytes(types[i], payload[i]);
        byteBuilder := byteBuilder + field;
        i := i + 1;
      }
      assert payload[..i] == payload;
      return Ok(byteBuilder);
    }
  }

  /** Once a field cannot be read, the rest is not looked at. */
  lemma {:induction false} ErrorStays(cs: Charset, classes: seq<FieldClass>, n: nat, end: nat, bytes: seq<sbyte>)
    requires n <= end <= |classes| && ReadFields(cs, classes, n, bytes).Err?
    ensures ReadFields(cs, classes, end, bytes) == ReadFields(cs, classes, n, bytes)
    decreases end - n
  {
    if n < end { ErrorStays(cs, classes, n, end - 1, bytes); }
  }
}
