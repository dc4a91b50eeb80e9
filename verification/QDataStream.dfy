/** The legacy stream format: blocks of length-prefixed strings in big-endian UTF-16. */
module QDataStream {
  import opened Options

  type Byte = n: int | 0 <= n < 256

  datatype Error =
    ValueError | AssertionError | StructError | AttributeError | TypeError | IncompleteReadError | DisconnectedError

  // ----- UTF-16BE, section 2 of RFC 2781

  function Unit(n: int): seq<Byte>
    requires 0 <= n < 0x10000
  {
    [n / 256, n % 256]
  }

  function UnitAt(b: seq<Byte>, i: nat): (n: nat)
    requires i + 2 <= |b|
    ensures n < 0x10000
  {
    256 * (b[i] as int) + (b[i + 1] as int)
  }

  lemma {:induction false} UnitOf(b: seq<Byte>, i: nat)
    requires i + 2 <= |b|
    ensures Unit(UnitAt(b, i)) == b[i..i + 2]
  {}

  /** One code unit, or a surrogate pair for characters beyond the basic plane. */
  function EncodeChar(c: char): (b: seq<Byte>)
    ensures |b| == 2 || |b| == 4
  {
    var n := c as int;
    if n < 0x10000 then Unit(n)
    else Unit(0xD800 + (n - 0x10000) / 0x400) + Unit(0xDC00 + (n - 0x10000) % 0x400)
  }

  function Encode(s: string): seq<Byte> {
    if s == "" then [] else EncodeChar(s[0]) + Encode(s[1..])
  }

  /** Fails on half a unit and on a surrogate without its partner. */
  function Decode(b: seq<Byte>): Option<string>
    decreases |b|
  {
    if b == [] then Some("")
    else if |b| == 1 then None
    else
      var n := UnitAt(b, 0);
      if n < 0xD800 || n >= 0xE000 then
        var rest := Decode(b[2..]);
        if rest.None? then None else Some([n as char] + rest.value)
      else if n >= 0xDC00 || |b| < 4 then None
      else
        var m := UnitAt(b, 2);
        if m < 0xDC00 || m >= 0xE000 then None
        else
          var rest := Decode(b[4..]);
          if rest.None? then None else Some([(0x10000 + (n - 0xD800) * 0x400 + (m - 0xDC00)) as char] + rest.value)
  }

  /** Every string can be read back. */
  lemma {:induction false} EncodeDecode(s: string)
    ensures Decode(Encode(s)) == Some(s)
    decreases |s|
  {
    if s != "" {
      EncodeDecode(s[1..]);
      assert s == [s[0]] + s[1..];
    }
  }

  /** Every byte string that can be read is the encoding of what was read. */
  lemma {:induction false} DecodeEncode(b: seq<Byte>)
    requires Decode(b).Some?
    ensures Encode(Decode(b).value) == b
    decreases |b|
  {
    if b != [] {
      var n := UnitAt(b, 0);
      UnitOf(b, 0);
      if n < 0xD800 || n >= 0xE000 {
        DecodeEncode(b[2..]);
        assert b == b[0..2] + b[2..];
      } else {
        var m := UnitAt(b, 2);
        UnitOf(b, 2);
        var k := (n - 0xD800) * 0x400 + (m - 0xDC00);
        DecodeEncode(b[4..]);
        assert k / 0x400 == n - 0xD800 && k % 0x400 == m - 0xDC00;
        assert b == b[0..2] + b[2..4] + b[4..];
      }
    }
  }

  /** The examples of the standard: a plain character, and U+12345 as the surrogate pair D808 DF45. */
  lemma {:induction false} EncodeExamples()
    ensures Encode("=") == [0x00, 0x3D]
    ensures Encode("\U{12345}") == [0xD8, 0x08, 0xDF, 0x45]
    ensures Decode([0xD8, 0x08]).None? && Decode([0xDF, 0x45]).None? && Decode([0x00]).None?
  {
    assert "=" == ['='] + "" && "\U{12345}" == ['\U{12345}'] + "";
  }

  // ----- Lengths

  function Length(n: int): (b: seq<Byte>)
    requires 0 <= n < 0x1_0000_0000
    ensures |b| == 4
  {
    Unit(n / 0x1_0000) + Unit(n % 0x1_0000)
  }

  function ReadLength(b: seq<Byte>): (n: nat)
    requires |b| == 4
    ensures n < 0x1_0000_0000
  {
    0x1_0000 * UnitAt(b, 0) + UnitAt(b, 2)
  }

  lemma {:induction false} LengthRoundTrip(n: int)
    requires 0 <= n < 0x1_0000_0000
    ensures ReadLength(Length(n)) == n
  {
    var high, low := n / 0x1_0000, n % 0x1_0000;
    assert [] + Unit(high) + Unit(low) == Unit(high) + Unit(low) + [] == Length(n);
  }

  // ----- Strings and blocks

  /** The length is packed as a signed number. */
  function PackQString(message: string): Result<seq<Byte>, Error> {
    var encoded := Encode(message);
    if |encoded| >= 0x8000_0000 then Err(StructError) else Ok(Length(|encoded|) + encoded)
  }

  function ReadQString(buffer: seq<Byte>, pos: nat): (r: Result<(nat, string), Error>)
    ensures r.Ok? ==> pos + 4 <= r.value.0 <= |buffer|
  {
    if pos + 4 > |buffer| then Err(AssertionError)
    else
      var size := ReadLength(buffer[pos..pos + 4]);
      if |buffer| - pos - 4 < size then Err(ValueError)
      else
        var message := Decode(buffer[pos + 4..pos + 4 + size]);
        if message.None? then Err(ValueError) else Ok((size + pos + 4, message.value))
  }

  /** A packed string is read back from wherever it stands. */
  lemma {:induction false} QStringRoundTrip(before: seq<Byte>, message: string, after: seq<Byte>)
    requires PackQString(message).Ok?
    ensures var packed := PackQString(message).value;
      ReadQString(before + packed + after, |before|) == Ok((|before| + |packed|, message))
  {
    hide Encode, Decode, Length, ReadLength;
    var encoded, packed := Encode(message), PackQString(message).value;
    var buffer := before + packed + after;
    LengthRoundTrip(|encoded|);
    EncodeDecode(message);
    assert buffer[|before|..|before| + 4] == Length(|encoded|);
    assert buffer[|before| + 4..|before| + 4 + |encoded|] == encoded;
  }

  lemma {:induction false} LengthOf(b: seq<Byte>)
    requires |b| == 4
    ensures Length(ReadLength(b)) == b
  {
    var high, low := UnitAt(b, 0), UnitAt(b, 2);
    UnitOf(b, 0);
    UnitOf(b, 2);
    hide UnitAt, Unit;
    assert ReadLength(b) / 0x1_0000 == high && ReadLength(b) % 0x1_0000 == low;
    assert b == b[0..2] + b[2..4];
  }

  /** Whatever can be read is a packed string: its length, and the encoding of the message. */
  lemma {:induction false} ReadsPacked(buffer: seq<Byte>, pos: nat)
    requires ReadQString(buffer, pos).Ok?
    ensures var (next, message) := ReadQString(buffer, pos).value;
      && |Encode(message)| < 0x1_0000_0000
      && buffer[pos..next] == Length(|Encode(message)|) + Encode(message)
  {
    var (next, message) := ReadQString(buffer, pos).value;
    LengthOf(buffer[pos..pos + 4]);
    DecodeEncode(buffer[pos + 4..next]);
    assert buffer[pos..next] == buffer[pos..pos + 4] + buffer[pos + 4..next];
  }

  function PackAll(messages: seq<string>): Result<seq<Byte>, Error> {
    if messages == [] then Ok([])
    else
      var n := |messages| - 1;
      var before, last := PackAll(messages[..n]), PackQString(messages[n]);
      if before.Err? then before else if last.Err? then last else Ok(before.value + last.value)
  }

  function PackBlock(block: seq<Byte>): Result<seq<Byte>, Error> {
    if |block| >= 0x1_0000_0000 then Err(StructError) else Ok(Length(|block|) + block)
  }

  /** What a reader of a block gets, and whether it ends with an error. */
  datatype Parts = Parts(messages: seq<string>, failed: bool)

  function ReadFrom(data: seq<Byte>, pos: nat): Parts
    decreases |data| - pos
  {
    if |data| <= pos + 4 then Parts([], false)
    else
      var r := ReadQString(data, pos);
      if r.Err? then Parts([], true)
      else
        var rest := ReadFrom(data, r.value.0);
        Parts([r.value.1] + rest.messages, rest.failed)
  }

  function ReadBlockParts(data: seq<Byte>): Parts {
    ReadFrom(data, 0)
  }

  method PackMessage(messages: seq<string>) returns (r: Result<seq<Byte>, Error>)
    ensures r == if PackAll(messages).Err? then PackAll(messages) else PackBlock(PackAll(messages).value)
  {
    var msg: seq<Byte> := [];
    for i := 0 to |messages|
      invariant PackAll(messages[..i]) == Ok(msg)
    {
      assert messages[..i + 1][..i] == messages[..i];
      var packed := PackQString(messages[i]);
      if packed.Err? {
        PackFails(messages, i + 1);
        return packed;
      }
      msg := msg + packed.value;
    }
    assert messages[..|messages|] == messages;
    r := PackBlock(msg);
  }

  lemma {:induction false} PackFails(messages: seq<string>, i: nat)
    requires i <= |messages| && PackAll(messages[..i]).Err?
    ensures PackAll(messages) == PackAll(messages[..i])
    decreases |messages| - i
  {
    if i < |messages| {
      assert messages[..i + 1][..i] == messages[..i];
      PackFails(messages, i + 1);
    } else {
      assert messages[..i] == messages;
    }
  }

  method ReadBlock(data: seq<Byte>) returns (parts: Parts)
    ensures parts == ReadBlockParts(data)
  {
    var pos, messages := 0, [];
    while |data| > pos + 4
      invariant ReadBlockParts(data) == Parts(messages + ReadFrom(data, pos).messages, ReadFrom(data, pos).failed)
      decreases |data| - pos
    {
      var r := ReadQString(data, pos);
      if r.Err? {
        assert messages + [] == messages;
        return Parts(messages, true);
      }
      assert messages + ([r.value.1] + ReadFrom(data, r.value.0).messages)
          == messages + [r.value.1] + ReadFrom(data, r.value.0).messages;
      pos, messages := r.value.0, messages + [r.value.1];
    }
    assert messages + [] == messages;
    parts := Parts(messages, false);
  }

  /** A list without its last element, if that is an empty string. */
  function WithoutLastEmpty(messages: seq<string>): seq<string> {
    if messages != [] && messages[|messages| - 1] == "" then messages[..|messages| - 1] else messages
  }

  lemma {:induction false} PackAllCons(first: string, rest: seq<string>)
    requires PackAll([first] + rest).Ok?
    ensures PackQString(first).Ok? && PackAll(rest).Ok?
    ensures PackAll([first] + rest).value == PackQString(first).value + PackAll(rest).value
    decreases |rest|
  {
    hide PackQString;
    var all := [first] + rest;
    if rest == [] {
      assert all[..0] == [] && all == [first];
      assert PackAll(all[..0]) == Ok([]);
      assert [] + PackQString(first).value == PackQString(first).value == PackQString(first).value + [];
    } else {
      var n := |rest| - 1;
      assert all[..n + 1] == [first] + rest[..n] && all[n + 1] == rest[n];
      PackAllCons(first, rest[..n]);
      var a, b, c := PackQString(first).value, PackAll(rest[..n]).value, PackQString(rest[n]).value;
      assert (a + b) + c == a + (b + c);
    }
  }

  lemma {:induction false} ReadStep(buffer: seq<Byte>, pos: nat, next: nat, message: string)
    requires |buffer| > pos + 4 && ReadQString(buffer, pos) == Ok((next, message))
    ensures ReadFrom(buffer, pos) == Parts([message] + ReadFrom(buffer, next).messages, ReadFrom(buffer, next).failed)
  {
    hide ReadQString;
  }

  /** Reading one packed string and then the rest. */
  lemma {:induction false} ReadNext(before: seq<Byte>, message: string, after: seq<Byte>)
    requires PackQString(message).Ok? && |PackQString(message).value| + |after| > 4
    ensures var packed := PackQString(message).value;
      var rest := ReadFrom(before + packed + after, |before + packed|);
      ReadFrom(before + (packed + after), |before|) == Parts([message] + rest.messages, rest.failed)
  {
    hide PackQString, ReadQString, ReadFrom;
    var packed := PackQString(message).value;
    var buffer := before + packed + after;
    QStringRoundTrip(before, message, after);
    ReadStep(buffer, |before|, |before + packed|, message);
    assert before + (packed + after) == buffer;
  }

  /** Reading packed strings from where they start gives them back, except for one empty string at the end. */
  lemma {:induction false} ReadPacked(before: seq<Byte>, messages: seq<string>)
    requires PackAll(messages).Ok?
    ensures ReadFrom(before + PackAll(messages).value, |before|) == Parts(WithoutLastEmpty(messages), false)
    decreases |messages|
  {
    if messages == [] {
      assert PackAll(messages) == Ok([]) && before + [] == before;
    } else {
      var first, rest := messages[0], messages[1..];
      assert messages == [first] + rest;
      PackAllCons(first, rest);
      hide PackAll, PackQString, ReadFrom, WithoutLastEmpty;
      var packed, after := PackQString(first).value, PackAll(rest).value;
      if |packed| + |after| > 4 {
        ReadNext(before, first, after);
        ReadPacked(before + packed, rest);
      } else {
        assert WithoutLastEmpty([""] + []) == [];
      }
    }
  }

  /** A block is read back as it was packed, except that one empty string at its end is lost. */
  lemma {:induction false} BlockRoundTrip(messages: seq<string>)
    requires PackAll(messages).Ok?
    ensures ReadBlockParts(PackAll(messages).value) == Parts(WithoutLastEmpty(messages), false)
    ensures ReadBlockParts(PackAll(messages).value).messages == messages
      <==> (messages == [] || messages[|messages| - 1] != "")
  {
    hide PackAll, ReadFrom;
    ReadPacked([], messages);
    assert [] + PackAll(messages).value == PackAll(messages).value;
  }
}
