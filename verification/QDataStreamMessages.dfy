/** Messages of the legacy stream format, and a stream of them. */
module QDataStreamMessages {
  import opened Options
  import opened QDataStream

  /** A JSON value; numbers, truth values and null are not told apart. */
  datatype Json<V> =
    | Scalar(value: V)
    | Text(text: string)
    | List(items: seq<Json<V>>)
    | Object(fields: map<string, Json<V>>)

  type Message<V> = map<string, Json<V>>

  /**
   * The JSON library, and what updating a dictionary from a list does: it takes over pairs, and fails on the first
   * element that is none.
   */
  datatype Codec<!V(==)> = Codec(
    dumps: Message<V> -> string,
    loads: string -> Option<Json<V>>,
    pairs: (Message<V>, seq<Json<V>>) -> (Message<V>, bool)
  )

  /** Objects can be written and read back, and no object is written like one of the two bare commands. */
  ghost predicate Faithful<V(!new)>(codec: Codec<V>) {
    forall m: Message<V> ::
      codec.loads(codec.dumps(m)) == Some(Object(m)) && codec.dumps(m) != "PING" && codec.dumps(m) != "PONG"
  }

  predicate HasCommand<V(==)>(m: Message<V>, command: string) {
    "command" in m && m["command"] == Text(command)
  }

  function Command<V>(command: string): Message<V> {
    map["command" := Text(command)]
  }

  /** What is sent of a message: ping and pong carry nothing but their command. */
  function Canonical<V(==)>(m: Message<V>): Message<V> {
    if HasCommand(m, "ping") then Command("ping")
    else if HasCommand(m, "pong") then Command("pong")
    else m
  }

  function Written<V(==)>(codec: Codec<V>, m: Message<V>): string {
    if HasCommand(m, "ping") then "PING"
    else if HasCommand(m, "pong") then "PONG"
    else codec.dumps(m)
  }

  function Encoded<V(==)>(codec: Codec<V>, m: Message<V>): Result<seq<Byte>, Error> {
    var packed := PackQString(Written(codec, m));
    if packed.Err? then packed else PackBlock(packed.value)
  }

  lemma {:induction false} PackOne(message: string)
    ensures PackAll([message]) == PackQString(message)
  {
    assert [message][..0] == [];
    assert PackQString(message).Ok? ==> [] + PackQString(message).value == PackQString(message).value;
  }

  method EncodeMessage<V(==)>(codec: Codec<V>, m: Message<V>) returns (r: Result<seq<Byte>, Error>)
    ensures r == Encoded(codec, m)
  {
    var text := Written(codec, m);
    PackOne(text);
    hide PackAll, PackQString;
    r := PackMessage([text]);
  }

  /** The example of the documentation: a ping as it goes over the wire. */
  lemma {:induction false} PingBytes<V>(codec: Codec<V>)
    ensures Encoded(codec, Command("ping"))
      == Ok([0x00, 0x00, 0x00, 0x0C, 0x00, 0x00, 0x00, 0x08, 0x00, 0x50, 0x00, 0x49, 0x00, 0x4E, 0x00, 0x47])
  {
    EncodePing();
    assert Length(8) == [0, 0, 0, 8] && Length(12) == [0, 0, 0, 12];
    assert Written(codec, Command("ping")) == "PING";
    var ping: seq<Byte> := [0x00, 0x50, 0x00, 0x49, 0x00, 0x4E, 0x00, 0x47];
    assert PackQString("PING") == Ok(Length(8) + ping);
    assert PackBlock(Length(8) + ping) == Ok(Length(12) + (Length(8) + ping));
    hide Length, PackQString, PackBlock, Written, Encode;
    assert Length(12) + (Length(8) + ping)
        == [0x00, 0x00, 0x00, 0x0C, 0x00, 0x00, 0x00, 0x08, 0x00, 0x50, 0x00, 0x49, 0x00, 0x4E, 0x00, 0x47];
  }

  lemma {:induction false} EncodePing()
    ensures Encode("PING") == [0x00, 0x50, 0x00, 0x49, 0x00, 0x4E, 0x00, 0x47]
  {
    assert "PING" == ['P'] + "ING" && "ING" == ['I'] + "NG" && "NG" == ['N'] + "G" && "G" == ['G'] + "";
  }

  // ----- Decoding

  /** A part that cannot be used is kept as text, which only dictionaries can do. */
  function Legacy<V>(message: Json<V>, part: string): Result<Json<V>, Error> {
    if !message.Object? then Err(TypeError)
    else
      var kept := if "legacy" in message.fields then message.fields["legacy"] else List([]);
      if kept.List? then Ok(Object(message.fields["legacy" := List(kept.items + [Text(part)])]))
      else Err(AttributeError)
  }

  /** One more part of a block. */
  function AddPart<V(==)>(codec: Codec<V>, action: string, message: Json<V>, part: string): Result<Json<V>, Error> {
    var json := codec.loads(part);
    if json.None? then Legacy(message, part)
    else if part == action then Ok(message)
    else if !message.Object? then Err(AttributeError)
    else
      match json.value
      case Object(fields) => Ok(Object(message.fields + fields))
      case List(items) =>
        var (updated, done) := if items == [] then (message.fields, true) else codec.pairs(message.fields, items);
        if done then Ok(Object(updated)) else Legacy(Object(updated), part)
      case Text(text) => if text == "" then Ok(message) else Legacy(message, part)
      case Scalar(_) => Legacy(message, part)
  }

  function AddParts<V(==)>(codec: Codec<V>, action: string, message: Json<V>, parts: seq<string>):
    Result<Json<V>, Error>
  {
    if parts == [] then Ok(message)
    else
      var n := |parts| - 1;
      var before := AddParts(codec, action, message, parts[..n]);
      if before.Err? then before else AddPart(codec, action, before.value, parts[n])
  }

  function Decoded<V(==)>(codec: Codec<V>, data: seq<Byte>): Result<Json<V>, Error> {
    var first := ReadQString(data, 0);
    if first.Err? then Err(first.error)
    else
      var action := first.value.1;
      if action == "PING" then Ok(Object(Command("ping")))
      else if action == "PONG" then Ok(Object(Command("pong")))
      else
        var json := codec.loads(action);
        if json.None? then Err(ValueError) else AddParts(codec, action, json.value, ReadBlockParts(data).messages)
  }

  method DecodeMessage<V(==)>(codec: Codec<V>, data: seq<Byte>) returns (r: Result<Json<V>, Error>)
    ensures r == Decoded(codec, data)
  {
    var first := ReadQString(data, 0);
    if first.Err? {
      return Err(first.error);
    }
    var action := first.value.1;
    if action == "PING" {
      return Ok(Object(Command("ping")));
    }
    if action == "PONG" {
      return Ok(Object(Command("pong")));
    }
    var json := codec.loads(action);
    if json.None? {
      return Err(ValueError);
    }
    var message := json.value;
    var parts := ReadBlock(data);
    for i := 0 to |parts.messages|
      invariant Ok(message) == AddParts(codec, action, json.value, parts.messages[..i])
    {
      assert parts.messages[..i + 1][..i] == parts.messages[..i];
      var added := AddPart(codec, action, message, parts.messages[i]);
      if added.Err? {
        PartFails(codec, action, json.value, parts.messages, i + 1);
        return added;
      }
      message := added.value;
    }
    assert parts.messages[..|parts.messages|] == parts.messages;
    return Ok(message);
  }

  lemma {:induction false} PartFails<V>(codec: Codec<V>, action: string, message: Json<V>, parts: seq<string>, i: nat)
    requires i <= |parts| && AddParts(codec, action, message, parts[..i]).Err?
    ensures AddParts(codec, action, message, parts) == AddParts(codec, action, message, parts[..i])
    decreases |parts| - i
  {
    if i < |parts| {
      assert parts[..i + 1][..i] == parts[..i];
      PartFails(codec, action, message, parts, i + 1);
    } else {
      assert parts[..i] == parts;
    }
  }

  function Texts<V>(parts: seq<string>): (texts: seq<Json<V>>)
    ensures |texts| == |parts| && forall i | 0 <= i < |parts| :: texts[i] == Text(parts[i])
  {
    if parts == [] then [] else Texts(parts[..|parts| - 1]) + [Text(parts[|parts| - 1])]
  }

  lemma {:induction false} OneMoreText<V>(codec: Codec<V>, action: string, fields: Message<V>, kept: seq<Json<V>>,
      part: string)
    requires codec.loads(part).None?
    ensures "legacy" !in fields ==>
      AddPart(codec, action, Object(fields), part) == Ok(Object(fields["legacy" := List([Text(part)])]))
    ensures AddPart(codec, action, Object(fields["legacy" := List(kept)]), part)
         == Ok(Object(fields["legacy" := List(kept + [Text(part)])]))
  {
    var one: seq<Json<V>> := [Text(part)];
    assert [] + one == one;
    var all := List(kept + [Text(part)]);
    assert fields["legacy" := List(kept)]["legacy" := all] == fields["legacy" := all];
  }

  /** A footer of strings that are no JSON is kept in order beside the fields of the message. */
  lemma {:induction false} FooterKept<V>(codec: Codec<V>, action: string, fields: Message<V>, footer: seq<string>)
    requires codec.loads(action) == Some(Object(fields)) && "legacy" !in fields
    requires forall part | part in footer :: codec.loads(part).None?
    ensures AddParts(codec, action, Object(fields), [action] + footer)
         == Ok(Object(if footer == [] then fields else fields["legacy" := List(Texts(footer))]))
    decreases |footer|
  {
    if footer == [] {
      assert [action] + footer == [action] && [action][..0] == [];
    } else {
      hide AddPart;
      var n := |footer| - 1;
      assert ([action] + footer)[..n + 1] == [action] + footer[..n];
      FooterKept(codec, action, fields, footer[..n]);
      assert codec.loads(footer[n]).None?;
      OneMoreText(codec, action, fields, Texts(footer[..n]), footer[n]);
      assert Texts<V>(footer) == Texts(footer[..n]) + [Text(footer[n])];
      if n == 0 { assert Texts<V>(footer) == [Text(footer[n])]; }
    }
  }

  lemma {:induction false} SamePartAgain<V>(codec: Codec<V>, action: string, json: Json<V>)
    requires codec.loads(action) == Some(json)
    ensures AddParts(codec, action, json, WithoutLastEmpty([action])) == Ok(json)
  {
    assert [action][..0] == [];
  }

  /** The block of a message decodes to what was sent of it. */
  lemma {:induction false} DecodeEncoded<V(!new)>(codec: Codec<V>, m: Message<V>)
    requires Faithful(codec) && PackQString(Written(codec, m)).Ok?
    ensures Decoded(codec, PackQString(Written(codec, m)).value) == Ok(Object(Canonical(m)))
  {
    var text := Written(codec, m);
    var data := PackQString(text).value;
    QStringRoundTrip([], text, []);
    assert [] + data + [] == data;
    PackOne(text);
    BlockRoundTrip([text]);
    hide PackQString, ReadQString, PackAll, ReadBlockParts, WithoutLastEmpty, AddParts;
    if text != "PING" && text != "PONG" {
      assert codec.loads(codec.dumps(m)) == Some(Object(m));
      SamePartAgain(codec, text, Object(m));
    }
  }

  // ----- The stream

  /** Reads one message from what is left of a stream that ends after these bytes. */
  function ReadMessage<V(==)>(codec: Codec<V>, stream: seq<Byte>): (Result<Json<V>, Error>, seq<Byte>) {
    if stream == [] then (Err(DisconnectedError), [])
    else if |stream| < 4 then (Err(IncompleteReadError), [])
    else
      var length := ReadLength(stream[..4]);
      if length > 0 && |stream| == 4 then (Err(DisconnectedError), [])
      else if |stream| - 4 < length then (Err(IncompleteReadError), [])
      else (Decoded(codec, stream[4..4 + length]), stream[4 + length..])
  }

  /** Everything that is read from a stream until the first error. */
  function ReadAll<V(==)>(codec: Codec<V>, stream: seq<Byte>): (seq<Json<V>>, Error)
    decreases |stream|
  {
    var (message, rest) := ReadMessage(codec, stream);
    if message.Err? then ([], message.error)
    else
      var (messages, error) := ReadAll(codec, rest);
      ([message.value] + messages, error)
  }

  function EncodeAll<V(==)>(codec: Codec<V>, messages: seq<Message<V>>): Result<seq<Byte>, Error> {
    if messages == [] then Ok([])
    else
      var first, rest := Encoded(codec, messages[0]), EncodeAll(codec, messages[1..]);
      if first.Err? then first else if rest.Err? then rest else Ok(first.value + rest.value)
  }

  function CanonicalAll<V(==)>(messages: seq<Message<V>>): seq<Json<V>> {
    if messages == [] then [] else [Object(Canonical(messages[0]))] + CanonicalAll(messages[1..])
  }

  /** The next message of a stream is read without touching what follows it. */
  lemma {:induction false} ReadEncoded<V(!new)>(codec: Codec<V>, m: Message<V>, rest: seq<Byte>)
    requires Faithful(codec) && Encoded(codec, m).Ok?
    ensures ReadMessage(codec, Encoded(codec, m).value + rest) == (Ok(Object(Canonical(m))), rest)
  {
    hide PackQString, Written, Decoded, Canonical, Length, ReadLength, Faithful;
    var block := PackQString(Written(codec, m)).value;
    var stream := Encoded(codec, m).value + rest;
    LengthRoundTrip(|block|);
    DecodeEncoded(codec, m);
    assert stream[..4] == Length(|block|) && stream[4..4 + |block|] == block && stream[4 + |block|..] == rest;
  }

  /** Any sequence of messages that can be encoded is read back in order, and then the stream ends. */
  lemma {:induction false} StreamRoundTrip<V(!new)>(codec: Codec<V>, messages: seq<Message<V>>)
    requires Faithful(codec) && EncodeAll(codec, messages).Ok?
    ensures ReadAll(codec, EncodeAll(codec, messages).value) == (CanonicalAll(messages), DisconnectedError)
    decreases |messages|
  {
    if messages != [] {
      hide Faithful, Encoded, Canonical, ReadMessage;
      ReadEncoded(codec, messages[0], EncodeAll(codec, messages[1..]).value);
      StreamRoundTrip(codec, messages[1..]);
    }
  }

  /** Only ping and pong lose something on the way, and only what is not their command. */
  lemma {:induction false} CanonicalSame<V>(m: Message<V>)
    ensures Canonical(m) == m <==>
      (HasCommand(m, "ping") || HasCommand(m, "pong") ==> m.Keys == {"command"})
  {
    if m.Keys == {"command"} {
      assert m == map["command" := m["command"]];
    }
  }
}
