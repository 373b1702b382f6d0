/** The Pub/Sub push envelope: `{"message": {"data": base64 of JSON}}`. */
module PubSub {
  import opened Outcomes
  import opened Json
  import Base64

  /** `PubSubMessagePort.decode`: either a JSON object or one typed error, never anything else. */
  function Decode(text: JsonText, raw: Bytes): (r: Outcome<Json>)
    ensures if r.Ok? then r.value.Obj? else r == Typed(MalformedMessage)
  {
    match text.parse(raw)
    case None => Typed(MalformedMessage)
    case Some(envelope) =>
      if !envelope.Obj? then Typed(MalformedMessage)
      else match Field(envelope, "message")
        case Some(Obj(message)) => DecodeData(text, Field(Obj(message), "data"))
        case _ => Typed(MalformedMessage)
  }

  function DecodeData(text: JsonText, data: Option<Json>): (r: Outcome<Json>)
    ensures if r.Ok? then r.value.Obj? else r == Typed(MalformedMessage)
  {
    match data
    case Some(Str(encoded)) =>
      (match Base64.Decode(encoded)
       case None => Typed(MalformedMessage)
       case Some(bytes) =>
         match text.parse(bytes)
         case Some(Obj(fields)) => Ok(Obj(fields))
         case _ => Typed(MalformedMessage))
    case _ => Typed(MalformedMessage)
  }

  /** `PubSubMessagePort.encode`. */
  function Encode(text: JsonText, payload: Json): Bytes {
    text.dumps(Obj(map["message" := Obj(map["data" := Str(Base64.Encode(text.dumps(payload)))])]))
  }

  /** Decoding undoes encoding on every JSON object, and refuses every other value. */
  lemma DecodeEncode(text: JsonText, payload: Json)
    requires text.Inverse()
    ensures Decode(text, Encode(text, payload)) == if payload.Obj? then Ok(payload) else Typed(MalformedMessage)
  {
    hide Base64.Decode, Base64.Encode;
    var bytes := text.dumps(payload);
    Base64.DecodeEncode(bytes);
    var message := Obj(map["data" := Str(Base64.Encode(bytes))]);
    var envelope := Obj(map["message" := message]);
    assert text.parse(text.dumps(envelope)) == Some(envelope);
    assert text.parse(bytes) == Some(payload);
    assert DecodeData(text, Field(message, "data")) == if payload.Obj? then Ok(payload) else Typed(MalformedMessage);
    hide DecodeData;
  }
}
