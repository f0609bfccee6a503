/** Producer and consumer sides of the contract put together: what the gateway accepts, what
    the consumer makes of a message body and its schema-version header, and the upcast. */
module ContractDispatch {
  import opened Wrappers
  import opened Json
  import opened SchemaVersion
  import opened Contracts

  /** The version 2 payload comes from running the version 2 parser over the carried-over
      version 1 fields; None is the exception that parser would throw. */
  function Upcast(e: EventV1): Option<EventV2> {
    var payload :- ParsePayloadV2(Some(PayloadV1Json(e.payload)));
    Some(EventV2(e.env, payload))
  }

  function GatewayEnvelope(correlationId: string, eventId: string, timestamp: string): Envelope {
    Envelope(eventId, correlationId, timestamp, Gateway, [Gateway])
  }

  /** Build and validate: the event the gateway stores, or None for a refused request. */
  function AcceptV1(lex: Lexical, payload: PayloadV1, correlationId: string, eventId: string, timestamp: string): Option<EventV1> {
    ParseV1(lex, JsonV1(EventV1(GatewayEnvelope(correlationId, eventId, timestamp), None, payload)))
  }

  function AcceptV2(lex: Lexical, payload: Json, correlationId: string, eventId: string, timestamp: string): Option<EventV2> {
    var parsed :- ParsePayloadV2(Some(payload));
    ParseV2(lex, JsonV2(EventV2(GatewayEnvelope(correlationId, eventId, timestamp), parsed)))
  }

  /** Resolve, validate, normalise. None: the body is rejected and the message acked away. */
  function Consume(lex: Lexical, body: Json, header: Header): Option<EventV2> {
    match ResolveSchemaVersion(body, header, None)
    case V2 => ParseV2(lex, body)
    case V1 =>
      var v1 :- ParseV1(lex, body);
      Upcast(v1)
  }

  function ConsumedId(lex: Lexical, body: Json, header: Header): Option<string> {
    var e :- Consume(lex, body, header);
    Some(e.env.eventId)
  }

  // ---- Validation only lets well-formed events through ----

  lemma ParsedV1IsGood(lex: Lexical, v: Json)
    requires ParseV1(lex, v).Some?
    ensures GoodV1(lex, ParseV1(lex, v).value)
  {
    ParsedTraceNonEmpty(FieldOf(v, "trace"));
  }

  lemma ParsedV2IsGood(lex: Lexical, v: Json)
    requires ParseV2(lex, v).Some?
    ensures GoodV2(lex, ParseV2(lex, v).value)
  {
    ParsedTraceNonEmpty(FieldOf(v, "trace"));
    ParsedPayloadV2IsGood(FieldOf(v, "payload"));
  }

  lemma ParsedTraceNonEmpty(f: Option<Json>)
    ensures ParseTrace(f).Some? ==> ParseTrace(f).value != []
  {
  }

  lemma ParsedPayloadV2IsGood(f: Option<Json>)
    requires ParsePayloadV2(f).Some?
    ensures var p := ParsePayloadV2(f).value; GoodText(p.subject, p.content, p.recipient) && GoodMetadata(p.metadata)
  {
    var metadata := FieldOf(f.value, "metadata");
    if metadata.Some? {
      var fields := metadata.value.fields;
      assert (map k | k in fields :: fields[k].s).Keys == fields.Keys;
      assert |map k | k in fields :: fields[k].s| == |fields|;
      assert forall k | k in fields :: MetadataEntry(k, fields[k]);
    }
  }

  // ---- Upcast ----

  /** The upcast of a valid event is total, keeps its identity, and adds only the defaults. */
  lemma UpcastExactly(lex: Lexical, e: EventV1)
    requires GoodV1(lex, e)
    ensures Upcast(e) == Some(EventV2(e.env, PayloadV2(e.payload.subject, e.payload.content, e.payload.recipient, Normal, map[])))
    ensures GoodV2(lex, Upcast(e).value)
  {
    var v := PayloadV1Json(e.payload);
    assert FieldOf(v, "subject") == Some(JStr(e.payload.subject));
    assert FieldOf(v, "content") == Some(JStr(e.payload.content));
    assert FieldOf(v, "recipient") == if e.payload.recipient.Some? then Some(JStr(e.payload.recipient.value)) else None;
    assert FieldOf(v, "priority") == None && FieldOf(v, "metadata") == None;
    PayloadV2FromFields(v, PayloadV2(e.payload.subject, e.payload.content, e.payload.recipient, Normal, map[]));
  }

  /** Its result is a fixed point of the version 2 parser. */
  lemma UpcastIsValidV2(lex: Lexical, e: EventV1)
    requires GoodV1(lex, e)
    ensures Upcast(e).Some? && ParseV2(lex, JsonV2(Upcast(e).value)) == Upcast(e)
  {
    UpcastExactly(lex, e);
    V2RoundTrip(lex, Upcast(e).value);
  }

  /** Two valid events with the same upcast differ at most in `schemaVersion`. */
  lemma UpcastInjective(lex: Lexical, e: EventV1, f: EventV1)
    requires GoodV1(lex, e) && GoodV1(lex, f) && Upcast(e) == Upcast(f)
    ensures e == f.(schemaVersion := e.schemaVersion)
  {
    UpcastExactly(lex, e);
    UpcastExactly(lex, f);
  }

  // ---- Dispatch ----

  lemma V2ResolvesToV2(e: EventV2, header: Header, explicitType: Option<Json>)
    ensures ResolveSchemaVersion(JsonV2(e), header, explicitType) == V2
  {
    EventV2Fields(e);
  }

  lemma VersionFieldCoerces(v: Option<Version>)
    ensures CoerceField(VersionField(v)) == v
  {
    if v.Some? {
      DigitsTrimmed(Text(v.value));
      assert Text(V1)[0] == '1' && Text(V2)[0] == '2';
    }
  }

  lemma NameV1Suffix()
    ensures SuffixField(Some(JStr(NAME_V1))) == Some(V1)
  {
    assert NAME_V1[|NAME_V1| - 3..] == ".v1";
    SuffixExactly(NAME_V1, V1);
  }

  lemma ResolvesByParts(v: Json, version: Option<Version>, header: Header)
    requires CoerceField(FieldOf(v, "schemaVersion")) == version
    requires SuffixField(FieldOf(v, "type")) == Some(V1)
    ensures ResolveSchemaVersion(v, header, None) ==
            if version.Some? then version.value
            else if CoerceHeader(header).Some? then CoerceHeader(header).value
            else V1
  {
  }

  lemma V1Resolves(e: EventV1, header: Header)
    ensures ResolveSchemaVersion(JsonV1(e), header, None) ==
            if e.schemaVersion.Some? then e.schemaVersion.value
            else if CoerceHeader(header).Some? then CoerceHeader(header).value
            else V1
  {
    EventV1Fields(e);
    VersionFieldCoerces(e.schemaVersion);
    NameV1Suffix();
    ResolvesByParts(JsonV1(e), e.schemaVersion, header);
  }

  lemma V1IsNotV2(lex: Lexical, e: EventV1)
    ensures ParseV2(lex, JsonV1(e)) == None
  {
    EventV1Fields(e);
    assert NAME_V1[20] == '1' && NAME_V2[20] == '2';
  }

  /** A valid version 1 event is consumed exactly when nothing on it claims version 2: its
      own field says 1, or is missing and the header does not say 2. */
  lemma V1ConsumedExactlyWhen(lex: Lexical, e: EventV1, header: Header)
    requires GoodV1(lex, e)
    ensures Consume(lex, JsonV1(e), header).Some? <==>
            e.schemaVersion == Some(V1) || (e.schemaVersion == None && CoerceHeader(header) != Some(V2))
    ensures Consume(lex, JsonV1(e), header).Some? ==> Consume(lex, JsonV1(e), header) == Upcast(e)
  {
    V1Resolves(e, header);
    V1IsNotV2(lex, e);
    V1RoundTrip(lex, e);
    UpcastExactly(lex, e);
  }

  /** A valid version 2 event is consumed unchanged, whatever the header says. */
  lemma V2AlwaysConsumed(lex: Lexical, e: EventV2, header: Header)
    requires GoodV2(lex, e)
    ensures Consume(lex, JsonV2(e), header) == Some(e)
  {
    V2ResolvesToV2(e, header, None);
    V2RoundTrip(lex, e);
  }

  /** Every version 1 event the gateway accepts reaches the handler under its own id, unless
      a schema-version header contradicts it. The relay sets no such header. */
  lemma AcceptedV1IsConsumed(lex: Lexical, payload: PayloadV1, correlationId: string, eventId: string, timestamp: string,
                             header: Header)
    requires AcceptV1(lex, payload, correlationId, eventId, timestamp).Some?
    ensures var e := AcceptV1(lex, payload, correlationId, eventId, timestamp).value;
            && GoodV1(lex, e) && e.env.eventId == eventId && e.payload == payload
            && ConsumedId(lex, JsonV1(e), header) == if CoerceHeader(header) == Some(V2) then None else Some(eventId)
  {
    var built := EventV1(GatewayEnvelope(correlationId, eventId, timestamp), None, payload);
    V1RoundTrip(lex, built);
    V1ConsumedExactlyWhen(lex, built, header);
    UpcastExactly(lex, built);
  }

  /** The same for version 2, whatever the header. */
  lemma AcceptedV2IsConsumed(lex: Lexical, payload: Json, correlationId: string, eventId: string, timestamp: string,
                             header: Header)
    requires AcceptV2(lex, payload, correlationId, eventId, timestamp).Some?
    ensures var e := AcceptV2(lex, payload, correlationId, eventId, timestamp).value;
            && GoodV2(lex, e) && e.env.eventId == eventId && Some(e.payload) == ParsePayloadV2(Some(payload))
            && Consume(lex, JsonV2(e), header) == Some(e)
            && ConsumedId(lex, JsonV2(e), header) == Some(eventId)
  {
    var parsed := ParsePayloadV2(Some(payload)).value;
    var built := EventV2(GatewayEnvelope(correlationId, eventId, timestamp), parsed);
    V2RoundTrip(lex, built);
    V2AlwaysConsumed(lex, built, header);
  }

  /** The consumer makes `e` of a body exactly if the body says `e` in version 2 and resolves to
      it, or resolves to version 1 and says there what `e` says, with normal priority and no
      metadata. */
  lemma ConsumesExactly(lex: Lexical, body: Json, header: Header, e: EventV2)
    ensures Consume(lex, body, header) == Some(e) <==>
            if ResolveSchemaVersion(body, header, None) == V2 then SaysV2(lex, body, e)
            else e.payload.priority == Normal && e.payload.metadata == map[]
                 && exists version :: SaysV1(lex, body, AsV1(e, version))
  {
    match ResolveSchemaVersion(body, header, None) {
      case V2 => V2Reads(lex, body, e);
      case V1 =>
        if ParseV1(lex, body).Some? {
          var v1 := ParseV1(lex, body).value;
          V1Reads(lex, body, v1);
          ParsedV1IsGood(lex, body);
          UpcastExactly(lex, v1);
          if Upcast(v1) == Some(e) {
            assert AsV1(e, v1.schemaVersion) == v1;
          }
        }
        forall version ensures ParseV1(lex, body) == Some(AsV1(e, version)) <==> SaysV1(lex, body, AsV1(e, version)) {
          V1Reads(lex, body, AsV1(e, version));
        }
    }
  }

  /** The version 1 event with the same envelope and text. */
  function AsV1(e: EventV2, version: Option<Version>): EventV1 {
    EventV1(e.env, version, PayloadV1(e.payload.subject, e.payload.content, e.payload.recipient))
  }
}
