/** The event contracts: what each version accepts, how the gateway builds events, how the
    consumer reads them, and the upcast between the versions. `Lexical` stands for the UUID
    and date-time syntax checks; everything here holds for any choice of them. */
module Contracts {
  import opened Wrappers
  import opened Json
  import opened SchemaVersion

  datatype Lexical = Lexical(isUuid: string -> bool, isIsoDateTime: string -> bool)

  datatype ServiceId = Gateway | Messaging
  datatype Priority = Low | Normal | High

  datatype Envelope = Envelope(
    eventId: string, correlationId: string, timestamp: string, source: ServiceId, trace: seq<ServiceId>)

  datatype PayloadV1 = PayloadV1(subject: string, content: string, recipient: Option<string>)

  datatype PayloadV2 = PayloadV2(
    subject: string, content: string, recipient: Option<string>, priority: Priority, metadata: map<string, string>)

  /** Version 1 may carry a schema version; version 2 always carries "2". */
  datatype EventV1 = EventV1(env: Envelope, schemaVersion: Option<Version>, payload: PayloadV1)
  datatype EventV2 = EventV2(env: Envelope, payload: PayloadV2)

  const NAME_V1: string := "CreateMessageEvent.v1"
  const NAME_V2: string := "CreateMessageEvent.v2"
  const MAX_METADATA_ENTRIES: nat := 20
  const MAX_METADATA_STRING_LENGTH: nat := 256

  /** String length in UTF-16 code units, which is what the bounds count. */
  function JsLength(s: string): nat {
    if s == [] then 0 else (if s[0] > '\U{FFFF}' then 2 else 1) + JsLength(s[1..])
  }

  /** Every character adds one, and one more if it is outside the basic plane, wherever it stands. */
  lemma {:induction false} JsLengthExactly(before: string, c: char, after: string)
    ensures JsLength("") == 0
    ensures JsLength(before + [c] + after) == JsLength(before + after) + if c <= '\U{FFFF}' then 1 else 2
  {
    var s := before + [c] + after;
    if before == [] {
      assert s[1..] == after && before + after == after;
    } else {
      JsLengthExactly(before[1..], c, after);
      assert s[1..] == before[1..] + [c] + after && (before + after)[1..] == before[1..] + after;
      assert s[0] == before[0] == (before + after)[0];
    }
  }

  // ---- Field parsers: None is a validation failure ----

  function ParseString(f: Option<Json>): Option<string> {
    var v :- f;
    if v.JStr? then Some(v.s) else None
  }

  function ParseBounded(f: Option<Json>, min: nat, max: nat): Option<string> {
    var s :- ParseString(f);
    if min <= JsLength(s) <= max then Some(s) else None
  }

  function ParseNonEmpty(f: Option<Json>): Option<string> {
    var s :- ParseString(f);
    if JsLength(s) >= 1 then Some(s) else None
  }

  function ParseChecked(f: Option<Json>, check: string -> bool): Option<string> {
    var s :- ParseString(f);
    if check(s) then Some(s) else None
  }

  function ParseRecipient(f: Option<Json>): Option<Option<string>> {
    if f.None? then Some(None)
    else
      var s :- ParseBounded(f, 0, 255);
      Some(Some(s))
  }

  function ParseService(v: Json): Option<ServiceId> {
    if v == JStr("gateway") then Some(Gateway) else if v == JStr("messaging") then Some(Messaging) else None
  }

  function ParseServices(items: seq<Json>): Option<seq<ServiceId>> {
    if items == [] then Some([])
    else
      var first :- ParseService(items[0]);
      var rest :- ParseServices(items[1..]);
      Some([first] + rest)
  }

  function ParseTrace(f: Option<Json>): Option<seq<ServiceId>> {
    var v :- f;
    if v.JArr? && v.items != [] then ParseServices(v.items) else None
  }

  function ParseSource(f: Option<Json>): Option<ServiceId> {
    var v :- f;
    ParseService(v)
  }

  function ParseEnvelope(lex: Lexical, v: Json): Option<Envelope> {
    var eventId :- ParseChecked(FieldOf(v, "eventId"), lex.isUuid);
    var correlationId :- ParseChecked(FieldOf(v, "correlationId"), lex.isUuid);
    var timestamp :- ParseChecked(FieldOf(v, "timestamp"), lex.isIsoDateTime);
    var source :- ParseSource(FieldOf(v, "source"));
    var trace :- ParseTrace(FieldOf(v, "trace"));
    Some(Envelope(eventId, correlationId, timestamp, source, trace))
  }

  function ParseOptionalVersion(f: Option<Json>): Option<Option<Version>> {
    if f.None? then Some(None)
    else if f.value == JStr("1") then Some(Some(V1))
    else if f.value == JStr("2") then Some(Some(V2))
    else None
  }

  function ParsePayloadV1(f: Option<Json>): Option<PayloadV1> {
    var v :- f;
    var subject :- ParseBounded(FieldOf(v, "subject"), 1, 255);
    var content :- ParseNonEmpty(FieldOf(v, "content"));
    var recipient :- ParseRecipient(FieldOf(v, "recipient"));
    Some(PayloadV1(subject, content, recipient))
  }

  function ParsePriority(f: Option<Json>): Option<Priority> {
    match f
    case None => Some(Normal)
    case Some(v) =>
      if v == JStr("low") then Some(Low)
      else if v == JStr("normal") then Some(Normal)
      else if v == JStr("high") then Some(High)
      else None
  }

  predicate MetadataEntry(k: string, v: Json) {
    1 <= JsLength(k) <= MAX_METADATA_STRING_LENGTH && v.JStr? && JsLength(v.s) <= MAX_METADATA_STRING_LENGTH
  }

  function ParseMetadata(f: Option<Json>): Option<map<string, string>> {
    match f
    case None => Some(map[])
    case Some(v) =>
      if v.JObj? && |v.fields| <= MAX_METADATA_ENTRIES && (forall k | k in v.fields :: MetadataEntry(k, v.fields[k]))
      then Some(map k | k in v.fields :: v.fields[k].s)
      else None
  }

  function ParsePayloadV2(f: Option<Json>): Option<PayloadV2> {
    var v :- f;
    var subject :- ParseBounded(FieldOf(v, "subject"), 1, 255);
    var content :- ParseNonEmpty(FieldOf(v, "content"));
    var recipient :- ParseRecipient(FieldOf(v, "recipient"));
    var priority :- ParsePriority(FieldOf(v, "priority"));
    var metadata :- ParseMetadata(FieldOf(v, "metadata"));
    Some(PayloadV2(subject, content, recipient, priority, metadata))
  }

  /** `validateEvent` against the version 1 schema; unknown keys are dropped. */
  function ParseV1(lex: Lexical, v: Json): Option<EventV1> {
    var env :- ParseEnvelope(lex, v);
    var version :- ParseOptionalVersion(FieldOf(v, "schemaVersion"));
    var payload :- ParsePayloadV1(FieldOf(v, "payload"));
    if FieldOf(v, "type") == Some(JStr(NAME_V1)) then Some(EventV1(env, version, payload)) else None
  }

  /** `validateEvent` against the version 2 schema. */
  function ParseV2(lex: Lexical, v: Json): Option<EventV2> {
    var env :- ParseEnvelope(lex, v);
    var payload :- ParsePayloadV2(FieldOf(v, "payload"));
    if FieldOf(v, "type") == Some(JStr(NAME_V2)) && FieldOf(v, "schemaVersion") == Some(JStr("2"))
    then Some(EventV2(env, payload)) else None
  }

  // ---- Serialisation: JSON.stringify drops undefined fields ----

  function ServiceText(s: ServiceId): string {
    match s case Gateway => "gateway" case Messaging => "messaging"
  }

  function PriorityText(p: Priority): string {
    match p case Low => "low" case Normal => "normal" case High => "high"
  }

  function OptionalField(name: string, v: Option<string>): map<string, Json> {
    match v case None => map[] case Some(s) => map[name := JStr(s)]
  }

  function EnvelopeFields(e: Envelope): map<string, Json> {
    map["eventId" := JStr(e.eventId),
        "correlationId" := JStr(e.correlationId),
        "timestamp" := JStr(e.timestamp),
        "source" := JStr(ServiceText(e.source)),
        "trace" := JArr(seq(|e.trace|, i requires 0 <= i < |e.trace| => JStr(ServiceText(e.trace[i]))))]
  }

  function PayloadV1Json(p: PayloadV1): Json {
    JObj(map["subject" := JStr(p.subject), "content" := JStr(p.content)] + OptionalField("recipient", p.recipient))
  }

  function PayloadV2Json(p: PayloadV2): Json {
    JObj(map["subject" := JStr(p.subject), "content" := JStr(p.content), "priority" := JStr(PriorityText(p.priority)),
             "metadata" := JObj(map k | k in p.metadata :: JStr(p.metadata[k]))]
         + OptionalField("recipient", p.recipient))
  }

  /** The fields of version 1 outside the shared envelope. */
  function OwnFieldsV1(e: EventV1): map<string, Json> {
    map["type" := JStr(NAME_V1), "payload" := PayloadV1Json(e.payload)]
    + OptionalField("schemaVersion", if e.schemaVersion.Some? then Some(Text(e.schemaVersion.value)) else None)
  }

  function JsonV1(e: EventV1): Json {
    JObj(EnvelopeFields(e.env) + OwnFieldsV1(e))
  }

  function JsonV2(e: EventV2): Json {
    JObj(EnvelopeFields(e.env)
         + map["type" := JStr(NAME_V2), "payload" := PayloadV2Json(e.payload), "schemaVersion" := JStr("2")])
  }

  // ---- What a well-formed event is, independently of the parsers ----

  ghost predicate GoodEnvelope(lex: Lexical, e: Envelope) {
    lex.isUuid(e.eventId) && lex.isUuid(e.correlationId) && lex.isIsoDateTime(e.timestamp) && e.trace != []
  }

  ghost predicate GoodText(subject: string, content: string, recipient: Option<string>) {
    && 1 <= JsLength(subject) <= 255
    && JsLength(content) >= 1
    && (recipient.Some? ==> JsLength(recipient.value) <= 255)
  }

  ghost predicate GoodMetadata(m: map<string, string>) {
    && |m| <= MAX_METADATA_ENTRIES
    && forall k | k in m :: 1 <= JsLength(k) <= MAX_METADATA_STRING_LENGTH && JsLength(m[k]) <= MAX_METADATA_STRING_LENGTH
  }

  ghost predicate GoodV1(lex: Lexical, e: EventV1) {
    GoodEnvelope(lex, e.env) && GoodText(e.payload.subject, e.payload.content, e.payload.recipient)
  }

  ghost predicate GoodV2(lex: Lexical, e: EventV2) {
    && GoodEnvelope(lex, e.env)
    && GoodText(e.payload.subject, e.payload.content, e.payload.recipient)
    && GoodMetadata(e.payload.metadata)
  }

  // ---- Round trips ----

  lemma {:induction false} ServicesRoundTrip(trace: seq<ServiceId>, items: seq<Json>)
    requires |items| == |trace| && forall i | 0 <= i < |trace| :: items[i] == JStr(ServiceText(trace[i]))
    ensures ParseServices(items) == Some(trace)
  {
    if trace == [] {
      assert items == [];
    } else {
      ServicesRoundTrip(trace[1..], items[1..]);
      assert ServiceText(Gateway)[0] == 'g' && ServiceText(Messaging)[0] == 'm';
      assert ParseService(items[0]) == Some(trace[0]);
      assert [trace[0]] + trace[1..] == trace;
    }
  }

  /** The five envelope fields, wherever they sit. */
  ghost predicate CarriesEnvelope(v: Json, e: Envelope) {
    && FieldOf(v, "eventId") == Some(JStr(e.eventId))
    && FieldOf(v, "correlationId") == Some(JStr(e.correlationId))
    && FieldOf(v, "timestamp") == Some(JStr(e.timestamp))
    && FieldOf(v, "source") == Some(JStr(ServiceText(e.source)))
    && FieldOf(v, "trace") == FieldOf(JObj(EnvelopeFields(e)), "trace")
  }

  lemma EnvelopeRoundTrip(lex: Lexical, v: Json, e: Envelope)
    requires CarriesEnvelope(v, e)
    ensures ParseEnvelope(lex, v) == if GoodEnvelope(lex, e) then Some(e) else None
  {
    var items := seq(|e.trace|, i requires 0 <= i < |e.trace| => JStr(ServiceText(e.trace[i])));
    assert FieldOf(v, "trace") == Some(JArr(items));
    ServicesRoundTrip(e.trace, items);
    assert ServiceText(Gateway)[0] == 'g' && ServiceText(Messaging)[0] == 'm';
  }

  lemma PayloadV1RoundTrip(p: PayloadV1)
    ensures ParsePayloadV1(Some(PayloadV1Json(p))) == if GoodText(p.subject, p.content, p.recipient) then Some(p) else None
  {
  }

  lemma MetadataRoundTrip(m: map<string, string>)
    ensures ParseMetadata(Some(JObj(map k | k in m :: JStr(m[k])))) == if GoodMetadata(m) then Some(m) else None
  {
    var fields := map k | k in m :: JStr(m[k]);
    assert fields.Keys == m.Keys;
    assert |fields| == |m|;
    if ParseMetadata(Some(JObj(fields))).Some? {
      assert forall k | k in m :: MetadataEntry(k, fields[k]);
      assert (map k | k in fields :: fields[k].s) == m;
    }
  }

  // Lookups in the serialised objects, proved apart from their use.

  lemma PayloadV2Fields(p: PayloadV2)
    ensures var v := PayloadV2Json(p);
            && FieldOf(v, "subject") == Some(JStr(p.subject))
            && FieldOf(v, "content") == Some(JStr(p.content))
            && FieldOf(v, "recipient") == (if p.recipient.Some? then Some(JStr(p.recipient.value)) else None)
            && FieldOf(v, "priority") == Some(JStr(PriorityText(p.priority)))
            && FieldOf(v, "metadata") == Some(JObj(map k | k in p.metadata :: JStr(p.metadata[k])))
  {
  }

  lemma PriorityRoundTrip(p: Priority)
    ensures ParsePriority(Some(JStr(PriorityText(p)))) == Some(p)
  {
    assert PriorityText(Low)[0] == 'l' && PriorityText(Normal)[0] == 'n' && PriorityText(High)[0] == 'h';
  }

  lemma PayloadV2FromFields(v: Json, p: PayloadV2)
    requires FieldOf(v, "subject") == Some(JStr(p.subject))
    requires FieldOf(v, "content") == Some(JStr(p.content))
    requires FieldOf(v, "recipient") == if p.recipient.Some? then Some(JStr(p.recipient.value)) else None
    requires ParsePriority(FieldOf(v, "priority")) == Some(p.priority)
    requires ParseMetadata(FieldOf(v, "metadata")) == if GoodMetadata(p.metadata) then Some(p.metadata) else None
    ensures ParsePayloadV2(Some(v)) ==
            if GoodText(p.subject, p.content, p.recipient) && GoodMetadata(p.metadata) then Some(p) else None
  {
  }

  lemma PayloadV2RoundTrip(p: PayloadV2)
    ensures ParsePayloadV2(Some(PayloadV2Json(p))) ==
            if GoodText(p.subject, p.content, p.recipient) && GoodMetadata(p.metadata) then Some(p) else None
  {
    MetadataRoundTrip(p.metadata);
    PriorityRoundTrip(p.priority);
    PayloadV2Fields(p);
    PayloadV2FromFields(PayloadV2Json(p), p);
  }

  lemma EnvelopeSurvives(e: Envelope, rest: map<string, Json>)
    requires "eventId" !in rest && "correlationId" !in rest && "timestamp" !in rest && "source" !in rest && "trace" !in rest
    ensures CarriesEnvelope(JObj(EnvelopeFields(e) + rest), e)
  {
  }

  lemma OwnFieldsV1Lookup(e: EventV1)
    ensures OwnFieldsV1(e).Keys <= {"type", "payload", "schemaVersion"}
    ensures FieldOf(JObj(OwnFieldsV1(e)), "type") == Some(JStr(NAME_V1))
    ensures FieldOf(JObj(OwnFieldsV1(e)), "payload") == Some(PayloadV1Json(e.payload))
    ensures FieldOf(JObj(OwnFieldsV1(e)), "schemaVersion") == VersionField(e.schemaVersion)
  {
  }

  lemma EventV1Fields(e: EventV1)
    ensures CarriesEnvelope(JsonV1(e), e.env)
    ensures FieldOf(JsonV1(e), "type") == Some(JStr(NAME_V1))
    ensures FieldOf(JsonV1(e), "payload") == Some(PayloadV1Json(e.payload))
    ensures FieldOf(JsonV1(e), "schemaVersion") == VersionField(e.schemaVersion)
  {
    OwnFieldsV1Lookup(e);
    EnvelopeSurvives(e.env, OwnFieldsV1(e));
    assert "schemaVersion" !in EnvelopeFields(e.env);
  }

  lemma EventV2Fields(e: EventV2)
    ensures CarriesEnvelope(JsonV2(e), e.env)
    ensures FieldOf(JsonV2(e), "type") == Some(JStr(NAME_V2))
    ensures FieldOf(JsonV2(e), "payload") == Some(PayloadV2Json(e.payload))
    ensures FieldOf(JsonV2(e), "schemaVersion") == Some(JStr("2"))
  {
    var rest := map["type" := JStr(NAME_V2), "payload" := PayloadV2Json(e.payload), "schemaVersion" := JStr("2")];
    EnvelopeSurvives(e.env, rest);
    assert JsonV2(e) == JObj(EnvelopeFields(e.env) + rest);
  }

  function VersionField(v: Option<Version>): Option<Json> {
    if v.Some? then Some(JStr(Text(v.value))) else None
  }

  lemma VersionRoundTrip(v: Option<Version>)
    ensures ParseOptionalVersion(VersionField(v)) == Some(v)
  {
    assert Text(V1)[0] == '1' && Text(V2)[0] == '2';
  }

  /** Serialising any version 1 event and validating the result gives the event back if it
      is well formed and is refused otherwise. */
  lemma V1RoundTrip(lex: Lexical, e: EventV1)
    ensures ParseV1(lex, JsonV1(e)) == if GoodV1(lex, e) then Some(e) else None
  {
    EventV1Fields(e);
    EnvelopeRoundTrip(lex, JsonV1(e), e.env);
    PayloadV1RoundTrip(e.payload);
    VersionRoundTrip(e.schemaVersion);
  }

  lemma V2RoundTrip(lex: Lexical, e: EventV2)
    ensures ParseV2(lex, JsonV2(e)) == if GoodV2(lex, e) then Some(e) else None
  {
    EventV2Fields(e);
    EnvelopeRoundTrip(lex, JsonV2(e), e.env);
    PayloadV2RoundTrip(e.payload);
  }

  // ---- What validation reads, field by field ----

  ghost predicate IsText(f: Option<Json>, text: string) {
    f == Some(JStr(text))
  }

  /** The envelope fields are there, of the right form, and say `e`. */
  ghost predicate SaysEnvelope(lex: Lexical, v: Json, e: Envelope) {
    && IsText(FieldOf(v, "eventId"), e.eventId) && lex.isUuid(e.eventId)
    && IsText(FieldOf(v, "correlationId"), e.correlationId) && lex.isUuid(e.correlationId)
    && IsText(FieldOf(v, "timestamp"), e.timestamp) && lex.isIsoDateTime(e.timestamp)
    && (IsText(FieldOf(v, "source"), "gateway") ==> e.source == Gateway)
    && (IsText(FieldOf(v, "source"), "messaging") ==> e.source == Messaging)
    && (IsText(FieldOf(v, "source"), "gateway") || IsText(FieldOf(v, "source"), "messaging"))
    && FieldOf(v, "trace").Some? && FieldOf(v, "trace").value.JArr? && e.trace != []
    && SaysTrace(FieldOf(v, "trace").value.items, e.trace)
  }

  ghost predicate SaysTrace(items: seq<Json>, trace: seq<ServiceId>) {
    && |items| == |trace|
    && forall i | 0 <= i < |trace| :: items[i] == JStr(if trace[i] == Gateway then "gateway" else "messaging")
  }

  ghost predicate SaysText(v: Json, subject: string, content: string, recipient: Option<string>) {
    && IsText(FieldOf(v, "subject"), subject) && 1 <= JsLength(subject) <= 255
    && IsText(FieldOf(v, "content"), content) && 1 <= JsLength(content)
    && (recipient == None ==> FieldOf(v, "recipient") == None)
    && (recipient.Some? ==> IsText(FieldOf(v, "recipient"), recipient.value) && JsLength(recipient.value) <= 255)
  }

  ghost predicate SaysPriority(f: Option<Json>, p: Priority) {
    || (f == None && p == Normal)
    || (IsText(f, "low") && p == Low) || (IsText(f, "normal") && p == Normal) || (IsText(f, "high") && p == High)
  }

  ghost predicate SaysMetadata(f: Option<Json>, m: map<string, string>) {
    || (f == None && m == map[])
    || (&& f.Some? && f.value.JObj? && f.value.fields.Keys == m.Keys && |m| <= 20
        && forall k | k in m :: f.value.fields[k] == JStr(m[k]) && 1 <= JsLength(k) <= 256 && JsLength(m[k]) <= 256)
  }

  ghost predicate SaysV1(lex: Lexical, v: Json, e: EventV1) {
    && SaysEnvelope(lex, v, e.env)
    && IsText(FieldOf(v, "type"), "CreateMessageEvent.v1")
    && (e.schemaVersion == None ==> FieldOf(v, "schemaVersion") == None)
    && (e.schemaVersion.Some? ==> IsText(FieldOf(v, "schemaVersion"), if e.schemaVersion.value == V1 then "1" else "2"))
    && FieldOf(v, "payload").Some?
    && SaysText(FieldOf(v, "payload").value, e.payload.subject, e.payload.content, e.payload.recipient)
  }

  ghost predicate SaysV2(lex: Lexical, v: Json, e: EventV2) {
    && SaysEnvelope(lex, v, e.env)
    && IsText(FieldOf(v, "type"), "CreateMessageEvent.v2") && IsText(FieldOf(v, "schemaVersion"), "2")
    && FieldOf(v, "payload").Some? && SaysPayloadV2(FieldOf(v, "payload").value, e.payload)
  }

  ghost predicate SaysPayloadV2(v: Json, p: PayloadV2) {
    && SaysText(v, p.subject, p.content, p.recipient)
    && SaysPriority(FieldOf(v, "priority"), p.priority)
    && SaysMetadata(FieldOf(v, "metadata"), p.metadata)
  }

  lemma NamesDiffer()
    ensures "gateway" != "messaging" && "low" != "normal" && "low" != "high" && "normal" != "high" && "1" != "2"
  {
    assert "gateway"[0] == 'g' && "messaging"[0] == 'm' && "low"[0] == 'l' && "normal"[0] == 'n' && "high"[0] == 'h';
    assert "1"[0] == '1' && "2"[0] == '2';
  }

  lemma ServiceReads(v: Json, service: ServiceId)
    ensures ParseService(v) == Some(service) <==> v == JStr(if service == Gateway then "gateway" else "messaging")
  {
    NamesDiffer();
  }

  lemma SaysTraceStep(items: seq<Json>, trace: seq<ServiceId>)
    requires items != [] && trace != []
    ensures SaysTrace(items, trace) <==>
            items[0] == JStr(if trace[0] == Gateway then "gateway" else "messaging") && SaysTrace(items[1..], trace[1..])
  {
    forall i | 0 < i < |items| ensures items[i] == items[1..][i - 1] {
    }
    forall i | 0 < i < |trace| ensures trace[i] == trace[1..][i - 1] {
    }
    if SaysTrace(items, trace) {
      forall i | 0 <= i < |trace| - 1
        ensures items[1..][i] == JStr(if trace[1..][i] == Gateway then "gateway" else "messaging")
      {
        assert items[i + 1] == JStr(if trace[i + 1] == Gateway then "gateway" else "messaging");
      }
    }
  }

  lemma {:induction false} TraceReads(items: seq<Json>, trace: seq<ServiceId>)
    ensures ParseServices(items) == Some(trace) <==> SaysTrace(items, trace)
  {
    if items != [] && trace != [] {
      ServiceReads(items[0], trace[0]);
      TraceReads(items[1..], trace[1..]);
      SaysTraceStep(items, trace);
      assert trace == [trace[0]] + trace[1..];
    }
  }

  lemma EnvelopeReads(lex: Lexical, v: Json, e: Envelope)
    ensures ParseEnvelope(lex, v) == Some(e) <==> SaysEnvelope(lex, v, e)
  {
    NamesDiffer();
    if FieldOf(v, "source").Some? {
      ServiceReads(FieldOf(v, "source").value, e.source);
    }
    var f := FieldOf(v, "trace");
    if f.Some? && f.value.JArr? {
      TraceReads(f.value.items, e.trace);
    }
  }

  lemma MetadataReads(f: Option<Json>, m: map<string, string>)
    ensures ParseMetadata(f) == Some(m) <==> SaysMetadata(f, m)
  {
    if f.Some? && f.value.JObj? {
      var fields := f.value.fields;
      var texts := map k | k in fields && fields[k].JStr? :: fields[k].s;
      if ParseMetadata(f) == Some(m) {
        assert forall k | k in fields :: MetadataEntry(k, fields[k]);
        assert m.Keys == fields.Keys && |m| == |fields|;
      }
      if SaysMetadata(f, m) {
        assert |m| == |m.Keys| && |fields| == |fields.Keys|;
        forall k | k in fields ensures MetadataEntry(k, fields[k]) {
          assert k in m;
        }
        assert (map k | k in fields :: fields[k].s) == m;
      }
    }
  }

  lemma PriorityReads(f: Option<Json>, p: Priority)
    ensures ParsePriority(f) == Some(p) <==> SaysPriority(f, p)
  {
    NamesDiffer();
  }

  lemma PayloadV2Reads(v: Json, p: PayloadV2)
    ensures ParsePayloadV2(Some(v)) == Some(p) <==> SaysPayloadV2(v, p)
  {
    PriorityReads(FieldOf(v, "priority"), p.priority);
    MetadataReads(FieldOf(v, "metadata"), p.metadata);
  }

  /** Version 1 validation yields an event exactly if the value says that event: every accepted
      value is of the type CreateMessageEvent.v1 and within all bounds, and nothing else is. */
  lemma V1Reads(lex: Lexical, v: Json, e: EventV1)
    ensures ParseV1(lex, v) == Some(e) <==> SaysV1(lex, v, e)
  {
    NamesDiffer();
    EnvelopeReads(lex, v, e.env);
  }

  /** The same for version 2; a missing priority is normal, missing metadata empty, and any
      priority but the three texts is refused. */
  lemma V2Reads(lex: Lexical, v: Json, e: EventV2)
    ensures ParseV2(lex, v) == Some(e) <==> SaysV2(lex, v, e)
  {
    EnvelopeReads(lex, v, e.env);
    if FieldOf(v, "payload").Some? {
      PayloadV2Reads(FieldOf(v, "payload").value, e.payload);
    }
  }
}
