/** Which contract version an inbound event claims, decided before it is validated. */
module SchemaVersion {
  import opened Wrappers
  import opened Json

  datatype Version = V1 | V2

  /** An AMQP header value: missing, a plain value, or bytes holding UTF-8 text. */
  datatype Header = Absent | Plain(value: Json) | Bytes(text: string)

  function Text(v: Version): string {
    match v case V1 => "1" case V2 => "2"
  }

  /** White space and line terminators `String.prototype.trim` removes. */
  predicate IsJsSpace(c: char) {
    || '\U{0009}' <= c <= '\U{000D}' || c == ' ' || c == '\U{00A0}' || c == '\U{1680}'
    || '\U{2000}' <= c <= '\U{200A}' || c == '\U{2028}' || c == '\U{2029}' || c == '\U{202F}'
    || c == '\U{205F}' || c == '\U{3000}' || c == '\U{FEFF}'
  }

  function Trim(s: string): string {
    if s == [] then s
    else if IsJsSpace(s[0]) then Trim(s[1..])
    else if IsJsSpace(s[|s| - 1]) then Trim(s[..|s| - 1])
    else s
  }

  function CoerceText(s: string): Option<Version> {
    var t := Trim(s);
    if t == "1" then Some(V1) else if t == "2" then Some(V2) else None
  }

  /** A number coerces through its decimal text, which is "1" or "2" for just those numbers. */
  function CoerceJson(v: Json): Option<Version> {
    match v
    case JStr(s) => CoerceText(s)
    case JNum(n) => if n == 1.0 then Some(V1) else if n == 2.0 then Some(V2) else None
    case _ => None
  }

  function CoerceHeader(h: Header): Option<Version> {
    match h
    case Absent => None
    case Plain(v) => CoerceJson(v)
    case Bytes(text) => CoerceText(text)
  }

  predicate AllDigits(s: string) {
    s != [] && forall i | 0 <= i < |s| :: '0' <= s[i] <= '9'
  }

  /** The scan of `/\.v(\d+)$/`: the first position from `i` on where the rest of the string
      is a dot, a `v` and digits only; the digits are the captured group. */
  function ExecSuffix(s: string, i: nat): Option<string>
    requires i <= |s|
    decreases |s| - i
  {
    if i + 2 >= |s| then None
    else if s[i] == '.' && s[i + 1] == 'v' && AllDigits(s[i + 2..]) then Some(s[i + 2..])
    else ExecSuffix(s, i + 1)
  }

  function ExtractFromTypeSuffix(v: Json): Option<Version> {
    if !v.JStr? then None
    else match ExecSuffix(v.s, 0)
         case None => None
         case Some(digits) => CoerceText(digits)
  }

  function FieldOf(v: Json, name: string): Option<Json> {
    if v.JObj? && name in v.fields then Some(v.fields[name]) else None
  }

  /** The four sources in order: envelope field, header, type suffix, version 1.
      `explicitType` is the `type` a caller passes separately. */
  function ResolveSchemaVersion(envelope: Json, header: Header, explicitType: Option<Json>): Version {
    match CoerceField(FieldOf(envelope, "schemaVersion"))
    case Some(v) => v
    case None =>
      match CoerceHeader(header)
      case Some(v) => v
      case None =>
        match SuffixField(if explicitType.Some? then explicitType else FieldOf(envelope, "type"))
        case Some(v) => v
        case None => V1
  }

  function CoerceField(f: Option<Json>): Option<Version> {
    if f.Some? then CoerceJson(f.value) else None
  }

  function SuffixField(f: Option<Json>): Option<Version> {
    if f.Some? then ExtractFromTypeSuffix(f.value) else None
  }

  // ---- The suffix scan against the plain meaning of "ends in .vN" ----

  predicate EndsWith(s: string, suffix: string) {
    |suffix| <= |s| && s[|s| - |suffix|..] == suffix
  }

  lemma {:induction false} ScanFinds(s: string, i: nat)
    requires i + 3 <= |s| && s[|s| - 3] == '.' && s[|s| - 2] == 'v' && '0' <= s[|s| - 1] <= '9'
    ensures ExecSuffix(s, i) == Some(s[|s| - 1..])
    decreases |s| - i
  {
    var at := |s| - 3;
    if i == at {
      assert AllDigits(s[at + 2..]);
    } else {
      if i + 2 <= at {
        assert s[i + 2..][at - (i + 2)] == '.';
      } else {
        assert s[i + 2..][0] == 'v';
      }
      ScanFinds(s, i + 1);
    }
  }

  lemma {:induction false} ScanResult(s: string, i: nat)
    requires i <= |s| && ExecSuffix(s, i).Some?
    ensures var d := ExecSuffix(s, i).value; AllDigits(d) && EndsWith(s, ".v" + d)
    decreases |s| - i
  {
    if s[i] == '.' && s[i + 1] == 'v' && AllDigits(s[i + 2..]) {
      assert s[i..] == ".v" + s[i + 2..];
    } else {
      ScanResult(s, i + 1);
    }
  }

  lemma DigitsTrimmed(d: string)
    requires AllDigits(d)
    ensures Trim(d) == d
  {
  }

  /** The suffix yields version N exactly when the string ends in ".vN", for every string. */
  lemma SuffixExactly(s: string, v: Version)
    ensures ExtractFromTypeSuffix(JStr(s)) == Some(v) <==> EndsWith(s, ".v" + Text(v))
  {
    if ExecSuffix(s, 0).Some? {
      var d := ExecSuffix(s, 0).value;
      ScanResult(s, 0);
      DigitsTrimmed(d);
    }
    if EndsWith(s, ".v" + Text(v)) {
      var tail := s[|s| - 3..];
      assert tail == ".v" + Text(v);
      assert s[|s| - 3] == tail[0] == '.' && s[|s| - 2] == tail[1] == 'v' && s[|s| - 1] == tail[2];
      ScanFinds(s, 0);
      assert s[|s| - 1..] == Text(v);
      DigitsTrimmed(Text(v));
    }
  }

  // ---- Coercion against its plain meaning ----

  predicate AllSpaces(s: string) {
    forall i | 0 <= i < |s| :: IsJsSpace(s[i])
  }

  /** Trimming to a text without outer white space is finding it between white space. */
  lemma {:induction false} TrimExactly(s: string, t: string)
    requires t != [] && !IsJsSpace(t[0]) && !IsJsSpace(t[|t| - 1])
    ensures Trim(s) == t <==> exists before, after :: s == before + t + after && AllSpaces(before) && AllSpaces(after)
    decreases |s|
  {
    if before, after :| s == before + t + after && AllSpaces(before) && AllSpaces(after) {
      TrimFinds(before, t, after);
    }
    if Trim(s) == t {
      var before, after := TrimSplits(s);
      assert s == before + t + after;
    }
  }

  lemma {:induction false} TrimFinds(before: string, t: string, after: string)
    requires t != [] && !IsJsSpace(t[0]) && !IsJsSpace(t[|t| - 1]) && AllSpaces(before) && AllSpaces(after)
    ensures Trim(before + t + after) == t
    decreases |before| + |after|
  {
    var s := before + t + after;
    if before != [] {
      assert s[0] == before[0] && s[1..] == before[1..] + t + after;
      TrimFinds(before[1..], t, after);
    } else if after != [] {
      assert s[0] == t[0] && s[|s| - 1] == after[|after| - 1] && s[..|s| - 1] == before + t + after[..|after| - 1];
      TrimFinds(before, t, after[..|after| - 1]);
    } else {
      assert s == t;
    }
  }

  lemma {:induction false} TrimSplits(s: string) returns (before: string, after: string)
    ensures s == before + Trim(s) + after && AllSpaces(before) && AllSpaces(after)
    decreases |s|
  {
    if s == [] {
      before, after := [], [];
    } else if IsJsSpace(s[0]) {
      before, after := TrimSplits(s[1..]);
      assert s == [s[0]] + s[1..];
      before := [s[0]] + before;
    } else if IsJsSpace(s[|s| - 1]) {
      before, after := TrimSplits(s[..|s| - 1]);
      assert s == s[..|s| - 1] + [s[|s| - 1]];
      after := after + [s[|s| - 1]];
    } else {
      before, after := [], [];
    }
  }

  /** The text is the digit, up to white space around it. */
  ghost predicate Reads(s: string, digit: char) {
    exists before, after :: s == before + [digit] + after && AllSpaces(before) && AllSpaces(after)
  }

  ghost predicate Claims(v: Json, digit: char, number: real) {
    (v.JStr? && Reads(v.s, digit)) || v == JNum(number)
  }

  lemma TextCoerces(s: string)
    ensures CoerceText(s) == Some(V1) <==> Reads(s, '1')
    ensures CoerceText(s) == Some(V2) <==> Reads(s, '2')
  {
    TrimExactly(s, "1");
    TrimExactly(s, "2");
    assert "1" == ['1'] && "2" == ['2'];
    assert "1"[0] != "2"[0];
  }

  /** A header or field value claims a version exactly if it is text, or bytes of text, that is
      the digit up to white space, or the number itself. */
  lemma CoercesExactly(v: Json, h: Header)
    ensures CoerceJson(v) == Some(V1) <==> Claims(v, '1', 1.0)
    ensures CoerceJson(v) == Some(V2) <==> Claims(v, '2', 2.0)
    ensures CoerceHeader(h) == Some(V1) <==> (h.Plain? && Claims(h.value, '1', 1.0)) || (h.Bytes? && Reads(h.text, '1'))
    ensures CoerceHeader(h) == Some(V2) <==> (h.Plain? && Claims(h.value, '2', 2.0)) || (h.Bytes? && Reads(h.text, '2'))
  {
    if v.JStr? {
      TextCoerces(v.s);
    }
    if h.Plain? && h.value.JStr? {
      TextCoerces(h.value.s);
    }
    if h.Bytes? {
      TextCoerces(h.text);
    }
  }

  /** An event without a version field of its own goes by its header: text, bytes or a number. */
  lemma HeaderDecides(fields: map<string, Json>, h: Header, explicitType: Option<Json>)
    requires "schemaVersion" !in fields
    ensures (h.Plain? && Claims(h.value, '2', 2.0)) || (h.Bytes? && Reads(h.text, '2')) ==>
              ResolveSchemaVersion(JObj(fields), h, explicitType) == V2
    ensures (h.Plain? && Claims(h.value, '1', 1.0)) || (h.Bytes? && Reads(h.text, '1')) ==>
              ResolveSchemaVersion(JObj(fields), h, explicitType) == V1
  {
    CoercesExactly(JNull, h);
  }

  /** Strict precedence: a later source matters only when every earlier one is silent, and
      an event is version 2 exactly when the first source that speaks says so. */
  lemma ResolvesToV2Exactly(envelope: Json, header: Header, explicitType: Option<Json>)
    ensures var field := CoerceField(FieldOf(envelope, "schemaVersion"));
            var mirror := CoerceHeader(header);
            var t := if explicitType.Some? then explicitType else FieldOf(envelope, "type");
            ResolveSchemaVersion(envelope, header, explicitType) == V2 <==>
              || field == Some(V2)
              || (field == None && mirror == Some(V2))
              || (field == None && mirror == None && t.Some? && t.value.JStr? && EndsWith(t.value.s, ".v2"))
  {
    var t := if explicitType.Some? then explicitType else FieldOf(envelope, "type");
    if t.Some? && t.value.JStr? {
      SuffixExactly(t.value.s, V1);
      SuffixExactly(t.value.s, V2);
    }
  }
}
