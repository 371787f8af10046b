/**
 * Error details stored with a document: a record of five fields, normalised, written as JSON behind a fixed
 * prefix, and read back; older plain messages have no prefix.
 */
module DocumentErrors {
  import opened Wrappers
  import opened Text
  import opened Json
  import opened TextLaws

  datatype Details = Details(stage: string, code: string, category: string, retryable: bool, message: string)

  const PREFIX: string := "RUDIX_ERR_V1::"
  const FALLBACK: string := "Processing failed"

  /** text.strip() or default */
  function StripOr(text: string, default: string): string {
    if Blank(text) then default else Strip(text)
  }

  function Normalize(d: Details): Details {
    var message := if d.message == "" then FALLBACK else d.message;
    Details(StripOr(d.stage, "unknown"), StripOr(d.code, "UNEXPECTED_ERROR"), StripOr(d.category, "unexpected"),
            d.retryable, StripOr(message, FALLBACK))
  }

  function ToJson(d: Details): Json {
    Obj(map["stage" := Str(d.stage), "code" := Str(d.code), "category" := Str(d.category),
            "retryable" := Bool(d.retryable), "message" := Str(d.message)])
  }

  /** The codec to text, and str(value) for values that are not text. */
  datatype Env = Env(json: Codec<string>, show: Json -> string)

  function Shown(env: Env, j: Json): string {
    if j.Str? then j.s else env.show(j)
  }

  function EncodeError(env: Env, d: Details): string {
    PREFIX + env.json.dump(ToJson(d))
  }

  /** The record a JSON object stands for, with the defaults for what it lacks. */
  function RawDetails(env: Env, fields: map<string, Json>): Details {
    Details(
      Shown(env, Lookup(fields, "stage", Str("unknown"))),
      Shown(env, Lookup(fields, "code", Str("UNEXPECTED_ERROR"))),
      Shown(env, Lookup(fields, "category", Str("unexpected"))),
      Truthy(Lookup(fields, "retryable", Bool(false))),
      Shown(env, Lookup(fields, "message", Str(FALLBACK))))
  }

  function DecodePayload(env: Env, payload: string): (Option<string>, Option<Details>) {
    match env.json.load(payload)
    case Some(Obj(fields)) => var d := Normalize(RawDetails(env, fields)); (Some(d.message), Some(d))
    case _ => (Some(FALLBACK), None)
  }

  /** The message to show and, when the stored text is a readable record, its details. */
  function DecodeError(env: Env, raw: Option<string>): (Option<string>, Option<Details>) {
    if raw.None? then (None, None)
    else if !(PREFIX <= raw.value) then (raw, None)
    else DecodePayload(env, raw.value[|PREFIX|..])
  }

  // ---------------------------------------------------------------------------------------------
  // Normal forms and round trips
  // ---------------------------------------------------------------------------------------------

  predicate Settled(text: string) {
    text != "" && Trimmed(text)
  }

  /** A record that normalisation leaves alone: every text field is non-empty and trimmed. */
  predicate Canonical(d: Details) {
    Settled(d.stage) && Settled(d.code) && Settled(d.category) && Settled(d.message)
  }

  lemma StripOrSettles(text: string, default: string)
    requires Settled(default)
    ensures Settled(StripOr(text, default))
    ensures StripOr(text, default) == text <==> Settled(text)
  {
    StripTrims(text);
    if Settled(text) {
      StripKeepsTrimmed(text);
    }
  }

  lemma DefaultsSettled()
    ensures Settled("unknown") && Settled("UNEXPECTED_ERROR") && Settled("unexpected") && Settled(FALLBACK)
  {
    assert "unknown"[0] == 'u' && "UNEXPECTED_ERROR"[0] == 'U' && "unexpected"[0] == 'u' && FALLBACK[0] == 'P';
    assert "unknown"[6] == 'n' && "UNEXPECTED_ERROR"[15] == 'R' && "unexpected"[9] == 'd' && FALLBACK[16] == 'd';
  }

  /** Normalisation always yields a canonical record, and changes exactly the records that are not canonical. */
  lemma NormalizeSettles(d: Details)
    ensures Canonical(Normalize(d))
    ensures Normalize(d) == d <==> Canonical(d)
  {
    DefaultsSettled();
    StripOrSettles(d.stage, "unknown");
    StripOrSettles(d.code, "UNEXPECTED_ERROR");
    StripOrSettles(d.category, "unexpected");
    StripOrSettles(if d.message == "" then FALLBACK else d.message, FALLBACK);
  }

  lemma NormalizeIdempotent(d: Details)
    ensures Normalize(Normalize(d)) == Normalize(d)
  {
    NormalizeSettles(d);
    NormalizeSettles(Normalize(d));
  }

  lemma FieldsReadBack(env: Env, d: Details)
    ensures RawDetails(env, ToJson(d).fields) == d
  {
  }

  lemma PayloadReadsBack(env: Env, d: Details)
    requires env.json.Invertible()
    ensures DecodePayload(env, env.json.dump(ToJson(d))) == (Some(Normalize(d).message), Some(Normalize(d)))
  {
    FieldsReadBack(env, d);
    assert env.json.load(env.json.dump(ToJson(d))) == Some(ToJson(d));
  }

  lemma PrefixStrips(payload: string)
    ensures PREFIX <= PREFIX + payload && (PREFIX + payload)[|PREFIX|..] == payload
  {
  }

  /** Decoding an encoded record gives its normal form and that form's message, whatever the record holds. */
  lemma EncodeThenDecode(env: Env, d: Details)
    requires env.json.Invertible()
    ensures DecodeError(env, Some(EncodeError(env, d))) == (Some(Normalize(d).message), Some(Normalize(d)))
  {
    PayloadReadsBack(env, d);
    PrefixStrips(env.json.dump(ToJson(d)));
  }

  /** So a record survives unchanged exactly when it is canonical, and a second trip changes nothing. */
  lemma RoundTripExactly(env: Env, d: Details)
    requires env.json.Invertible()
    ensures DecodeError(env, Some(EncodeError(env, d))).1 == Some(d) <==> Canonical(d)
    ensures DecodeError(env, Some(EncodeError(env, Normalize(d)))) == DecodeError(env, Some(EncodeError(env, d)))
  {
    EncodeThenDecode(env, d);
    EncodeThenDecode(env, Normalize(d));
    NormalizeSettles(d);
    NormalizeIdempotent(d);
  }

  /**
   * Whatever text is stored: details come back only from prefixed JSON objects and are always canonical and
   * carry the message shown; a text without the prefix is shown as it is.
   */
  lemma DecodeTotal(env: Env, raw: string)
    ensures var (message, details) := DecodeError(env, Some(raw));
            && message.Some?
            && (details.Some? <==> PREFIX <= raw && env.json.load(raw[|PREFIX|..]).Some? && env.json.load(raw[|PREFIX|..]).value.Obj?)
            && (details.Some? ==> Canonical(details.value) && message == Some(details.value.message))
            && (!(PREFIX <= raw) ==> message == Some(raw))
            && (PREFIX <= raw ==> Settled(message.value))
  {
    DefaultsSettled();
    if PREFIX <= raw {
      match env.json.load(raw[|PREFIX|..])
      case Some(Obj(fields)) =>
        NormalizeSettles(RawDetails(env, fields));
      case _ =>
    }
  }

  // ---------------------------------------------------------------------------------------------
  // Field by field
  // ---------------------------------------------------------------------------------------------

  /** The text between its white space, or the default when there is nothing else. */
  ghost predicate Cleans(text: string, default: string, result: string) {
    if CoreOf(text, "") then result == default else CoreOf(text, result)
  }

  lemma StripOrExactly(text: string, default: string, result: string)
    ensures Cleans(text, default, result) <==> result == StripOr(text, default)
  {
    StripIsCore(text, "");
    StripIsCore(text, result);
  }

  lemma NormalizeByField(d: Details)
    ensures var n := Normalize(d);
            && Cleans(d.stage, "unknown", n.stage) && Cleans(d.code, "UNEXPECTED_ERROR", n.code)
            && Cleans(d.category, "unexpected", n.category) && Cleans(d.message, "Processing failed", n.message)
            && n.retryable == d.retryable
  {
    var n := Normalize(d);
    StripOrExactly(d.stage, "unknown", n.stage);
    StripOrExactly(d.code, "UNEXPECTED_ERROR", n.code);
    StripOrExactly(d.category, "unexpected", n.category);
    MessageCleaned(d.message, n.message);
  }

  /** The message has its default twice in the source, which makes no difference. */
  lemma MessageCleaned(text: string, result: string)
    requires result == StripOr(if text == "" then FALLBACK else text, FALLBACK)
    ensures Cleans(text, "Processing failed", result)
  {
    StripOrExactly(text, FALLBACK, StripOr(text, FALLBACK));
    DefaultsSettled();
    StripKeepsTrimmed(FALLBACK);
  }

  /** What a JSON object says of a field: its text, another value shown as text, or nothing. */
  function SaidOf(env: Env, fields: map<string, Json>, name: string, default: string): string {
    if name !in fields then default
    else
      match fields[name]
      case Str(s) => s
      case other => env.show(other)
  }

  lemma RawByField(env: Env, fields: map<string, Json>)
    ensures RawDetails(env, fields) == Details(
      SaidOf(env, fields, "stage", "unknown"), SaidOf(env, fields, "code", "UNEXPECTED_ERROR"),
      SaidOf(env, fields, "category", "unexpected"), "retryable" in fields && Truthy(fields["retryable"]),
      SaidOf(env, fields, "message", "Processing failed"))
  {
  }

  /** A JSON object is read field by field. */
  ghost predicate ReadAs(env: Env, fields: map<string, Json>, d: Details) {
    && Cleans(SaidOf(env, fields, "stage", "unknown"), "unknown", d.stage)
    && Cleans(SaidOf(env, fields, "code", "UNEXPECTED_ERROR"), "UNEXPECTED_ERROR", d.code)
    && Cleans(SaidOf(env, fields, "category", "unexpected"), "unexpected", d.category)
    && Cleans(SaidOf(env, fields, "message", "Processing failed"), "Processing failed", d.message)
    && d.retryable == ("retryable" in fields && Truthy(fields["retryable"]))
  }

  lemma ReadByField(env: Env, fields: map<string, Json>)
    ensures ReadAs(env, fields, Normalize(RawDetails(env, fields)))
  {
    RawByField(env, fields);
    NormalizeByField(RawDetails(env, fields));
  }

  /** A stored text with the prefix and a JSON object behind it. */
  lemma DecodedByField(env: Env, raw: string, payload: string, fields: map<string, Json>)
    requires raw == "RUDIX_ERR_V1::" + payload && env.json.load(payload) == Some(Obj(fields))
    ensures var (message, details) := DecodeError(env, Some(raw));
            details.Some? && ReadAs(env, fields, details.value) && message == Some(details.value.message)
  {
    PrefixRead(env, raw, payload);
    ReadByField(env, fields);
  }

  lemma PrefixRead(env: Env, raw: string, payload: string)
    requires raw == "RUDIX_ERR_V1::" + payload
    ensures DecodeError(env, Some(raw)) == DecodePayload(env, payload)
  {
    PrefixStrips(payload);
  }

  /** Without the prefix a text is shown as it is; with it and no JSON object behind it, a fixed message is shown. */
  lemma UnreadableShown(env: Env, raw: string, payload: string)
    ensures !("RUDIX_ERR_V1::" <= raw) ==> DecodeError(env, Some(raw)) == (Some(raw), None)
    ensures raw == "RUDIX_ERR_V1::" + payload && (env.json.load(payload).Some? ==> !env.json.load(payload).value.Obj?) ==>
              DecodeError(env, Some(raw)) == (Some("Processing failed"), None)
    ensures DecodeError(env, None) == (None, None)
  {
    if raw == "RUDIX_ERR_V1::" + payload {
      PrefixRead(env, raw, payload);
    }
  }

  /** A record is written as the prefix and an object of its five fields. */
  lemma EncodedByField(env: Env, d: Details)
    ensures EncodeError(env, d) ==
              "RUDIX_ERR_V1::" + env.json.dump(Obj(map[
                "message" := Str(d.message), "retryable" := Bool(d.retryable), "category" := Str(d.category),
                "code" := Str(d.code), "stage" := Str(d.stage)]))
  {
    assert ToJson(d).fields == map[
      "message" := Str(d.message), "retryable" := Bool(d.retryable), "category" := Str(d.category),
      "code" := Str(d.code), "stage" := Str(d.stage)];
  }
}
