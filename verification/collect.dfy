/**
 * The ingestion side: the structural check a collect payload must pass, the
 * canonicalisation of error types, and the dispatch of a payload to the
 * event or the error sink.
 */
module Collect {
  import opened Optional
  import opened Js

  /** A string property that is present and non-empty. */
  predicate NonEmptyString(v: Value) {
    v.Str? && |v.s| > 0
  }

  /**
   * `validateCollectPayload(payload)`: an object whose `type` is "event" or
   * "error", whose `timestamp` is a finite number, whose `data` is an
   * object, and whose `data.name` (events) or `data.message` (errors) is a
   * non-empty string.
   */
  function ValidateCollectPayload(payload: Value): (ok: bool)
    ensures ok <==>
      && payload.Object?
      && Get(payload, "type") in {Str("event"), Str("error")}
      && Get(payload, "timestamp").Number? && Get(payload, "timestamp").n.Finite?
      && Get(payload, "data").Object?
      && (if Get(payload, "type") == Str("event") then NonEmptyString(Get(Get(payload, "data"), "name"))
          else NonEmptyString(Get(Get(payload, "data"), "message")))
  {
    if !Truthy(payload) || !IsObjectType(payload) then false
    else
      var kind := Get(payload, "type");
      if kind != Str("event") && kind != Str("error") then false
      else
        var ts := Get(payload, "timestamp");
        if !(ts.Number? && ts.n.Finite?) then false
        else
          var detail := Get(payload, "data");
          if !Truthy(detail) || !IsObjectType(detail) then false
          else if kind == Str("event") then NonEmptyString(Get(detail, "name"))
          else NonEmptyString(Get(detail, "message"))
  }

  /** The smallest event payload the SDK sends. */
  function EventPayload(timestamp: real, name: string): Value {
    Object(map["type" := Str("event"), "timestamp" := Number(Finite(timestamp)),
               "data" := Object(map["name" := Str(name)])])
  }

  /** The smallest error payload the SDK sends. */
  function ErrorPayload(timestamp: real, message: string): Value {
    Object(map["type" := Str("error"), "timestamp" := Number(Finite(timestamp)),
               "data" := Object(map["message" := Str(message)])])
  }

  /** A well-formed SDK payload is accepted exactly when its name or message is non-empty. */
  lemma MinimalPayloadsAccepted(timestamp: real, text: string)
    ensures ValidateCollectPayload(EventPayload(timestamp, text)) <==> |text| > 0
    ensures ValidateCollectPayload(ErrorPayload(timestamp, text)) <==> |text| > 0
  {
    assert Get(EventPayload(timestamp, text), "type") == Str("event");
    assert Get(ErrorPayload(timestamp, text), "type") == Str("error");
  }

  /** The payload fields the validator reads. */
  const CheckedFields: set<string> := {"type", "timestamp", "data"}

  /** Fields other than `type`, `timestamp` and `data` never change the verdict. */
  lemma ExtraFieldsIgnored(fields: map<string, Value>, k: string, v: Value)
    requires k !in CheckedFields
    ensures ValidateCollectPayload(Object(fields[k := v])) == ValidateCollectPayload(Object(fields))
  {
    assert Get(Object(fields[k := v]), "type") == Get(Object(fields), "type");
    assert Get(Object(fields[k := v]), "timestamp") == Get(Object(fields), "timestamp");
    assert Get(Object(fields[k := v]), "data") == Get(Object(fields), "data");
  }

  /** Anything that is not a plain object is refused: null, arrays, and every primitive. */
  lemma NonObjectsRejected(payload: Value)
    requires !payload.Object?
    ensures !ValidateCollectPayload(payload)
  {
  }

  // ---------------------------------------------------------- error types

  /** Neither empty nor surrounded by whitespace: what `trim` leaves of a non-blank string. */
  predicate Tidy(t: string) {
    |t| > 0 && !IsWhitespace(t[0]) && !IsWhitespace(t[|t| - 1])
  }

  /** The names error types are stored under when they are recognised. */
  predicate IsCanonical(t: string) {
    t == "runtime" || t == "promise" || t == "resource"
  }

  /** The canonical error types and the aliases that fold into them (compared lower-cased). */
  function CanonicalErrorType(lower: string): (r: Option<string>)
    ensures r.Some? ==> IsCanonical(r.value)
  {
    if lower == "runtime" then Some("runtime")
    else if lower == "promise" || lower == "unhandledrejection" then Some("promise")
    else if lower == "resource" || lower == "resource-error" then Some("resource")
    else None
  }

  /** A canonical name is tidy, lower-case, and recognised as itself. */
  lemma CanonicalFixed(t: string)
    requires IsCanonical(t)
    ensures Tidy(t) && ToLower(t) == t
    ensures CanonicalErrorType(ToLower(t)) == Some(t)
  {
    if t == "runtime" {
      RuntimeIsLower();
    } else if t == "promise" {
      PromiseIsLower();
    } else {
      ResourceIsLower();
    }
  }

  lemma RuntimeIsLower()
    ensures Tidy("runtime") && ToLower("runtime") == "runtime"
    ensures CanonicalErrorType("runtime") == Some("runtime")
  {
    LowerCaseWord("runtime");
  }

  lemma PromiseIsLower()
    ensures Tidy("promise") && ToLower("promise") == "promise"
    ensures CanonicalErrorType("promise") == Some("promise")
  {
    LowerCaseWord("promise");
    assert "promise"[0] != "runtime"[0];
  }

  lemma ResourceIsLower()
    ensures Tidy("resource") && ToLower("resource") == "resource"
    ensures CanonicalErrorType("resource") == Some("resource")
  {
    LowerCaseWord("resource");
    assert |"resource"| != |"runtime"| && |"resource"| != |"promise"|;
    assert |"resource"| != |"unhandledrejection"|;
  }

  /** A word of lower-case ASCII letters is tidy and its own lower-case form. */
  lemma LowerCaseWord(w: string)
    requires |w| > 0 && forall i :: 0 <= i < |w| ==> 'a' <= w[i] <= 'z'
    ensures Tidy(w) && ToLower(w) == w
  {
    var l := ToLower(w);
    assert forall i :: 0 <= i < |w| ==> l[i] == w[i];
  }

  /** The runtime failure of calling `trim` on a value that is not a string. */
  const TypeErrorMessage: string := "TypeError: rawType.trim is not a function"

  /**
   * `normalizeErrorType(rawType)`: absent for a falsy or blank type, the
   * canonical name for a known type or alias (case-insensitive, ignoring
   * surrounding whitespace), and otherwise the trimmed original. The value
   * is typed as a string but not checked, so a truthy non-string throws.
   */
  function NormalizeErrorType(raw: Value): (r: Result<Option<string>, string>)
    ensures r.Err? <==> Truthy(raw) && !raw.Str?
    ensures r == Ok(None) <==> !Truthy(raw) || (raw.Str? && IsBlank(raw.s))
    ensures r.Ok? && r.value.Some? ==> Tidy(r.value.value)
    ensures r.Ok? && r.value.Some? ==>
      CanonicalErrorType(ToLower(r.value.value)) == Some(r.value.value) || r.value.value == Trim(raw.s)
    ensures raw.Str? && CanonicalErrorType(ToLower(Trim(raw.s))).Some? ==>
      r == Ok(CanonicalErrorType(ToLower(Trim(raw.s))))
    ensures raw.Str? && !IsBlank(raw.s) && CanonicalErrorType(ToLower(Trim(raw.s))).None? ==>
      r == Ok(Some(Trim(raw.s)))
  {
    if !Truthy(raw) then Ok(None)
    else if !raw.Str? then Err(TypeErrorMessage)
    else Ok(FoldErrorType(Trim(raw.s)))
  }

  /** The string case of `normalizeErrorType`, once trimmed. */
  function FoldErrorType(trimmed: string): (r: Option<string>)
    requires trimmed == [] || Tidy(trimmed)
    ensures r.None? <==> trimmed == []
    ensures r.Some? ==> Tidy(r.value)
    ensures r.Some? ==> CanonicalErrorType(ToLower(r.value)) == Some(r.value) || r.value == trimmed
    ensures CanonicalErrorType(ToLower(trimmed)).Some? ==> r == CanonicalErrorType(ToLower(trimmed))
    ensures trimmed != [] && CanonicalErrorType(ToLower(trimmed)).None? ==> r == Some(trimmed)
  {
    if trimmed == [] then None
    else
      var canonical := CanonicalErrorType(ToLower(trimmed));
      if canonical.Some? then
        CanonicalFixed(canonical.value);
        canonical
      else Some(trimmed)
  }

  /** Case and surrounding whitespace of a known type do not matter. */
  lemma KnownTypeFolds()
    ensures NormalizeErrorType(Str("Promise ")) == Ok(Some("promise"))
  {
    TrimLiteral("Promise ", "Promise");
    PromiseFolds();
    NormalizeKnown("Promise ", "Promise", "promise");
  }

  lemma PromiseFolds()
    ensures CanonicalErrorType(ToLower("Promise")) == Some("promise")
  {
    LowerCaseWord("romise");
    assert "Promise"[1..] == "romise";
    assert ToLower("Promise") == "promise" by {
      assert ToLower("Promise") == [LowerChar('P')] + "romise";
    }
    PromiseIsLower();
  }

  /** An unknown type is kept as sent, only trimmed. */
  lemma UnknownTypeKept()
    ensures NormalizeErrorType(Str("TypeError ")) == Ok(Some("TypeError"))
  {
    TrimLiteral("TypeError ", "TypeError");
    TypeErrorUnknown();
    NormalizeUnknown("TypeError ", "TypeError");
  }

  lemma TypeErrorUnknown()
    ensures CanonicalErrorType(ToLower("TypeError")) == None
  {
    UnknownByLength(ToLower("TypeError"));
  }

  /** No alias is 9 characters long. */
  lemma UnknownByLength(lower: string)
    requires |lower| == 9
    ensures CanonicalErrorType(lower) == None
  {
    assert |"runtime"| == 7 && |"promise"| == 7 && |"resource"| == 8;
    assert |"unhandledrejection"| == 18 && |"resource-error"| == 14;
  }

  lemma NormalizeKnown(raw: string, trimmed: string, c: string)
    requires |raw| > 0 && Trim(raw) == trimmed && CanonicalErrorType(ToLower(trimmed)) == Some(c)
    ensures NormalizeErrorType(Str(raw)) == Ok(Some(c))
  {
  }

  lemma NormalizeUnknown(raw: string, trimmed: string)
    requires |raw| > 0 && Trim(raw) == trimmed && trimmed != []
    requires CanonicalErrorType(ToLower(trimmed)) == None
    ensures NormalizeErrorType(Str(raw)) == Ok(Some(trimmed))
  {
  }

  /** Trimming a literal with one trailing space. */
  lemma TrimLiteral(s: string, t: string)
    requires |s| >= 2 && s == t + " " && !IsWhitespace(s[0]) && !IsWhitespace(s[|s| - 2])
    ensures Trim(s) == t
  {
    assert SkipStart(s, 0) == 0;
    assert SkipEnd(s, 0, |s| - 1) == |s| - 1;
    assert SkipEnd(s, 0, |s|) == |s| - 1;
    assert s[..|s| - 1] == t;
  }

  /** Normalising a normalised type changes nothing. */
  lemma NormalizeErrorTypeIdempotent(raw: Value)
    requires NormalizeErrorType(raw).Ok? && NormalizeErrorType(raw).value.Some?
    ensures NormalizeErrorType(Str(NormalizeErrorType(raw).value.value)) == NormalizeErrorType(raw)
  {
    var t := NormalizeErrorType(raw).value.value;
    TrimOfTrimmed(t);
    var lower := ToLower(Trim(raw.s));
    if CanonicalErrorType(lower).None? {
      assert t == Trim(raw.s);
    } else {
      CanonicalFixed(t);
    }
  }

  // ------------------------------------------------------------- dispatch

  /**
   * `normalizeErrorPayload(payload)`: the payload with `data.type` replaced
   * by its normalised form, or removed when that is absent; every other
   * field, of the payload and of its data, is kept.
   */
  function NormalizeErrorPayload(payload: Value): (r: Result<Value, string>)
    requires payload.Object? && Get(payload, "data").Object?
    ensures r.Err? <==> NormalizeErrorType(Get(Get(payload, "data"), "type")).Err?
    ensures r.Ok? ==>
      && r.value.Object?
      && r.value.fields.Keys == payload.fields.Keys
      && (forall k :: k in payload.fields && k != "data" ==> r.value.fields[k] == payload.fields[k])
      && Get(r.value, "data").Object?
      && (forall k :: k != "type" ==> Get(Get(r.value, "data"), k) == Get(Get(payload, "data"), k))
      && Get(Get(r.value, "data"), "type") ==
           (var t := NormalizeErrorType(Get(Get(payload, "data"), "type")).value;
            if t.Some? then Str(t.value) else Undefined)
  {
    var data := Get(payload, "data").fields;
    var normalized := NormalizeErrorType(Get(Get(payload, "data"), "type"));
    if normalized.Err? then Err(normalized.error)
    else
      var newData := WithType(data, normalized.value);
      ReplaceData(payload, newData);
      Ok(Object(payload.fields["data" := Object(newData)]))
  }

  /** `{ ...restData, type }` when a type is given, `restData` alone otherwise. */
  function WithType(data: map<string, Value>, t: Option<string>): (r: map<string, Value>)
    ensures forall k :: k != "type" ==> Get(Object(r), k) == Get(Object(data), k)
    ensures Get(Object(r), "type") == if t.Some? then Str(t.value) else Undefined
  {
    var rest := data - {"type"};
    if t.Some? then rest["type" := Str(t.value)] else rest
  }

  lemma ReplaceData(payload: Value, newData: map<string, Value>)
    requires payload.Object? && "data" in payload.fields
    ensures var r := Object(payload.fields["data" := Object(newData)]);
      && r.fields.Keys == payload.fields.Keys
      && (forall k :: k in payload.fields && k != "data" ==> r.fields[k] == payload.fields[k])
      && Get(r, "data") == Object(newData)
  {
  }

  /** What a payload is stored as. */
  datatype Write = InsertEvent(event: Value) | InsertError(error: Value)

  /**
   * `handleCollect(payload)`: an event goes to the event sink unchanged; any
   * other payload is an error and goes to the error sink normalised.
   */
  function HandleCollect(payload: Value): (r: Result<Write, string>)
    requires payload.Object? && Get(payload, "data").Object?
    ensures Get(payload, "type") == Str("event") ==> r == Ok(InsertEvent(payload))
    ensures Get(payload, "type") != Str("event") ==>
      (r.Ok? <==> NormalizeErrorPayload(payload).Ok?)
      && (r.Ok? ==> r.value == InsertError(NormalizeErrorPayload(payload).value))
  {
    if Get(payload, "type") == Str("event") then Ok(InsertEvent(payload))
    else
      var normalized := NormalizeErrorPayload(payload);
      if normalized.Err? then Err(normalized.error) else Ok(InsertError(normalized.value))
  }

  /**
   * An accepted error payload is stored unless its `data.type` is a truthy
   * non-string; the stored type, when present, is already normal.
   */
  lemma AcceptedErrorStored(payload: Value)
    requires ValidateCollectPayload(payload) && Get(payload, "type") == Str("error")
    ensures HandleCollect(payload).Ok? <==>
      !(Truthy(Get(Get(payload, "data"), "type")) && !Get(Get(payload, "data"), "type").Str?)
    ensures HandleCollect(payload).Ok? ==>
      var stored := HandleCollect(payload).value.error;
      var t := Get(Get(stored, "data"), "type");
      t != Undefined ==> t.Str? && NormalizeErrorType(t) == Ok(Some(t.s))
  {
    var raw := Get(Get(payload, "data"), "type");
    if NormalizeErrorType(raw).Ok? && NormalizeErrorType(raw).value.Some? {
      NormalizeErrorTypeIdempotent(raw);
    }
  }
}
