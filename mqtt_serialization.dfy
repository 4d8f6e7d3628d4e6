// Field validation, command deserialization and the user-data and envelope
// helpers of the protocol (mqtt_serialization.cpp).
//
// A parsed JSON object is a `JsonObject` map. Every deserializer first clears
// its output record, copies the members it finds with `strlcpy` into the
// record's bounded buffers and only then validates what it copied.

module MqttSerialization {
  import opened Common
  import opened Json
  import opened MqttTypes
  import opened MqttSchema

  // ------------------------------------------------------------- validators

  /** A tag UID: non-empty, at least one ':', and nothing but hex digits and ':'. */
  predicate ValidTagUid(uid: string)
  {
    |uid| > 0 && ':' in uid && forall i :: 0 <= i < |uid| ==> uid[i] == ':' || IsHexDigit(uid[i])
  }

  /** A hex key: exactly 32 hex digits. */
  predicate ValidHexKey(key: string)
  {
    |key| == 32 && forall i :: 0 <= i < |key| ==> IsHexDigit(key[i])
  }

  /** The positions of the four hyphens of a textual UUID. */
  predicate UuidHyphenAt(i: int)
  {
    i == 8 || i == 13 || i == 18 || i == 23
  }

  /** A UUID: 36 characters, '-' at 8, 13, 18 and 23, hex digits elsewhere. */
  predicate ValidUuid(uuid: string)
  {
    |uuid| == 36
    && forall i :: 0 <= i < |uuid| ==> if UuidHyphenAt(i) then uuid[i] == '-' else IsHexDigit(uuid[i])
  }

  predicate IsDeviceIdChar(c: char)
  {
    IsAlnum(c) || c == '_' || c == '-'
  }

  /** A device id: 1 to 64 letters, digits, '_' or '-'. */
  predicate ValidDeviceId(id: string)
  {
    0 < |id| <= MAX_DEVICE_ID_LENGTH && forall i :: 0 <= i < |id| ==> IsDeviceIdChar(id[i])
  }

  /** `isValidTagUID`: pairing of the digits is not checked. */
  method IsValidTagUid(uid: CStr) returns (ok: bool)
    ensures ok == ValidTagUid(uid)
  {
    if |uid| == 0 {
      return false;
    }
    if ':' !in uid {
      return false;
    }
    var i := 0;
    while i < |uid|
      invariant 0 <= i <= |uid|
      invariant forall j :: 0 <= j < i ==> uid[j] == ':' || IsHexDigit(uid[j])
    {
      var c := uid[i];
      if c != ':' && !IsHexDigit(c) {
        return false;
      }
      i := i + 1;
    }
    return true;
  }

  /** `isValidHexKey` */
  method IsValidHexKey(key: CStr) returns (ok: bool)
    ensures ok == ValidHexKey(key)
  {
    if |key| != 32 {
      return false;
    }
    var i := 0;
    while i < |key|
      invariant 0 <= i <= |key|
      invariant forall j :: 0 <= j < i ==> IsHexDigit(key[j])
    {
      if !IsHexDigit(key[i]) {
        return false;
      }
      i := i + 1;
    }
    return true;
  }

  /** `isValidUUID`: the hyphens are checked first, then the other 32 positions. */
  method IsValidUuid(uuid: CStr) returns (ok: bool)
    ensures ok == ValidUuid(uuid)
  {
    if |uuid| != 36 {
      return false;
    }
    if uuid[8] != '-' || uuid[13] != '-' || uuid[18] != '-' || uuid[23] != '-' {
      return false;
    }
    var i := 0;
    while i < |uuid|
      invariant 0 <= i <= |uuid|
      invariant forall j :: 0 <= j < i ==> if UuidHyphenAt(j) then uuid[j] == '-' else IsHexDigit(uuid[j])
    {
      if !UuidHyphenAt(i) && !IsHexDigit(uuid[i]) {
        return false;
      }
      i := i + 1;
    }
    return true;
  }

  /** `isValidDeviceId` */
  method IsValidDeviceId(id: CStr) returns (ok: bool)
    ensures ok == ValidDeviceId(id)
  {
    if |id| == 0 {
      return false;
    }
    if |id| > MAX_DEVICE_ID_LENGTH {
      return false;
    }
    var i := 0;
    while i < |id|
      invariant 0 <= i <= |id|
      invariant forall j :: 0 <= j < i ==> IsDeviceIdChar(id[j])
    {
      var c := id[i];
      if !IsAlnum(c) && c != '_' && c != '-' {
        return false;
      }
      i := i + 1;
    }
    return true;
  }

  // The accepted and rejected examples of the protocol's tests.

  lemma TagUidExamples()
    ensures ValidTagUid("04:A1:B2:C3") && ValidTagUid("04:AA:BB:CC:DD:EE:FF")
    ensures !ValidTagUid("") && !ValidTagUid("04A1B2C3") && !ValidTagUid("04:ZZ:11")
  {
    assert !IsHexDigit("04:ZZ:11"[3]);
  }

  lemma HexKeyExamples()
    ensures ValidHexKey("0123456789ABCDEF0123456789ABCDEF")
    ensures ValidHexKey("00000000000000000000000000000000")
    ensures !ValidHexKey("") && !ValidHexKey("0123456789ABCDEF")
    ensures !ValidHexKey("0123456789ABCDEF0123456789ABCDEG")
  {
    assert !IsHexDigit("0123456789ABCDEF0123456789ABCDEG"[31]);
  }

  lemma UuidExamples()
    ensures ValidUuid("550e8400-e29b-41d4-a716-446655440000")
    ensures !ValidUuid("") && !ValidUuid("550e8400-e29b-41d4")
    ensures !ValidUuid("550e8400-e29b-41d4-a716-44665544000G")
  {
    assert !IsHexDigit("550e8400-e29b-41d4-a716-44665544000G"[35]);
  }

  lemma DeviceIdExamples()
    ensures ValidDeviceId("device-001") && ValidDeviceId("reader_main")
    ensures !ValidDeviceId("") && !ValidDeviceId("device@001")
  {
    assert !IsDeviceIdChar("device@001"[6]);
  }

  // ----------------------------------------------------------- field access

  /**
   * `strlcpy(buf, obj[key] | "", size)`: the member's text, cut at its first
   * NUL and to `size - 1` characters; empty when the member is absent or is
   * not a string.
   */
  function FieldText(obj: JsonObject, key: string, size: nat): (r: CStr)
    requires size >= 1
    ensures |r| < size
    ensures key !in obj || !obj[key].Str? ==> r == ""
    ensures key in obj && obj[key].Str? ==> r == Strlcpy(obj[key].s, size)
  {
    Strlcpy(StringOr(obj, key, ""), size)
  }

  /** A member that is a string without NUL that fits the buffer is copied unchanged. */
  lemma FieldTextOfFittingString(obj: JsonObject, key: string, size: nat)
    requires size >= 1 && key in obj && obj[key].Str?
    requires '\0' !in obj[key].s && |obj[key].s| < size
    ensures FieldText(obj, key, size) == obj[key].s
  {
    StrlcpyKeepsFittingString(obj[key].s, size);
  }

  /** The bound every start command puts on `timeout_seconds`. */
  predicate ValidTimeout(t: int)
  {
    1 <= t <= 300
  }

  // -------------------------------------------------------------- user data

  /** `deserializeUserData`: absent members stay empty; it never fails. */
  method DeserializeUserData(obj: JsonObject, u: UserData) returns (ok: bool)
    modifies u
    ensures ok
    ensures u.Valid()
    ensures u.username == FieldText(obj, "username", USERNAME_SIZE)
    ensures u.context == FieldText(obj, "context", CONTEXT_SIZE)
  {
    u.Clear();
    if "username" in obj {
      u.username := Strlcpy(StringOr(obj, "username", ""), USERNAME_SIZE);
    }
    if "context" in obj {
      u.context := Strlcpy(StringOr(obj, "context", ""), CONTEXT_SIZE);
    }
    return true;
  }

  /**
   * `serializeUserData`: adds `username` and `context` to `obj`, each only
   * when it is non-empty; every other member of `obj` is left as it was.
   */
  function SerializeUserData(obj: JsonObject, u: UserData): (r: JsonObject)
    reads u
    ensures u.username != "" ==> "username" in r && r["username"] == Str(u.username)
    ensures u.context != "" ==> "context" in r && r["context"] == Str(u.context)
    ensures u.username == "" ==> ("username" in r <==> "username" in obj)
    ensures u.context == "" ==> ("context" in r <==> "context" in obj)
    ensures forall k :: k in obj ==> k in r
    ensures forall k :: k in r && k != "username" && k != "context" ==> k in obj && r[k] == obj[k]
  {
    var withName := if u.username != "" then obj["username" := Str(u.username)] else obj;
    if u.context != "" then withName["context" := Str(u.context)] else withName
  }

  /**
   * Serializing user data into a fresh object and reading it back gives the
   * same user data: an empty field is omitted and reads back as empty.
   */
  lemma UserDataRoundTrip(u: UserData)
    requires u.Valid()
    ensures FieldText(SerializeUserData(map[], u), "username", USERNAME_SIZE) == u.username
    ensures FieldText(SerializeUserData(map[], u), "context", CONTEXT_SIZE) == u.context
  {
    var r := SerializeUserData(map[], u);
    if u.username != "" {
      FieldTextOfFittingString(r, "username", USERNAME_SIZE);
    }
    if u.context != "" {
      FieldTextOfFittingString(r, "context", CONTEXT_SIZE);
    }
  }

  // ---------------------------------------------------------------- commands

  /** The outcome `deserializeRegisterStart` computes: the copied fields and the verdict. */
  datatype RegisterStartOutcome = RegisterStartRead(tagUid: CStr, key: CStr, timeoutSeconds: int, accepted: bool)

  function RegisterStartOf(payload: JsonObject): (r: RegisterStartOutcome)
    ensures !("tag_uid" in payload && "key" in payload && "timeout_seconds" in payload) ==>
      r == RegisterStartRead("", "", 0, false)
    ensures r.accepted <==>
      "tag_uid" in payload && "key" in payload && "timeout_seconds" in payload
      && ValidTagUid(r.tagUid) && ValidHexKey(r.key) && ValidTimeout(r.timeoutSeconds)
  {
    if "tag_uid" in payload && "key" in payload && "timeout_seconds" in payload then
      var tagUid := FieldText(payload, "tag_uid", TAG_UID_SIZE);
      var key := FieldText(payload, "key", HEX_KEY_SIZE);
      var t := IntOr(payload, "timeout_seconds", 0);
      RegisterStartRead(tagUid, key, t, ValidTagUid(tagUid) && ValidHexKey(key) && ValidTimeout(t))
    else
      RegisterStartRead("", "", 0, false)
  }

  /** `deserializeRegisterStart` */
  method DeserializeRegisterStart(payload: JsonObject, data: RegisterStartPayload) returns (ok: bool)
    modifies data
    ensures data.Valid()
    ensures RegisterStartOf(payload) == RegisterStartRead(data.tagUid, data.key, data.timeoutSeconds, ok)
  {
    data.Clear();
    if !("tag_uid" in payload) || !("key" in payload) || !("timeout_seconds" in payload) {
      return false;
    }
    data.tagUid := Strlcpy(StringOr(payload, "tag_uid", ""), TAG_UID_SIZE);
    data.key := Strlcpy(StringOr(payload, "key", ""), HEX_KEY_SIZE);
    data.timeoutSeconds := IntOr(payload, "timeout_seconds", 0);
    var uidOk := IsValidTagUid(data.tagUid);
    var keyOk := IsValidHexKey(data.key);
    if !uidOk || !keyOk || data.timeoutSeconds < 1 || data.timeoutSeconds > 300 {
      return false;
    }
    return true;
  }

  /**
   * When the members are strings that fit their buffers and the timeout is an
   * integer, `register_start` is accepted exactly when the UID and the key
   * are valid and the timeout lies in 1..300, and the record holds them as sent.
   */
  lemma RegisterStartAcceptsFittingMembers(payload: JsonObject, tagUid: CStr, key: CStr, t: int)
    requires payload == map["tag_uid" := Str(tagUid), "key" := Str(key), "timeout_seconds" := Int(t)]
    requires |tagUid| <= MAX_TAG_UID_LENGTH && |key| <= MAX_HEX_KEY_LENGTH && IsInt32(t)
    ensures RegisterStartOf(payload).accepted <==> ValidTagUid(tagUid) && ValidHexKey(key) && ValidTimeout(t)
    ensures RegisterStartOf(payload).tagUid == tagUid && RegisterStartOf(payload).key == key
    ensures RegisterStartOf(payload).timeoutSeconds == t
  {
    FieldTextOfFittingString(payload, "tag_uid", TAG_UID_SIZE);
    FieldTextOfFittingString(payload, "key", HEX_KEY_SIZE);
  }

  /**
   * The key is validated after it has been cut to 32 characters: a longer
   * key whose first 32 characters are hex digits is accepted, and the device
   * keeps only those 32.
   */
  lemma RegisterStartTruncatesLongKey(tagUid: CStr, key: CStr, t: int)
    requires ValidTagUid(tagUid) && |tagUid| <= MAX_TAG_UID_LENGTH && ValidTimeout(t)
    requires |key| > MAX_HEX_KEY_LENGTH && ValidHexKey(key[..32])
    ensures var r := RegisterStartOf(map["tag_uid" := Str(tagUid), "key" := Str(key), "timeout_seconds" := Int(t)]);
      r.accepted && r.key == key[..32] && r.key != key
  {
    var payload := map["tag_uid" := Str(tagUid), "key" := Str(key), "timeout_seconds" := Int(t)];
    FieldTextOfFittingString(payload, "tag_uid", TAG_UID_SIZE);
    CStringOfPlainString(key);
  }

  /** What `deserializeAuthStart` and `deserializeReadStart` read: the timeout, or 0. */
  function TimeoutOf(payload: JsonObject): (t: int)
    ensures IsInt32(t)
    ensures "timeout_seconds" in payload && payload["timeout_seconds"].Int? && IsInt32(payload["timeout_seconds"].i)
      ==> t == payload["timeout_seconds"].i
  {
    if "timeout_seconds" in payload then IntOr(payload, "timeout_seconds", 0) else 0
  }

  /**
   * A start command with only a timeout is accepted exactly when
   * `timeout_seconds` is an integer from 1 to 300; a missing member, a
   * string, a fraction or an out-of-range number is rejected.
   */
  predicate TimeoutAccepted(payload: JsonObject)
  {
    "timeout_seconds" in payload && ValidTimeout(TimeoutOf(payload))
  }

  lemma TimeoutAcceptedIff(payload: JsonObject)
    ensures TimeoutAccepted(payload) <==>
      "timeout_seconds" in payload && payload["timeout_seconds"].Int? && ValidTimeout(payload["timeout_seconds"].i)
  {
  }

  /** The timeout cases of the protocol's tests. */
  lemma TimeoutExamples()
    ensures TimeoutAccepted(map["timeout_seconds" := Int(45)]) && TimeoutOf(map["timeout_seconds" := Int(45)]) == 45
    ensures !TimeoutAccepted(map["timeout_seconds" := Int(500)])
    ensures !TimeoutAccepted(map["timeout_seconds" := Int(0)])
    ensures !TimeoutAccepted(map[])
  {
  }

  /** `deserializeAuthStart` */
  method DeserializeAuthStart(payload: JsonObject, data: AuthStartPayload) returns (ok: bool)
    modifies data
    ensures data.Valid() && data.timeoutSeconds == TimeoutOf(payload)
    ensures ok == TimeoutAccepted(payload)
  {
    data.Clear();
    if !("timeout_seconds" in payload) {
      return false;
    }
    data.timeoutSeconds := IntOr(payload, "timeout_seconds", 0);
    if data.timeoutSeconds < 1 || data.timeoutSeconds > 300 {
      return false;
    }
    return true;
  }

  /** `deserializeReadStart` */
  method DeserializeReadStart(payload: JsonObject, data: ReadStartPayload) returns (ok: bool)
    modifies data
    ensures data.Valid() && data.timeoutSeconds == TimeoutOf(payload)
    ensures ok == TimeoutAccepted(payload)
  {
    data.Clear();
    if !("timeout_seconds" in payload) {
      return false;
    }
    data.timeoutSeconds := IntOr(payload, "timeout_seconds", 0);
    if data.timeoutSeconds < 1 || data.timeoutSeconds > 300 {
      return false;
    }
    return true;
  }

  /** The outcome `deserializeAuthVerify` computes. */
  datatype AuthVerifyOutcome = AuthVerifyRead(tagUid: CStr, key: CStr, username: CStr, context: CStr, accepted: bool)

  function AuthVerifyOf(payload: JsonObject): (r: AuthVerifyOutcome)
    ensures !("tag_uid" in payload && "key" in payload && "user_data" in payload) ==>
      r == AuthVerifyRead("", "", "", "", false)
    ensures r.accepted <==>
      "tag_uid" in payload && "key" in payload && "user_data" in payload
      && ValidTagUid(r.tagUid) && ValidHexKey(r.key)
  {
    if "tag_uid" in payload && "key" in payload && "user_data" in payload then
      var tagUid := FieldText(payload, "tag_uid", TAG_UID_SIZE);
      var key := FieldText(payload, "key", HEX_KEY_SIZE);
      var user := ObjectOf(payload, "user_data");
      AuthVerifyRead(tagUid, key, FieldText(user, "username", USERNAME_SIZE), FieldText(user, "context", CONTEXT_SIZE),
                 ValidTagUid(tagUid) && ValidHexKey(key))
    else
      AuthVerifyRead("", "", "", "", false)
  }

  /** `deserializeAuthVerify`: the user data is copied before the UID and key are validated. */
  method DeserializeAuthVerify(payload: JsonObject, data: AuthVerifyPayload) returns (ok: bool)
    modifies data, data.userData
    ensures data.Valid()
    ensures AuthVerifyOf(payload) == AuthVerifyRead(data.tagUid, data.key, data.userData.username, data.userData.context, ok)
  {
    data.Clear();
    if !("tag_uid" in payload) || !("key" in payload) || !("user_data" in payload) {
      return false;
    }
    data.tagUid := Strlcpy(StringOr(payload, "tag_uid", ""), TAG_UID_SIZE);
    data.key := Strlcpy(StringOr(payload, "key", ""), HEX_KEY_SIZE);
    var userOk := DeserializeUserData(ObjectOf(payload, "user_data"), data.userData);
    if !userOk {
      return false;
    }
    var uidOk := IsValidTagUid(data.tagUid);
    var keyOk := IsValidHexKey(data.key);
    if !uidOk || !keyOk {
      return false;
    }
    return true;
  }

  /**
   * The user data an auth_success event carries reads back, through
   * auth_verify, as the user data it was built from.
   */
  lemma AuthVerifyReadsSerializedUserData(tagUid: CStr, key: CStr, u: UserData)
    requires u.Valid() && ValidTagUid(tagUid) && |tagUid| <= MAX_TAG_UID_LENGTH && ValidHexKey(key)
    ensures var r := AuthVerifyOf(map["tag_uid" := Str(tagUid), "key" := Str(key),
                                      "user_data" := Object(SerializeUserData(map[], u))]);
      r == AuthVerifyRead(tagUid, key, u.username, u.context, true)
  {
    var payload := map["tag_uid" := Str(tagUid), "key" := Str(key), "user_data" := Object(SerializeUserData(map[], u))];
    FieldTextOfFittingString(payload, "tag_uid", TAG_UID_SIZE);
    FieldTextOfFittingString(payload, "key", HEX_KEY_SIZE);
    UserDataRoundTrip(u);
  }

  // ---------------------------------------------------------------- envelope

  /** The envelope fields `deserializeEnvelope` fills in. */
  datatype Envelope = Envelope(version: CStr, timestamp: CStr, deviceId: CStr, eventType: CStr,
                               requestId: CStr, payload: JsonObject)

  predicate HasEnvelopeKeys(fields: JsonObject)
  {
    "version" in fields && "timestamp" in fields && "device_id" in fields
    && "event_type" in fields && "request_id" in fields && "payload" in fields
  }

  /**
   * The envelope a message parses to: `None` when the text did not parse
   * (`doc` is `None`), when its root is not an object, or when any of the
   * six envelope members is missing.
   */
  function EnvelopeOf(doc: Option<Value>): (r: Option<Envelope>)
    ensures r.Some? <==> doc.Some? && doc.value.Object? && HasEnvelopeKeys(doc.value.fields)
    ensures r.Some? ==>
      (|r.value.version| < VERSION_SIZE && |r.value.timestamp| < TIMESTAMP_SIZE
       && |r.value.deviceId| < DEVICE_ID_SIZE && |r.value.eventType| < EVENT_TYPE_SIZE
       && |r.value.requestId| < REQUEST_ID_SIZE)
  {
    if doc.Some? && doc.value.Object? && HasEnvelopeKeys(doc.value.fields) then
      var f := doc.value.fields;
      Some(Envelope(FieldText(f, "version", VERSION_SIZE), FieldText(f, "timestamp", TIMESTAMP_SIZE),
                    FieldText(f, "device_id", DEVICE_ID_SIZE), FieldText(f, "event_type", EVENT_TYPE_SIZE),
                    FieldText(f, "request_id", REQUEST_ID_SIZE), ObjectOf(f, "payload")))
    else
      None
  }

  /** `deserializeEnvelope`: on failure the envelope is left untouched. */
  method DeserializeEnvelope(doc: Option<Value>, e: MessageEnvelope) returns (ok: bool)
    modifies e
    ensures ok <==> EnvelopeOf(doc).Some?
    ensures ok ==> e.Valid()
    ensures ok ==>
      EnvelopeOf(doc).value == Envelope(e.version, e.timestamp, e.deviceId, e.eventType, e.requestId, e.payload)
    ensures !ok ==> unchanged(e)
  {
    if doc.None? {
      return false;
    }
    var root := doc.value;
    if !root.Object? {
      return false;
    }
    var f := root.fields;
    if !("version" in f) || !("timestamp" in f) || !("device_id" in f) || !("event_type" in f)
      || !("request_id" in f) || !("payload" in f)
    {
      return false;
    }
    e.version := Strlcpy(StringOr(f, "version", ""), VERSION_SIZE);
    e.timestamp := Strlcpy(StringOr(f, "timestamp", ""), TIMESTAMP_SIZE);
    e.deviceId := Strlcpy(StringOr(f, "device_id", ""), DEVICE_ID_SIZE);
    e.eventType := Strlcpy(StringOr(f, "event_type", ""), EVENT_TYPE_SIZE);
    e.requestId := Strlcpy(StringOr(f, "request_id", ""), REQUEST_ID_SIZE);
    e.payload := ObjectOf(f, "payload");
    return true;
  }

  /**
   * `serializeEnvelope`, as the document it builds before printing: the five
   * string fields and an empty `payload` object for the caller to fill.
   */
  function SerializeEnvelope(e: MessageEnvelope): (doc: JsonObject)
    reads e
    ensures HasEnvelopeKeys(doc) && doc["payload"] == Object(map[])
    ensures doc["version"] == Str(e.version) && doc["request_id"] == Str(e.requestId)
  {
    map["version" := Str(e.version), "timestamp" := Str(e.timestamp), "device_id" := Str(e.deviceId),
        "event_type" := Str(e.eventType), "request_id" := Str(e.requestId), "payload" := Object(map[])]
  }

  /** Serializing an envelope and parsing it back preserves its five string fields. */
  lemma EnvelopeRoundTrip(e: MessageEnvelope)
    requires e.Valid()
    ensures EnvelopeOf(Some(Object(SerializeEnvelope(e))))
      == Some(Envelope(e.version, e.timestamp, e.deviceId, e.eventType, e.requestId, map[]))
  {
    var f := SerializeEnvelope(e);
    FieldTextOfFittingString(f, "version", VERSION_SIZE);
    FieldTextOfFittingString(f, "timestamp", TIMESTAMP_SIZE);
    FieldTextOfFittingString(f, "device_id", DEVICE_ID_SIZE);
    FieldTextOfFittingString(f, "event_type", EVENT_TYPE_SIZE);
    FieldTextOfFittingString(f, "request_id", REQUEST_ID_SIZE);
  }

  /** A document missing any one envelope member is rejected. */
  lemma EnvelopeRejectsMissingMember(fields: JsonObject, key: string)
    requires key in {"version", "timestamp", "device_id", "event_type", "request_id", "payload"}
    requires key !in fields
    ensures EnvelopeOf(Some(Object(fields))).None?
  {
  }
}

// The register_start cases of the protocol's tests
// (test_mqtt_serialization.cpp), stated on the model.
module SerializationExamples {
  import opened Common
  import opened Json
  import opened MqttSerialization

  // The register_start command of the protocol's tests.
  const SampleTagUid: CStr := "04:A1:B2:C3:D4:E5:F6"
  const SampleKey: CStr := "0123456789ABCDEF0123456789ABCDEF"

  lemma SampleFieldsValid()
    ensures ValidTagUid(SampleTagUid) && |SampleTagUid| <= 32
    ensures ValidHexKey(SampleKey)
  {
    assert SampleTagUid[2] == ':';
  }

  lemma RegisterStartAcceptedExample()
    ensures RegisterStartOf(map["tag_uid" := Str(SampleTagUid), "key" := Str(SampleKey), "timeout_seconds" := Int(30)])
      == RegisterStartRead(SampleTagUid, SampleKey, 30, true)
  {
    SampleFieldsValid();
    RegisterStartAcceptsFittingMembers(
      map["tag_uid" := Str(SampleTagUid), "key" := Str(SampleKey), "timeout_seconds" := Int(30)],
      SampleTagUid, SampleKey, 30);
  }

  /** The register_start with a 16-character key that the protocol's tests reject. */
  lemma RegisterStartShortKeyExample()
    ensures !RegisterStartOf(map["tag_uid" := Str("04:AA:BB:CC"), "key" := Str("0123456789ABCDEF"),
                                 "timeout_seconds" := Int(30)]).accepted
  {
    var uid: CStr := "04:AA:BB:CC";
    var key: CStr := "0123456789ABCDEF";
    assert !ValidHexKey(key);
    RegisterStartAcceptsFittingMembers(map["tag_uid" := Str(uid), "key" := Str(key), "timeout_seconds" := Int(30)],
                                       uid, key, 30);
  }
}
