// The reader firmware's main program (main.cpp): the globals of the mode
// machine, the MQTT command handlers, `handleData`, the card passes of
// `loop()` and the hex and UID helpers they use.
//
// `client.publish` appends to `outbox`; an event is recorded by its kind,
// its request id and the fields main.cpp fills from its own state (the
// message texts, timestamps and the JSON built from them are not modelled).
// The time `millis()` returns and whether the MQTT and WiFi connections are
// up arrive as parameters of `Loop`.

module Firmware {
  import opened Common
  import opened Json
  import opened MqttTypes
  import opened MqttSchema
  import opened MqttSerialization
  import opened DesfireDriver
  import opened CardSecrets
  import opened Card

  // ------------------------------------------------------------- hex text

  /** A character `%02X` may print: a digit or an upper-case hex letter. */
  predicate UpperHexChar(c: char)
  {
    ('0' <= c <= '9') || ('A' <= c <= 'F')
  }

  /** The two digits `%02X` prints for a byte; they read back as the byte. */
  function HexPair(b: byte): (s: string)
    ensures |s| == 2 && IsHexDigit(s[0]) && IsHexDigit(s[1])
    ensures UpperHexChar(s[0]) && UpperHexChar(s[1])
    ensures HexDigitValue(s[0]) * 16 + HexDigitValue(s[1]) == b as int
  {
    [UpperHexDigit(b as int / 16), UpperHexDigit(b as int % 16)]
  }

  lemma HexPairInjective(a: byte, b: byte)
    requires HexPair(a) == HexPair(b)
    ensures a == b
  {
    assert HexDigitValue(HexPair(a)[0]) * 16 + HexDigitValue(HexPair(a)[1]) == a as int;
  }

  /** Two digits per byte, separated by colons, as the `"%02X:%02X:…"` format prints them. */
  function ColonHex(b: seq<byte>): (s: string)
    requires |b| > 0
    ensures |s| == 3 * |b| - 1
  {
    seq(3 * |b| - 1, i requires 0 <= i < 3 * |b| - 1 =>
      if i % 3 == 2 then ':' else HexPair(b[i / 3])[i % 3])
  }

  /** Byte `k` is printed at offset `3 k`, followed by a colon unless it is the last. */
  lemma ColonHexLayout(b: seq<byte>, k: nat)
    requires k < |b|
    ensures ColonHex(b)[3 * k] == HexPair(b[k])[0] && ColonHex(b)[3 * k + 1] == HexPair(b[k])[1]
    ensures k < |b| - 1 ==> ColonHex(b)[3 * k + 2] == ':'
  {
    assert (3 * k) / 3 == k && (3 * k) % 3 == 0;
    assert (3 * k + 1) / 3 == k && (3 * k + 1) % 3 == 1;
    assert (3 * k + 2) % 3 == 2;
  }

  /** Only colons and upper-case hex digits are printed. */
  lemma ColonHexChars(b: seq<byte>)
    requires |b| > 0
    ensures forall i :: 0 <= i < |ColonHex(b)| ==> ColonHex(b)[i] == ':' || UpperHexChar(ColonHex(b)[i])
  {
    forall i | 0 <= i < |ColonHex(b)|
      ensures ColonHex(b)[i] == ':' || UpperHexChar(ColonHex(b)[i])
    {
      if i % 3 != 2 {
        var h := HexPair(b[i / 3]);
        assert ColonHex(b)[i] == h[i % 3];
      }
    }
  }

  /**
   * The tag UID main.cpp prints for the eight bytes `ReadCard` left in `ID`:
   * `"%02X:%02X:%02X:%02X:%02X:%02X:%02X:%02X"`, 23 characters, into a
   * 33-byte buffer that holds it whole.
   */
  function FormatUid(id: seq<byte>): (s: CStr)
    requires |id| == 8
    ensures |s| == 23 && |s| <= MAX_TAG_UID_LENGTH
    ensures forall i :: 0 <= i < |s| ==> s[i] == ':' || UpperHexChar(s[i])
  {
    ColonHexChars(id);
    ColonHex(id)
  }

  /** A printed UID passes `isValidTagUID`. */
  lemma FormatUidIsTagUid(id: seq<byte>)
    requires |id| == 8
    ensures ValidTagUid(FormatUid(id)) && Fits(FormatUid(id), TAG_UID_SIZE)
  {
    ColonHexLayout(id, 0);
    assert FormatUid(id)[2] == ':';
  }

  /** Different UIDs print differently, so comparing the text compares the bytes. */
  lemma FormatUidInjective(a: seq<byte>, b: seq<byte>)
    requires |a| == 8 && |b| == 8 && FormatUid(a) == FormatUid(b)
    ensures a == b
  {
    forall k | 0 <= k < 8
      ensures a[k] == b[k]
    {
      ColonHexLayout(a, k);
      ColonHexLayout(b, k);
      assert HexPair(a[k]) == [HexPair(a[k])[0], HexPair(a[k])[1]];
      assert HexPair(b[k]) == [HexPair(b[k])[0], HexPair(b[k])[1]];
      HexPairInjective(a[k], b[k]);
    }
  }

  /**
   * A `register_start` UID the card's printed UID can never equal: one with a
   * lower-case hex digit, or one of any length but 23 (seven groups, say),
   * although `isValidTagUID` accepts both.
   */
  lemma UnprintableUidNeverMatches(id: seq<byte>, tagUid: string, i: nat)
    requires |id| == 8 && i < |tagUid|
    requires ('a' <= tagUid[i] <= 'f') || |tagUid| != 23
    ensures FormatUid(id) != tagUid
  {
    if |tagUid| == 23 {
      assert !UpperHexChar(tagUid[i]) && tagUid[i] != ':';
    }
  }

  /** The upper-case hex text of a byte string, two digits per byte (a key as the service sends it). */
  function HexOf(b: seq<byte>): (s: string)
    ensures |s| == 2 * |b|
  {
    if b == [] then [] else HexPair(b[0]) + HexOf(b[1..])
  }

  lemma {:induction false} HexOfLayout(b: seq<byte>, k: nat)
    requires k < |b|
    ensures HexOf(b)[2 * k .. 2 * k + 2] == HexPair(b[k])
    decreases k
  {
    var rest := HexOf(b[1..]);
    assert HexOf(b) == HexPair(b[0]) + rest;
    if k > 0 {
      HexOfLayout(b[1..], k - 1);
      assert HexOf(b)[2 * k .. 2 * k + 2] == rest[2 * (k - 1) .. 2 * (k - 1) + 2];
    }
  }

  /** The hex text of a sixteen-byte key is a key `isValidHexKey` accepts. */
  lemma HexOfIsValidKey(b: seq<byte>)
    requires |b| == 16
    ensures ValidHexKey(HexOf(b))
  {
    var s := HexOf(b);
    forall i | 0 <= i < |s|
      ensures IsHexDigit(s[i])
    {
      var k := i / 2;
      HexOfLayout(b, k);
      assert s[i] == s[2 * k .. 2 * k + 2][i - 2 * k];
    }
  }

  /**
   * What `sscanf(&hex[2 * i], "%2hhx", &b)` leaves in `b`: the value of up
   * to two hex digits at offset `2 i`, or `prior` when there is no digit.
   */
  function ScanHexByte(hex: CStr, i: nat, prior: byte): (b: byte)
    ensures !(2 * i < |hex| && IsHexDigit(hex[2 * i])) ==> b == prior
  {
    if 2 * i < |hex| && IsHexDigit(hex[2 * i]) then
      if 2 * i + 1 < |hex| && IsHexDigit(hex[2 * i + 1]) then
        (HexDigitValue(hex[2 * i]) * 16 + HexDigitValue(hex[2 * i + 1])) as byte
      else
        HexDigitValue(hex[2 * i]) as byte
    else
      prior
  }

  /** The bytes `hexStringToBinary` leaves in a buffer that held `prior`. */
  function ScanHex(hex: CStr, prior: seq<byte>): (r: seq<byte>)
    ensures |r| == |prior|
    ensures forall i :: 0 <= i < |prior| ==> r[i] == ScanHexByte(hex, i, prior[i])
  {
    seq(|prior|, i requires 0 <= i < |prior| => ScanHexByte(hex, i, prior[i]))
  }

  /** `hexStringToBinary`: one `sscanf` per output byte. */
  method HexStringToBinary(hex: CStr, binary: array<byte>)
    modifies binary
    ensures binary[..] == ScanHex(hex, old(binary[..]))
  {
    ghost var prior := binary[..];
    for i := 0 to binary.Length
      invariant forall j :: 0 <= j < i ==> binary[j] == ScanHexByte(hex, j, prior[j])
      invariant forall j :: i <= j < binary.Length ==> binary[j] == prior[j]
    {
      binary[i] := ScanHexByte(hex, i, binary[i]);
    }
  }

  /** A key buffer holding `prior`, after `hexStringToBinary` of `hex` over it. */
  method DecodeKey(hex: CStr, prior: seq<byte>) returns (bytes: seq<byte>)
    ensures bytes == ScanHex(hex, prior)
  {
    var buffer := new byte[|prior|](i requires 0 <= i < |prior| => prior[i]);
    assert buffer[..] == prior;
    HexStringToBinary(hex, buffer);
    bytes := buffer[..];
  }

  /** Decoding the hex text of a byte string gives the bytes back, whatever the buffer held. */
  lemma ScanHexOfHex(b: seq<byte>, prior: seq<byte>)
    requires |prior| == |b| && '\0' !in HexOf(b)
    ensures ScanHex(HexOf(b), prior) == b
  {
    var hex: CStr := HexOf(b);
    forall k | 0 <= k < |b|
      ensures ScanHexByte(hex, k, prior[k]) == b[k]
    {
      HexOfLayout(b, k);
      assert hex[2 * k] == HexPair(b[k])[0] && hex[2 * k + 1] == HexPair(b[k])[1];
    }
  }

  /** A valid key overwrites all sixteen bytes: the result does not depend on the old buffer. */
  lemma ScanValidKeyIgnoresPrior(key: CStr, p: seq<byte>, q: seq<byte>)
    requires ValidHexKey(key) && |p| == 16 && |q| == 16
    ensures ScanHex(key, p) == ScanHex(key, q)
  {
    forall i | 0 <= i < 16
      ensures ScanHexByte(key, i, p[i]) == ScanHexByte(key, i, q[i])
    {
      assert IsHexDigit(key[2 * i]) && IsHexDigit(key[2 * i + 1]);
    }
  }

  /** `containsOnlyZeroes` */
  method ContainsOnlyZeroes(s: string) returns (r: bool)
    ensures r <==> forall i :: 0 <= i < |s| ==> s[i] == '0'
  {
    for i := 0 to |s|
      invariant forall j :: 0 <= j < i ==> s[j] == '0'
    {
      if s[i] != '0' {
        return false;
      }
    }
    return true;
  }

  // ------------------------------------------------------------------ time

  /** `millis()` counts modulo 2^32. */
  const MILLIS_WRAP: nat := 0x1_0000_0000

  /** How long the device waits for `auth_verify` after it detected a tag. */
  const BUFFER_TIMEOUT_MS: nat := 20000

  /** `last_state_change = millis()`: the unsigned count stored in a 32-bit `int`. */
  function Int32Of(t: nat): (r: int)
    requires t < MILLIS_WRAP
    ensures -0x8000_0000 <= r < 0x8000_0000
    ensures r % MILLIS_WRAP == t
  {
    if t < 0x8000_0000 then t else t - MILLIS_WRAP
  }

  /** `millis() - last_state_change`: the `int` converted back to unsigned, then unsigned subtraction. */
  function Elapsed(now: nat, last: int): (d: nat)
    requires now < MILLIS_WRAP
    ensures d < MILLIS_WRAP
  {
    var l := last % MILLIS_WRAP;
    if now >= l then now - l else MILLIS_WRAP - l + now
  }

  /** The time since a stamp taken at `t0` is measured right, across the wrap of the counter too. */
  lemma ElapsedSinceStamp(t0: nat, t1: nat)
    requires t0 < MILLIS_WRAP && t1 < MILLIS_WRAP
    ensures Elapsed(t1, Int32Of(t0)) == (t1 - t0) % MILLIS_WRAP
    ensures t0 <= t1 ==> Elapsed(t1, Int32Of(t0)) == t1 - t0
  {
  }

  // ----------------------------------------------------------------- state

  /** `enum mode` */
  datatype Mode = NoMode | AuthenticateMode | RegisterMode | ReadMode

  /** `enum state` */
  datatype State = WaitingForUserId | WaitingForUserBuffer

  /** The buffer timeout of `loop()`: a device waiting for the user buffer too long waits for a card again. */
  function BufferTimeout(s: State, now: nat, last: int): State
    requires now < MILLIS_WRAP
  {
    if s == WaitingForUserBuffer && Elapsed(now, last) > BUFFER_TIMEOUT_MS then WaitingForUserId else s
  }

  /** A device that stamped `t0` on detecting a tag gives up exactly when more than 20 s have passed since. */
  lemma BufferTimesOut(t0: nat, t1: nat)
    requires t0 < MILLIS_WRAP && t1 < MILLIS_WRAP
    ensures BufferTimeout(WaitingForUserBuffer, t1, Int32Of(t0)) == WaitingForUserId
            <==> (t1 - t0) % MILLIS_WRAP > BUFFER_TIMEOUT_MS
    ensures BufferTimeout(WaitingForUserId, t1, Int32Of(t0)) == WaitingForUserId
  {
    ElapsedSinceStamp(t0, t1);
  }

  /** `char username[64]` and `char context[64]` of `auth_state`. */
  const AUTH_FIELD_SIZE: nat := 64

  /** `register_state` (its `user_data` buffer, never used, is not modelled). */
  datatype RegisterState = RegisterState(requestId: CStr, tagUid: CStr, tagUidBinary: seq<byte>,
                                         key: CStr, keyBinary: seq<byte>)
  {
    predicate Valid()
    {
      Fits(requestId, REQUEST_ID_SIZE) && Fits(tagUid, TAG_UID_SIZE) && |tagUidBinary| == 8
      && Fits(key, HEX_KEY_SIZE) && |keyBinary| == ENC_KEY_LENGTH
    }
  }

  /** `register_state` after `clearRegisterState`. */
  const CLEARED_REGISTER: RegisterState := RegisterState("", "", Zeros(8), "", Zeros(ENC_KEY_LENGTH))

  /** `auth_state` */
  datatype AuthState = AuthState(requestId: CStr, tagUidBinary: seq<byte>, key: CStr, keyBinary: seq<byte>,
                                 encryptionData: seq<byte>, username: CStr, context: CStr)
  {
    predicate Valid()
    {
      Fits(requestId, REQUEST_ID_SIZE) && |tagUidBinary| == 8 && Fits(key, HEX_KEY_SIZE)
      && |keyBinary| == ENC_KEY_LENGTH && |encryptionData| == 16
      && Fits(username, AUTH_FIELD_SIZE) && Fits(context, AUTH_FIELD_SIZE)
    }
  }

  /** `auth_state` after `clearAuthState`. */
  const CLEARED_AUTH: AuthState := AuthState("", Zeros(8), "", Zeros(ENC_KEY_LENGTH), Zeros(16), "", "")

  /** The three error topics of the card passes. */
  datatype ErrorTopic = AuthErrorTopic | ReadErrorTopic | RegisterErrorTopic

  /** A published event: its kind, the request id it carries and the fields main.cpp fills in. */
  datatype Event =
    | ModeChanged(requestId: CStr, mode: DeviceMode, previous: DeviceMode)
    | StatusChanged(requestId: CStr, status: DeviceStatus, firmwareVersion: CStr)
    | TagDetected(requestId: CStr, tagUid: CStr)
    | ReadSucceeded(requestId: CStr, tagUid: CStr)
    | RegisterSucceeded(requestId: CStr, tagUid: CStr, blocksWritten: int)
    | AuthSucceeded(requestId: CStr, tagUid: CStr, username: CStr, context: CStr)
    | AuthRefused(requestId: CStr, tagUid: CStr)
    | ErrorRaised(topic: ErrorTopic, requestId: CStr, code: ErrorCode)

  /** The firmware version the `RESET` status message reports. */
  const FIRMWARE_VERSION: CStr := "1.0.0"

  /** A command as the message parser hands it over: its type, its request id and its payload. */
  datatype Command = Command(cmdType: CommandType, requestId: CStr, payload: JsonObject)

  /** The globals of main.cpp as one value. */
  datatype Globals = Globals(mode: Mode, state: State, lastStateChange: int, readRequestId: CStr,
                             registerState: RegisterState, authState: AuthState, outbox: seq<Event>)

  /** The mode a cancel command reports as left: idle when there was no session. */
  function CancelledMode(m: Mode): (d: DeviceMode)
    ensures d == DeviceMode.Idle <==> m == NoMode
  {
    match m
    case NoMode => DeviceMode.Idle
    case AuthenticateMode => DeviceMode.Auth
    case RegisterMode => DeviceMode.Register
    case ReadMode => DeviceMode.Read
  }

  /** The mode `RESET` reports as left: unknown when there was no session. */
  function ResetMode(m: Mode): (d: DeviceMode)
    ensures d == DeviceMode.Unknown <==> m == NoMode
    ensures m != NoMode ==> d == CancelledMode(m)
  {
    if m == NoMode then DeviceMode.Unknown else CancelledMode(m)
  }

  /** The request id a cancel reports: the session's own, or the cancel's when there is none. */
  function CancelRequestId(g: Globals, incoming: CStr): CStr
  {
    match g.mode
    case NoMode => incoming
    case AuthenticateMode => g.authState.requestId
    case RegisterMode => g.registerState.requestId
    case ReadMode => g.readRequestId
  }

  /**
   * The error code a failed `ReadCard` is reported with: a timeout first, then
   * a PN532 failure, else the mode's own code.
   */
  function NfcErrorCode(timeout: bool, pn532Error: bool, otherwise: ErrorCode): (c: ErrorCode)
    ensures timeout ==> c == NfcTimeout
    ensures !timeout && pn532Error ==> c == NfcDeviceError
    ensures !timeout && !pn532Error ==> c == otherwise
  {
    if timeout then NfcTimeout else if pn532Error then NfcDeviceError else otherwise
  }

  /** The globals after `auth_verify` stored its fields and set the state to wait for the user buffer. */
  function VerifyRecorded(g: Globals, v: AuthVerifyOutcome): Globals
  {
    g.(state := WaitingForUserBuffer,
       authState := g.authState.(key := v.key, keyBinary := ScanHex(v.key, g.authState.keyBinary),
                                 username := Strlcpy(v.username, AUTH_FIELD_SIZE),
                                 context := Strlcpy(v.context, AUTH_FIELD_SIZE),
                                 encryptionData := Zeros(16)))
  }

  /**
   * The globals after `handleData` reached its verdict: the verdict and the
   * return to idle published under the session's request id, the idle mode
   * waiting for a card, and `auth_state` cleared.
   */
  function Concluded(g: Globals, accepted: bool): Globals
    requires |g.authState.tagUidBinary| == 8
  {
    var a := g.authState;
    var tagUid := FormatUid(a.tagUidBinary);
    var verdict := if accepted then AuthSucceeded(a.requestId, tagUid, a.username, a.context)
                   else AuthRefused(a.requestId, tagUid);
    g.(mode := NoMode, state := WaitingForUserId, authState := CLEARED_AUTH,
       outbox := g.outbox + [verdict, ModeChanged(a.requestId, DeviceMode.Idle, DeviceMode.Auth)])
  }

  /**
   * A card registered for the UID the firmware prints is accepted when it is
   * authenticated with the name block `handleData` passes, and gives back
   * the key it was registered with: the two sides agree on the UID bytes and
   * on the 24-byte name block, although registration derives it from
   * `register_state.tag_uid` and authentication from the printed UID.
   */
  lemma RegisteredCardAuthenticates(s: Secrets, p: Picc, uid: seq<byte>, encKey: seq<byte>)
    requires |uid| == UID_LENGTH && |encKey| == ENC_KEY_LENGTH && KeysUsable(s)
    ensures var id := PadUid(uid);
            var printed := FormatUid(id);
            var name := (Bytes(printed) + [0])[..NAME_BUF_SIZE];
            var stored := Personalized(p.(masterKey := PiccMasterKey(s)), s, uid, NameBlock(printed), encKey);
            CheckAccepts(s, stored, id, name) && CheckedKey(s, stored, id, name) == encKey
  {
    var id := PadUid(uid);
    var printed := FormatUid(id);
    var name := NameBlock(printed);
    assert (Bytes(printed) + [0])[..NAME_BUF_SIZE] == name;
    var q := p.(masterKey := PiccMasterKey(s));
    StoreThenCheck(s, q, uid, name, encKey);
    assert id[..UID_LENGTH] == uid;
    SeedIgnoresUidTail(uid, id, name);
  }

  // ------------------------------------------------------------ the device

  /** The globals of main.cpp, the card reader and `last_card`. */
  class Controller {
    var mode: Mode
    var state: State
    var lastStateChange: int
    var readRequestId: CStr
    var registerState: RegisterState
    var authState: AuthState
    /** Everything published so far, oldest first. */
    var outbox: seq<Event>
    const cards: CardReader
    /** `last_card` */
    const lastCard: KCard
    /**
     * Whether the `ReadCard` of the last registration pass returned true: the
     * condition that pass branches on, kept so its contract can name the branch.
     */
    ghost var readOk: bool

    predicate Valid()
      reads this, cards, cards.pn532
    {
      cards.Valid() && Fits(readRequestId, REQUEST_ID_SIZE) && registerState.Valid() && authState.Valid()
    }

    function Control(): Globals
      reads this
    {
      Globals(mode, state, lastStateChange, readRequestId, registerState, authState, outbox)
    }

    /** The globals as the program starts: zero-initialised, idle, waiting for a card. */
    constructor (reader: CardReader)
      requires reader.Valid()
      ensures Valid() && cards == reader && fresh(lastCard) && lastCard.Cleared()
      ensures Control() == Globals(NoMode, WaitingForUserId, 0, "", CLEARED_REGISTER, CLEARED_AUTH, [])
    {
      mode, state, lastStateChange, readRequestId := NoMode, WaitingForUserId, 0, "";
      registerState, authState, outbox := CLEARED_REGISTER, CLEARED_AUTH, [];
      cards := reader;
      lastCard := new KCard();
      readOk := true;
    }

    // ------------------------------------------------------------ commands

    /** `AUTH_START`: an accepted command opens an authentication session for its request id. */
    method StartAuth(requestId: CStr, payload: JsonObject)
      requires Valid()
      modifies this
      ensures Valid()
      ensures TimeoutAccepted(payload) ==>
        Control() == old(Control()).(mode := AuthenticateMode, state := WaitingForUserId,
          authState := CLEARED_AUTH.(requestId := Strlcpy(requestId, REQUEST_ID_SIZE)),
          outbox := old(outbox) + [ModeChanged(requestId, DeviceMode.Auth, DeviceMode.Idle)])
      ensures !TimeoutAccepted(payload) ==> Control() == old(Control())
    {
      var p := new AuthStartPayload();
      var ok := DeserializeAuthStart(payload, p);
      if ok {
        authState := CLEARED_AUTH;
        authState := authState.(requestId := Strlcpy(requestId, REQUEST_ID_SIZE));
        mode := AuthenticateMode;
        state := WaitingForUserId;
        outbox := outbox + [ModeChanged(requestId, DeviceMode.Auth, DeviceMode.Idle)];
      }
    }

    /**
     * `REGISTER_START`: an accepted command opens a registration session
     * holding the expected UID, the key and the key's sixteen bytes.
     */
    method StartRegister(requestId: CStr, payload: JsonObject)
      requires Valid()
      modifies this
      ensures Valid()
      ensures var r := RegisterStartOf(payload);
        r.accepted ==>
        Control() == old(Control()).(mode := RegisterMode, state := WaitingForUserId,
          registerState := RegisterState(Strlcpy(requestId, REQUEST_ID_SIZE), r.tagUid, Zeros(8), r.key,
                                         ScanHex(r.key, Zeros(ENC_KEY_LENGTH))),
          outbox := old(outbox) + [ModeChanged(requestId, DeviceMode.Register, DeviceMode.Idle)])
      ensures !RegisterStartOf(payload).accepted ==> Control() == old(Control())
    {
      var p := new RegisterStartPayload();
      var ok := DeserializeRegisterStart(payload, p);
      if ok {
        StrlcpyKeepsFittingString(p.tagUid, TAG_UID_SIZE);
        StrlcpyKeepsFittingString(p.key, HEX_KEY_SIZE);
        var keyBinary := DecodeKey(p.key, CLEARED_REGISTER.keyBinary);
        registerState := CLEARED_REGISTER.(requestId := Strlcpy(requestId, REQUEST_ID_SIZE),
                                           tagUid := Strlcpy(p.tagUid, TAG_UID_SIZE),
                                           key := Strlcpy(p.key, HEX_KEY_SIZE), keyBinary := keyBinary);
        mode := RegisterMode;
        state := WaitingForUserId;
        outbox := outbox + [ModeChanged(requestId, DeviceMode.Register, DeviceMode.Idle)];
      }
    }

    /**
     * `AUTH_CANCEL` and `REGISTER_CANCEL`: whatever session is open is
     * reported left under its own request id and the device goes idle; an
     * authentication or registration session is cleared, while a read
     * session keeps its request id.
     */
    method CancelSession(requestId: CStr)
      requires Valid()
      modifies this
      ensures Valid()
      ensures Control() == old(Control()).(mode := NoMode, state := WaitingForUserId,
        authState := if old(mode) == AuthenticateMode then CLEARED_AUTH else old(authState),
        registerState := if old(mode) == RegisterMode then CLEARED_REGISTER else old(registerState),
        outbox := old(outbox) + [ModeChanged(CancelRequestId(old(Control()), requestId), DeviceMode.Idle,
                                             CancelledMode(old(mode)))])
    {
      var cancelRequestId := CancelRequestId(Control(), requestId);
      outbox := outbox + [ModeChanged(cancelRequestId, DeviceMode.Idle, CancelledMode(mode))];
      if mode == AuthenticateMode {
        authState := CLEARED_AUTH;
      } else if mode == RegisterMode {
        registerState := CLEARED_REGISTER;
      }
      mode := NoMode;
      state := WaitingForUserId;
    }

    /**
     * `RESET`: the mode left and the offline status are published under the
     * command's request id and every session is cleared (the restart that
     * follows is not modelled).
     */
    method ResetDevice(requestId: CStr)
      requires Valid()
      modifies this
      ensures Valid()
      ensures Control() == old(Control()).(mode := NoMode, state := WaitingForUserId, readRequestId := "",
        authState := CLEARED_AUTH, registerState := CLEARED_REGISTER,
        outbox := old(outbox) + [ModeChanged(requestId, DeviceMode.Idle, ResetMode(old(mode))),
                                 StatusChanged(requestId, Offline, FIRMWARE_VERSION)])
    {
      outbox := outbox + [ModeChanged(requestId, DeviceMode.Idle, ResetMode(mode))];
      mode := NoMode;
      state := WaitingForUserId;
      readRequestId := "";
      authState := CLEARED_AUTH;
      registerState := CLEARED_REGISTER;
      outbox := outbox + [StatusChanged(requestId, Offline, FIRMWARE_VERSION)];
    }

    /** `READ_START`: an accepted command opens a read session for its request id. */
    method StartRead(requestId: CStr, payload: JsonObject)
      requires Valid()
      modifies this
      ensures Valid()
      ensures TimeoutAccepted(payload) ==>
        Control() == old(Control()).(mode := ReadMode, state := WaitingForUserId,
          readRequestId := Strlcpy(requestId, REQUEST_ID_SIZE),
          outbox := old(outbox) + [ModeChanged(requestId, DeviceMode.Read, DeviceMode.Idle)])
      ensures !TimeoutAccepted(payload) ==> Control() == old(Control())
    {
      var p := new ReadStartPayload();
      var ok := DeserializeReadStart(payload, p);
      if ok {
        readRequestId := Strlcpy(requestId, REQUEST_ID_SIZE);
        mode := ReadMode;
        state := WaitingForUserId;
        outbox := outbox + [ModeChanged(requestId, DeviceMode.Read, DeviceMode.Idle)];
      }
    }

    /** `READ_CANCEL`: reports a read session left, in any mode, and goes idle. */
    method CancelRead(requestId: CStr)
      requires Valid()
      modifies this
      ensures Valid()
      ensures Control() == old(Control()).(mode := NoMode, state := WaitingForUserId, readRequestId := "",
        outbox := old(outbox) + [ModeChanged(requestId, DeviceMode.Idle, DeviceMode.Read)])
    {
      outbox := outbox + [ModeChanged(requestId, DeviceMode.Idle, DeviceMode.Read)];
      mode := NoMode;
      state := WaitingForUserId;
      readRequestId := "";
    }

    /**
     * `handleData`: in an authentication session waiting for the user
     * buffer, the card whose UID the session holds is authenticated with
     * the printed UID as user buffer; the verdict is published, the device
     * goes idle and the session is cleared. In any other mode or state
     * nothing happens.
     */
    method HandleData()
      requires Valid()
      modifies this, cards, cards.pn532, lastCard
      ensures Valid()
      ensures cards.pn532.picc == old(cards.pn532.picc) && cards.pn532.tag == old(cards.pn532.tag)
      ensures !(old(mode) == AuthenticateMode && old(state) == WaitingForUserBuffer) ==>
        Control() == old(Control()) && unchanged(cards, cards.pn532, lastCard)
      ensures old(mode) == AuthenticateMode && old(state) == WaitingForUserBuffer ==>
        |outbox| == |old(outbox)| + 2 && lastCard.Cleared()
        && Control() == Concluded(old(Control()), outbox[|old(outbox)|].AuthSucceeded?)
      ensures old(mode) == AuthenticateMode && old(state) == WaitingForUserBuffer ==>
        var accepted := outbox[|old(outbox)|].AuthSucceeded?;
        var id := old(authState.tagUidBinary);
        var name := NameBlock(FormatUid(id));
        (!IsDesfire(old(lastCard.cardType)) ==> !accepted)
        && (old(lastCard.cardType) == CardDesRandom ==> (accepted <==> old(lastCard.keyVersion) == cards.secrets.keyVersion))
        && (old(lastCard.cardType) == CardDesfire && accepted ==> CheckAccepts(cards.secrets, cards.pn532.picc, id, name))
        && ((old(lastCard.cardType) == CardDesfire && old(cards.Steady()) && IsDesfire(cards.pn532.tag.cardType)
             && CheckAccepts(cards.secrets, cards.pn532.picc, id, name)) ==> accepted)
    {
      if mode == AuthenticateMode && state == WaitingForUserBuffer {
        var key := new byte[ENC_KEY_LENGTH](_ => 0);
        var id := authState.tagUidBinary;
        var tagUid := FormatUid(id);
        var userBuffer := Bytes(tagUid) + [0];
        assert userBuffer[..NAME_BUF_SIZE] == NameBlock(tagUid);
        var accepted := cards.AuthenticateUser(id, userBuffer, lastCard, key);
        var verdict := if accepted then AuthSucceeded(authState.requestId, tagUid, authState.username, authState.context)
                       else AuthRefused(authState.requestId, tagUid);
        outbox := outbox + [verdict, ModeChanged(authState.requestId, DeviceMode.Idle, DeviceMode.Auth)];
        lastCard.Clear();
        state := WaitingForUserId;
        mode := NoMode;
        authState := CLEARED_AUTH;
      }
    }

    /**
     * `AUTH_VERIFY`: an accepted command stores the key, its bytes and the
     * user data, clears the encryption data, waits for the user buffer (in
     * any mode) and runs `handleData`, which concludes an authentication
     * session.
     */
    method VerifyAuth(payload: JsonObject)
      requires Valid()
      modifies this, cards, cards.pn532, lastCard
      ensures Valid()
      ensures cards.pn532.picc == old(cards.pn532.picc) && cards.pn532.tag == old(cards.pn532.tag)
      ensures !AuthVerifyOf(payload).accepted ==> Control() == old(Control())
      ensures AuthVerifyOf(payload).accepted && old(mode) != AuthenticateMode ==>
        Control() == VerifyRecorded(old(Control()), AuthVerifyOf(payload))
      ensures AuthVerifyOf(payload).accepted && old(mode) == AuthenticateMode ==>
        |outbox| == |old(outbox)| + 2
        && Control() == Concluded(VerifyRecorded(old(Control()), AuthVerifyOf(payload)), outbox[|old(outbox)|].AuthSucceeded?)
      ensures AuthVerifyOf(payload).accepted && old(mode) == AuthenticateMode ==>
        |outbox| == |old(outbox)| + 2
        && var accepted := outbox[|old(outbox)|].AuthSucceeded?;
           var id := old(authState.tagUidBinary);
           var name := NameBlock(FormatUid(id));
           (!IsDesfire(old(lastCard.cardType)) ==> !accepted)
           && (old(lastCard.cardType) == CardDesRandom ==> (accepted <==> old(lastCard.keyVersion) == cards.secrets.keyVersion))
           && (old(lastCard.cardType) == CardDesfire && accepted ==> CheckAccepts(cards.secrets, cards.pn532.picc, id, name))
           && ((old(lastCard.cardType) == CardDesfire && old(cards.Steady()) && IsDesfire(cards.pn532.tag.cardType)
                && CheckAccepts(cards.secrets, cards.pn532.picc, id, name)) ==> accepted)
    {
      var p := new AuthVerifyPayload();
      var ok := DeserializeAuthVerify(payload, p);
      if ok {
        RecordVerify(AuthVerifyRead(p.tagUid, p.key, p.userData.username, p.userData.context, ok));
        HandleData();
      }
    }

    /** The `AUTH_VERIFY` fields copied into `auth_state`, and the wait for the card data. */
    method RecordVerify(v: AuthVerifyOutcome)
      requires Valid() && Fits(v.key, HEX_KEY_SIZE)
      modifies this
      ensures Valid()
      ensures Control() == VerifyRecorded(old(Control()), v)
    {
      StrlcpyKeepsFittingString(v.key, HEX_KEY_SIZE);
      var keyBinary := DecodeKey(v.key, authState.keyBinary);
      authState := authState.(key := Strlcpy(v.key, HEX_KEY_SIZE), keyBinary := keyBinary,
                              username := Strlcpy(v.username, AUTH_FIELD_SIZE),
                              context := Strlcpy(v.context, AUTH_FIELD_SIZE),
                              encryptionData := Zeros(16));
      state := WaitingForUserBuffer;
    }

    /**
     * `handleCommand`: an unparsable message is dropped; otherwise the
     * command's type selects its handler (an unknown type does nothing).
     */
    method HandleCommand(message: Option<Command>)
      requires Valid()
      modifies this, cards, cards.pn532, lastCard
      ensures Valid()
      ensures cards.pn532.picc == old(cards.pn532.picc) && cards.pn532.tag == old(cards.pn532.tag)
      ensures message.None? || message.value.cmdType == CommandType.Unknown ==> Control() == old(Control())
      ensures message.Some? && message.value.cmdType in {AuthStart, ReadStart} && !TimeoutAccepted(message.value.payload) ==>
        Control() == old(Control())
      ensures message.Some? && message.value.cmdType == AuthStart && TimeoutAccepted(message.value.payload) ==>
        Control() == old(Control()).(mode := AuthenticateMode, state := WaitingForUserId,
          authState := CLEARED_AUTH.(requestId := Strlcpy(message.value.requestId, REQUEST_ID_SIZE)),
          outbox := old(outbox) + [ModeChanged(message.value.requestId, DeviceMode.Auth, DeviceMode.Idle)])
      ensures message.Some? && message.value.cmdType == RegisterStart && !RegisterStartOf(message.value.payload).accepted ==>
        Control() == old(Control())
      ensures message.Some? && message.value.cmdType == RegisterStart && RegisterStartOf(message.value.payload).accepted ==>
        var r := RegisterStartOf(message.value.payload);
        Control() == old(Control()).(mode := RegisterMode, state := WaitingForUserId,
          registerState := RegisterState(Strlcpy(message.value.requestId, REQUEST_ID_SIZE), r.tagUid, Zeros(8), r.key,
                                         ScanHex(r.key, Zeros(ENC_KEY_LENGTH))),
          outbox := old(outbox) + [ModeChanged(message.value.requestId, DeviceMode.Register, DeviceMode.Idle)])
      ensures message.Some? && message.value.cmdType == ReadStart && TimeoutAccepted(message.value.payload) ==>
        Control() == old(Control()).(mode := ReadMode, state := WaitingForUserId,
          readRequestId := Strlcpy(message.value.requestId, REQUEST_ID_SIZE),
          outbox := old(outbox) + [ModeChanged(message.value.requestId, DeviceMode.Read, DeviceMode.Idle)])
      ensures message.Some? && message.value.cmdType in {AuthCancel, RegisterCancel} ==>
        Control() == old(Control()).(mode := NoMode, state := WaitingForUserId,
          authState := if old(mode) == AuthenticateMode then CLEARED_AUTH else old(authState),
          registerState := if old(mode) == RegisterMode then CLEARED_REGISTER else old(registerState),
          outbox := old(outbox) + [ModeChanged(CancelRequestId(old(Control()), message.value.requestId), DeviceMode.Idle,
                                               CancelledMode(old(mode)))])
      ensures message.Some? && message.value.cmdType == CommandType.Reset ==>
        Control() == old(Control()).(mode := NoMode, state := WaitingForUserId, readRequestId := "",
          authState := CLEARED_AUTH, registerState := CLEARED_REGISTER,
          outbox := old(outbox) + [ModeChanged(message.value.requestId, DeviceMode.Idle, ResetMode(old(mode))),
                                   StatusChanged(message.value.requestId, Offline, FIRMWARE_VERSION)])
      ensures message.Some? && message.value.cmdType == ReadCancel ==>
        Control() == old(Control()).(mode := NoMode, state := WaitingForUserId, readRequestId := "",
          outbox := old(outbox) + [ModeChanged(message.value.requestId, DeviceMode.Idle, DeviceMode.Read)])
      ensures message.Some? && message.value.cmdType == AuthVerify && !AuthVerifyOf(message.value.payload).accepted ==>
        Control() == old(Control())
      ensures message.Some? && message.value.cmdType == AuthVerify && AuthVerifyOf(message.value.payload).accepted
              && old(mode) != AuthenticateMode ==>
        Control() == VerifyRecorded(old(Control()), AuthVerifyOf(message.value.payload))
      ensures message.Some? && message.value.cmdType == AuthVerify && AuthVerifyOf(message.value.payload).accepted
              && old(mode) == AuthenticateMode ==>
        |outbox| == |old(outbox)| + 2
        && Control() == Concluded(VerifyRecorded(old(Control()), AuthVerifyOf(message.value.payload)),
                                  outbox[|old(outbox)|].AuthSucceeded?)
      ensures message.Some? && message.value.cmdType == AuthVerify && AuthVerifyOf(message.value.payload).accepted
              && old(mode) == AuthenticateMode ==>
        |outbox| == |old(outbox)| + 2
        && var accepted := outbox[|old(outbox)|].AuthSucceeded?;
           var id := old(authState.tagUidBinary);
           var name := NameBlock(FormatUid(id));
           (!IsDesfire(old(lastCard.cardType)) ==> !accepted)
           && (old(lastCard.cardType) == CardDesRandom ==> (accepted <==> old(lastCard.keyVersion) == cards.secrets.keyVersion))
           && (old(lastCard.cardType) == CardDesfire && accepted ==> CheckAccepts(cards.secrets, cards.pn532.picc, id, name))
           && ((old(lastCard.cardType) == CardDesfire && old(cards.Steady()) && IsDesfire(cards.pn532.tag.cardType)
                && CheckAccepts(cards.secrets, cards.pn532.picc, id, name)) ==> accepted)
    {
      if message.None? {
        return;
      }
      var command := message.value;
      match command.cmdType
      case AuthStart =>
        StartAuth(command.requestId, command.payload);
      case RegisterStart =>
        StartRegister(command.requestId, command.payload);
      case AuthCancel =>
        CancelSession(command.requestId);
      case RegisterCancel =>
        CancelSession(command.requestId);
      case Reset =>
        ResetDevice(command.requestId);
      case AuthVerify =>
        VerifyAuth(command.payload);
      case ReadStart =>
        StartRead(command.requestId, command.payload);
      case ReadCancel =>
        CancelRead(command.requestId);
      case Unknown =>
    }

    // ----------------------------------------------------------- the loop

    /** The buffer timeout at the top of `loop()`. */
    method CheckBufferTimeout(now: nat)
      requires now < MILLIS_WRAP
      modifies this
      ensures Control() == old(Control()).(state := BufferTimeout(old(state), now, old(lastStateChange)))
    {
      if state == WaitingForUserBuffer && Elapsed(now, lastStateChange) > BUFFER_TIMEOUT_MS {
        state := WaitingForUserId;
      }
    }

    /**
     * The authentication pass of `loop()`: a card in the field is stored as
     * the session's UID and reported, and the device waits for the user
     * buffer from `now` on; no card changes nothing; a failed read is
     * reported as a timeout, a PN532 failure or an authentication error.
     */
    method AuthPass(now: nat)
      requires Valid() && mode == AuthenticateMode && state == WaitingForUserId && now < MILLIS_WRAP
      modifies this, cards, cards.pn532, lastCard
      ensures Valid()
      ensures cards.pn532.picc == old(cards.pn532.picc) && cards.pn532.tag == old(cards.pn532.tag)
      ensures cards.pn532.present == old(cards.pn532.present)
      ensures state == WaitingForUserBuffer ==>
        cards.pn532.present
        && Control() == old(Control()).(state := WaitingForUserBuffer, lastStateChange := Int32Of(now),
             authState := old(authState).(tagUidBinary := PadUid(cards.pn532.tag.uid)),
             outbox := old(outbox) + [TagDetected(old(authState.requestId), FormatUid(PadUid(cards.pn532.tag.uid)))])
      ensures state == WaitingForUserId ==>
        Control() == old(Control())
        || Control() == old(Control()).(outbox := old(outbox) + [ErrorRaised(AuthErrorTopic, old(authState.requestId),
             NfcErrorCode(cards.IsDesfireTimeout(), lastCard.pn532Error, NfcAuthFailed))])
      ensures old(cards.pn532.Reliable()) && !cards.pn532.present ==>
        Control() == old(Control()) && cards.lastId == Zeros(8)
      ensures lastCard.pn532Error ==>
        Control() == old(Control()).(outbox := old(outbox) + [ErrorRaised(AuthErrorTopic, old(authState.requestId),
          NfcErrorCode(cards.IsDesfireTimeout(), true, NfcAuthFailed))])
      ensures cards.pn532.present && state == WaitingForUserId ==>
        Control() == old(Control()).(outbox := old(outbox) + [ErrorRaised(AuthErrorTopic, old(authState.requestId),
          NfcErrorCode(cards.IsDesfireTimeout(), lastCard.pn532Error, NfcAuthFailed))])
      ensures !cards.pn532.present && !lastCard.pn532Error ==> Control() == old(Control()) && cards.lastId == Zeros(8)
      ensures cards.pn532.present && cards.pn532.tag.cardType == CardDesRandom
              && !PiccAuthAccepts(cards.secrets, cards.pn532.picc) ==>
        state == WaitingForUserId
      ensures old(cards.Steady())
              && (cards.pn532.tag.cardType == CardDesRandom ==> PiccAuthAccepts(cards.secrets, cards.pn532.picc)) ==>
        state == WaitingForUserBuffer
    {
      lastCard.Clear();
      var id := new byte[8](_ => 0);
      var ok := cards.ReadCard(id, lastCard);
      if ok {
        if lastCard.uidLength > 0 {
          authState := authState.(tagUidBinary := id[..]);
          outbox := outbox + [TagDetected(authState.requestId, FormatUid(id[..]))];
          state := WaitingForUserBuffer;
          lastStateChange := Int32Of(now);
        } else {
          cards.lastId := Zeros(8);
        }
      } else {
        var code := NfcErrorCode(cards.IsDesfireTimeout(), lastCard.pn532Error, NfcAuthFailed);
        outbox := outbox + [ErrorRaised(AuthErrorTopic, authState.requestId, code)];
      }
    }

    /**
     * The read pass of `loop()`: a card in the field is reported read, the
     * return to idle is published and the read session closed; a failed
     * read is reported as a timeout, a PN532 failure or a read error.
     */
    method ReadPass()
      requires Valid() && mode == ReadMode && state == WaitingForUserId
      modifies this, cards, cards.pn532, lastCard
      ensures Valid()
      ensures cards.pn532.picc == old(cards.pn532.picc) && cards.pn532.tag == old(cards.pn532.tag)
      ensures cards.pn532.present == old(cards.pn532.present)
      ensures mode == NoMode ==>
        cards.pn532.present && lastCard.Cleared()
        && Control() == old(Control()).(mode := NoMode, readRequestId := "",
             outbox := old(outbox) + [ReadSucceeded(old(readRequestId), FormatUid(PadUid(cards.pn532.tag.uid))),
                                      ModeChanged(old(readRequestId), DeviceMode.Idle, DeviceMode.Read)])
      ensures mode != NoMode ==>
        Control() == old(Control())
        || Control() == old(Control()).(outbox := old(outbox) + [ErrorRaised(ReadErrorTopic, old(readRequestId),
             NfcErrorCode(cards.IsDesfireTimeout(), lastCard.pn532Error, NfcReadError))])
      ensures old(cards.pn532.Reliable()) && !cards.pn532.present ==>
        Control() == old(Control()) && cards.lastId == Zeros(8)
      ensures lastCard.pn532Error ==>
        Control() == old(Control()).(outbox := old(outbox) + [ErrorRaised(ReadErrorTopic, old(readRequestId),
          NfcErrorCode(cards.IsDesfireTimeout(), true, NfcReadError))])
      ensures cards.pn532.present && mode != NoMode ==>
        Control() == old(Control()).(outbox := old(outbox) + [ErrorRaised(ReadErrorTopic, old(readRequestId),
          NfcErrorCode(cards.IsDesfireTimeout(), lastCard.pn532Error, NfcReadError))])
      ensures !cards.pn532.present && !lastCard.pn532Error ==> Control() == old(Control()) && cards.lastId == Zeros(8)
      ensures cards.pn532.present && cards.pn532.tag.cardType == CardDesRandom
              && !PiccAuthAccepts(cards.secrets, cards.pn532.picc) ==>
        mode == ReadMode
      ensures old(cards.Steady())
              && (cards.pn532.tag.cardType == CardDesRandom ==> PiccAuthAccepts(cards.secrets, cards.pn532.picc)) ==>
        mode == NoMode
    {
      lastCard.Clear();
      var id := new byte[8](_ => 0);
      var ok := cards.ReadCard(id, lastCard);
      if ok {
        if lastCard.uidLength > 0 {
          ConcludeRead(FormatUid(id[..]));
        } else {
          cards.lastId := Zeros(8);
        }
      } else {
        var code := NfcErrorCode(cards.IsDesfireTimeout(), lastCard.pn532Error, NfcReadError);
        outbox := outbox + [ErrorRaised(ReadErrorTopic, readRequestId, code)];
      }
    }

    /** A read reported: the UID and the return to idle published, the read session closed. */
    method ConcludeRead(tagUid: CStr)
      requires Valid() && Fits(tagUid, TAG_UID_SIZE)
      modifies this, lastCard
      ensures Valid() && lastCard.Cleared()
      ensures Control() == old(Control()).(mode := NoMode, state := WaitingForUserId, readRequestId := "",
        outbox := old(outbox) + [ReadSucceeded(old(readRequestId), tagUid),
                                 ModeChanged(old(readRequestId), DeviceMode.Idle, DeviceMode.Read)])
    {
      outbox := outbox + [ReadSucceeded(readRequestId, tagUid),
                          ModeChanged(readRequestId, DeviceMode.Idle, DeviceMode.Read)];
      mode := NoMode;
      state := WaitingForUserId;
      readRequestId := "";
      lastCard.Clear();
    }

    /**
     * The registration pass of `loop()`: the card in the field is
     * personalised only when its printed UID is the one the session expects;
     * then success is published with one block written, the device goes
     * idle and the session is cleared. A wrong card, a failed
     * personalisation and a failed read are reported and the session stays.
     */
    method RegisterPass(polls: seq<Poll>)
      requires Valid() && mode == RegisterMode && state == WaitingForUserId && PollsEnd(polls)
      modifies this, cards, cards.pn532, lastCard
      ensures Valid()
      ensures cards.pn532.tag == old(cards.pn532.tag)
      ensures cards.pn532.picc != old(cards.pn532.picc) ==>
        FormatUid(PadUid(cards.pn532.tag.uid)) == old(registerState.tagUid)
      ensures cards.pn532.picc.masterKey == old(cards.pn532.picc.masterKey)
              || cards.pn532.picc.masterKey == PiccMasterKey(cards.secrets)
      ensures cards.pn532.picc.apps - {cards.secrets.applicationId}
              == old(cards.pn532.picc.apps) - {cards.secrets.applicationId}
      ensures mode == NoMode ==>
        IsDesfire(cards.pn532.tag.cardType) && FormatUid(PadUid(cards.pn532.tag.uid)) == old(registerState.tagUid)
        && lastCard.Cleared()
        && Control() == old(Control()).(mode := NoMode, registerState := CLEARED_REGISTER,
             outbox := old(outbox) + [RegisterSucceeded(old(registerState.requestId), old(registerState.tagUid), 1),
                                      ModeChanged(old(registerState.requestId), DeviceMode.Idle, DeviceMode.Register)])
        && (cards.pn532.tag.cardType == CardDesfire ==>
              cards.pn532.picc == Personalized(old(cards.pn532.picc).(masterKey := PiccMasterKey(cards.secrets)),
                cards.secrets, cards.pn532.tag.uid, NameBlock(old(registerState.tagUid)), old(registerState.keyBinary)))
      ensures mode != NoMode ==>
        mode == RegisterMode && state == old(state) && readRequestId == old(readRequestId)
        && authState == old(authState) && lastStateChange == old(lastStateChange)
        && registerState.(tagUidBinary := old(registerState.tagUidBinary)) == old(registerState)
        && (outbox == old(outbox)
            || outbox == old(outbox) + [ErrorRaised(RegisterErrorTopic, old(registerState.requestId), NfcUnsupportedTag)]
            || outbox == old(outbox) + [ErrorRaised(RegisterErrorTopic, old(registerState.requestId), NfcWriteError)]
            || outbox == old(outbox) + [ErrorRaised(RegisterErrorTopic, old(registerState.requestId),
                                          NfcErrorCode(cards.IsDesfireTimeout(), lastCard.pn532Error, NfcReadError))])
      ensures lastCard.pn532Error ==>
        Control() == old(Control()).(outbox := old(outbox) + [ErrorRaised(RegisterErrorTopic, old(registerState.requestId),
          NfcErrorCode(cards.IsDesfireTimeout(), true, NfcReadError))])
      ensures old(cards.pn532.present) && cards.pn532.tag.cardType == CardDesRandom
              && !PiccAuthAccepts(cards.secrets, old(cards.pn532.picc)) ==>
        cards.pn532.picc == old(cards.pn532.picc)
        && Control() == old(Control()).(outbox := old(outbox) + [ErrorRaised(RegisterErrorTopic, old(registerState.requestId),
             NfcErrorCode(cards.IsDesfireTimeout(), lastCard.pn532Error, NfcReadError))])
      ensures !old(cards.pn532.present) && !lastCard.pn532Error ==>
        Control() == old(Control()) && cards.pn532.picc == old(cards.pn532.picc) && cards.lastId == Zeros(8)
      ensures lastCard.pn532Error ==> !readOk
      ensures !old(cards.pn532.present) && !lastCard.pn532Error ==> readOk
      ensures old(cards.pn532.Reliable())
              && (old(cards.pn532.present) && cards.pn532.tag.cardType == CardDesRandom ==>
                    PiccAuthAccepts(cards.secrets, old(cards.pn532.picc))) ==>
        readOk
      ensures !readOk ==>
        cards.pn532.picc == old(cards.pn532.picc)
        && Control() == old(Control()).(outbox := old(outbox) + [ErrorRaised(RegisterErrorTopic, old(registerState.requestId),
             NfcErrorCode(cards.IsDesfireTimeout(), lastCard.pn532Error, NfcReadError))])
      ensures readOk && !old(cards.pn532.present) ==> Control() == old(Control()) && cards.pn532.picc == old(cards.pn532.picc)
      ensures readOk && old(cards.pn532.present) && FormatUid(PadUid(cards.pn532.tag.uid)) != old(registerState.tagUid) ==>
        cards.pn532.picc == old(cards.pn532.picc)
        && Control() == old(Control()).(outbox := old(outbox) + [ErrorRaised(RegisterErrorTopic, old(registerState.requestId),
                                                                             NfcUnsupportedTag)])
      ensures readOk && old(cards.pn532.present) && FormatUid(PadUid(cards.pn532.tag.uid)) == old(registerState.tagUid)
              && mode != NoMode ==>
        Control() == old(Control()).(registerState := old(registerState).(tagUidBinary := PadUid(cards.pn532.tag.uid)),
          outbox := old(outbox) + [ErrorRaised(RegisterErrorTopic, old(registerState.requestId), NfcWriteError)])
      ensures old(cards.pn532.present) && mode != NoMode ==> |outbox| == |old(outbox)| + 1
      ensures old(cards.Steady()) && FormatUid(PadUid(cards.pn532.tag.uid)) != old(registerState.tagUid)
              && (cards.pn532.tag.cardType == CardDesRandom ==> PiccAuthAccepts(cards.secrets, old(cards.pn532.picc))) ==>
        cards.pn532.picc == old(cards.pn532.picc)
        && Control() == old(Control()).(outbox := old(outbox) + [ErrorRaised(RegisterErrorTopic, old(registerState.requestId),
                                                                             NfcUnsupportedTag)])
      ensures old(cards.Steady()) && polls[0].inField && cards.pn532.tag.cardType == CardDesfire
              && FormatUid(PadUid(cards.pn532.tag.uid)) == old(registerState.tagUid)
              && PiccAuthAccepts(cards.secrets, old(cards.pn532.picc)) && KeysUsable(cards.secrets)
              && 0 < cards.secrets.applicationId <= MAX_APPLICATION_ID && cards.secrets.keyVersion != 0 ==>
        mode == NoMode
    {
      lastCard.Clear();
      var id := new byte[8](_ => 0);
      var ok := cards.ReadCard(id, lastCard);
      readOk := ok;
      if !ok {
        var code := NfcErrorCode(cards.IsDesfireTimeout(), lastCard.pn532Error, NfcReadError);
        outbox := outbox + [ErrorRaised(RegisterErrorTopic, registerState.requestId, code)];
        return;
      }
      if lastCard.uidLength == 0 {
        cards.lastId := Zeros(8);
        return;
      }
      var detected := FormatUid(id[..]);
      if detected != registerState.tagUid {
        outbox := outbox + [ErrorRaised(RegisterErrorTopic, registerState.requestId, NfcUnsupportedTag)];
        return;
      }
      RegisterExpectedCard(id[..], polls);
    }

    /**
     * The card whose printed UID `id` the registration session expects: it
     * is stored as the session's UID and personalised with the session's
     * name block and key; success is published and closes the session, a
     * failure is reported as a write error.
     */
    method RegisterExpectedCard(id: seq<byte>, polls: seq<Poll>)
      requires Valid() && mode == RegisterMode && state == WaitingForUserId && PollsEnd(polls)
      requires id == PadUid(cards.pn532.tag.uid) && FormatUid(id) == registerState.tagUid
      modifies this, cards, cards.pn532, lastCard
      ensures Valid()
      ensures cards.pn532.tag == old(cards.pn532.tag)
      ensures lastCard.pn532Error ==> old(lastCard.pn532Error)
      ensures readOk == old(readOk)
      ensures cards.pn532.picc.masterKey == old(cards.pn532.picc.masterKey)
              || cards.pn532.picc.masterKey == PiccMasterKey(cards.secrets)
      ensures cards.pn532.picc.apps - {cards.secrets.applicationId}
              == old(cards.pn532.picc.apps) - {cards.secrets.applicationId}
      ensures mode == NoMode ==>
        IsDesfire(cards.pn532.tag.cardType) && lastCard.Cleared()
        && Control() == old(Control()).(mode := NoMode, registerState := CLEARED_REGISTER,
             outbox := old(outbox) + [RegisterSucceeded(old(registerState.requestId), old(registerState.tagUid), 1),
                                      ModeChanged(old(registerState.requestId), DeviceMode.Idle, DeviceMode.Register)])
        && (cards.pn532.tag.cardType == CardDesfire ==>
              cards.pn532.picc == Personalized(old(cards.pn532.picc).(masterKey := PiccMasterKey(cards.secrets)),
                cards.secrets, cards.pn532.tag.uid, NameBlock(old(registerState.tagUid)), old(registerState.keyBinary)))
      ensures mode != NoMode ==>
        Control() == old(Control()).(registerState := old(registerState).(tagUidBinary := id),
          outbox := old(outbox) + [ErrorRaised(RegisterErrorTopic, old(registerState.requestId), NfcWriteError)])
      ensures old(cards.pn532.Reliable()) && polls[0].inField && cards.pn532.tag.cardType == CardDesfire
              && PiccAuthAccepts(cards.secrets, old(cards.pn532.picc)) && KeysUsable(cards.secrets)
              && 0 < cards.secrets.applicationId <= MAX_APPLICATION_ID && cards.secrets.keyVersion != 0 ==>
        mode == NoMode
    {
      registerState := registerState.(tagUidBinary := id);
      var written := CustomizeExpectedCard(polls);
      if !written {
        outbox := outbox + [ErrorRaised(RegisterErrorTopic, registerState.requestId, NfcWriteError)];
        return;
      }
      ConcludeRegistration();
    }

    /** The `customize_card` call of the registration pass, on the session's UID text and key. */
    method CustomizeExpectedCard(polls: seq<Poll>) returns (written: bool)
      requires Valid() && PollsEnd(polls) && |registerState.tagUid| < NAME_BUF_SIZE
      modifies cards, cards.pn532
      ensures Valid()
      ensures cards.pn532.tag == old(cards.pn532.tag)
      ensures cards.pn532.picc.masterKey == old(cards.pn532.picc.masterKey)
              || cards.pn532.picc.masterKey == PiccMasterKey(cards.secrets)
      ensures cards.pn532.picc.apps - {cards.secrets.applicationId}
              == old(cards.pn532.picc.apps) - {cards.secrets.applicationId}
      ensures written ==> IsDesfire(cards.pn532.tag.cardType)
      ensures written && cards.pn532.tag.cardType == CardDesfire ==>
        cards.pn532.picc == Personalized(old(cards.pn532.picc).(masterKey := PiccMasterKey(cards.secrets)),
          cards.secrets, cards.pn532.tag.uid, NameBlock(registerState.tagUid), registerState.keyBinary)
      ensures old(cards.pn532.Reliable()) && polls[0].inField && cards.pn532.tag.cardType == CardDesfire
              && PiccAuthAccepts(cards.secrets, old(cards.pn532.picc)) && KeysUsable(cards.secrets)
              && 0 < cards.secrets.applicationId <= MAX_APPLICATION_ID && cards.secrets.keyVersion != 0 ==>
        written
    {
      var cardUid;
      written, cardUid := cards.CustomizeCard(registerState.tagUid, registerState.keyBinary, polls);
    }

    /** A registration that wrote the card: success and the return to idle are published and the session is closed. */
    method ConcludeRegistration()
      modifies this, lastCard
      ensures lastCard.Cleared() && readOk == old(readOk)
      ensures Control() == old(Control()).(mode := NoMode, state := WaitingForUserId, registerState := CLEARED_REGISTER,
        outbox := old(outbox) + [RegisterSucceeded(old(registerState.requestId), old(registerState.tagUid), 1),
                                 ModeChanged(old(registerState.requestId), DeviceMode.Idle, DeviceMode.Register)])
    {
      outbox := outbox + [RegisterSucceeded(registerState.requestId, registerState.tagUid, 1),
                          ModeChanged(registerState.requestId, DeviceMode.Idle, DeviceMode.Register)];
      mode := NoMode;
      state := WaitingForUserId;
      registerState := CLEARED_REGISTER;
      lastCard.Clear();
    }

    /**
     * One pass of `loop()`. The card enters or leaves the field (`inField`)
     * before the pass; `connected` says whether MQTT and WiFi are up and
     * `now` is what `millis()` returns. While disconnected nothing happens;
     * otherwise the buffer timeout is applied and, in a session waiting for
     * a card, the pass of the session's mode runs.
     */
    method Loop(connected: bool, now: nat, inField: bool, polls: seq<Poll>)
      requires Valid() && now < MILLIS_WRAP && PollsEnd(polls)
      modifies this, cards, cards.pn532, lastCard
      ensures Valid()
      ensures cards.pn532.tag == old(cards.pn532.tag)
      ensures !connected ==> Control() == old(Control())
      ensures connected && old(mode) == NoMode ==>
        Control() == old(Control()).(state := BufferTimeout(old(state), now, old(lastStateChange)))
      ensures connected && BufferTimeout(old(state), now, old(lastStateChange)) == WaitingForUserBuffer ==>
        Control() == old(Control()) && cards.pn532.picc == old(cards.pn532.picc)
      ensures cards.pn532.picc != old(cards.pn532.picc) ==>
        old(mode) == RegisterMode && FormatUid(PadUid(cards.pn532.tag.uid)) == old(registerState.tagUid)
      ensures cards.pn532.picc.masterKey == old(cards.pn532.picc.masterKey)
              || cards.pn532.picc.masterKey == PiccMasterKey(cards.secrets)
      ensures cards.pn532.picc.apps - {cards.secrets.applicationId}
              == old(cards.pn532.picc.apps) - {cards.secrets.applicationId}
      // The authentication pass: a card found, a failed read reported, no card.
      ensures connected && old(mode) == AuthenticateMode
              && BufferTimeout(old(state), now, old(lastStateChange)) == WaitingForUserId ==>
        var g := old(Control()).(state := WaitingForUserId);
        (state == WaitingForUserBuffer ==>
           inField && Control() == g.(state := WaitingForUserBuffer, lastStateChange := Int32Of(now),
             authState := g.authState.(tagUidBinary := PadUid(cards.pn532.tag.uid)),
             outbox := g.outbox + [TagDetected(g.authState.requestId, FormatUid(PadUid(cards.pn532.tag.uid)))]))
        && ((inField && state == WaitingForUserId) || lastCard.pn532Error ==>
              Control() == g.(outbox := g.outbox + [ErrorRaised(AuthErrorTopic, g.authState.requestId,
                NfcErrorCode(cards.IsDesfireTimeout(), lastCard.pn532Error, NfcAuthFailed))]))
        && (!inField && !lastCard.pn532Error ==> Control() == g)
        && (inField && cards.pn532.tag.cardType == CardDesRandom && !PiccAuthAccepts(cards.secrets, cards.pn532.picc) ==>
              state == WaitingForUserId)
        && (old(cards.pn532.Reliable()) && inField
            && (cards.pn532.tag.cardType == CardDesRandom ==> PiccAuthAccepts(cards.secrets, cards.pn532.picc)) ==>
              state == WaitingForUserBuffer)
      // The read pass: a card read closes the session, a failed read is reported, no card.
      ensures connected && old(mode) == ReadMode
              && BufferTimeout(old(state), now, old(lastStateChange)) == WaitingForUserId ==>
        var g := old(Control()).(state := WaitingForUserId);
        (mode == NoMode ==>
           inField && Control() == g.(mode := NoMode, readRequestId := "",
             outbox := g.outbox + [ReadSucceeded(g.readRequestId, FormatUid(PadUid(cards.pn532.tag.uid))),
                                   ModeChanged(g.readRequestId, DeviceMode.Idle, DeviceMode.Read)]))
        && ((inField && mode != NoMode) || lastCard.pn532Error ==>
              Control() == g.(outbox := g.outbox + [ErrorRaised(ReadErrorTopic, g.readRequestId,
                NfcErrorCode(cards.IsDesfireTimeout(), lastCard.pn532Error, NfcReadError))]))
        && (!inField && !lastCard.pn532Error ==> Control() == g)
        && (inField && cards.pn532.tag.cardType == CardDesRandom && !PiccAuthAccepts(cards.secrets, cards.pn532.picc) ==>
              mode == ReadMode)
        && (old(cards.pn532.Reliable()) && inField
            && (cards.pn532.tag.cardType == CardDesRandom ==> PiccAuthAccepts(cards.secrets, cards.pn532.picc)) ==>
              mode == NoMode)
      // The registration pass: the expected card registered, a failed read or a wrong card reported, no card.
      ensures connected && old(mode) == RegisterMode
              && BufferTimeout(old(state), now, old(lastStateChange)) == WaitingForUserId ==>
        var g := old(Control()).(state := WaitingForUserId);
        var rid := g.registerState.requestId;
        (mode == NoMode ==>
           IsDesfire(cards.pn532.tag.cardType) && FormatUid(PadUid(cards.pn532.tag.uid)) == g.registerState.tagUid
           && Control() == g.(mode := NoMode, registerState := CLEARED_REGISTER,
                outbox := g.outbox + [RegisterSucceeded(rid, g.registerState.tagUid, 1),
                                      ModeChanged(rid, DeviceMode.Idle, DeviceMode.Register)]))
        && (lastCard.pn532Error ==>
              Control() == g.(outbox := g.outbox + [ErrorRaised(RegisterErrorTopic, rid,
                NfcErrorCode(cards.IsDesfireTimeout(), true, NfcReadError))]))
        && (inField && cards.pn532.tag.cardType == CardDesRandom && !PiccAuthAccepts(cards.secrets, old(cards.pn532.picc)) ==>
              Control() == g.(outbox := g.outbox + [ErrorRaised(RegisterErrorTopic, rid,
                NfcErrorCode(cards.IsDesfireTimeout(), lastCard.pn532Error, NfcReadError))]))
        && (!inField && !lastCard.pn532Error ==> Control() == g && cards.pn532.picc == old(cards.pn532.picc))
        && (!readOk ==>
              Control() == g.(outbox := g.outbox + [ErrorRaised(RegisterErrorTopic, rid,
                NfcErrorCode(cards.IsDesfireTimeout(), lastCard.pn532Error, NfcReadError))]))
        && (readOk && inField && FormatUid(PadUid(cards.pn532.tag.uid)) != g.registerState.tagUid ==>
              cards.pn532.picc == old(cards.pn532.picc)
              && Control() == g.(outbox := g.outbox + [ErrorRaised(RegisterErrorTopic, rid, NfcUnsupportedTag)]))
        && (readOk && inField && FormatUid(PadUid(cards.pn532.tag.uid)) == g.registerState.tagUid && mode != NoMode ==>
              Control() == g.(registerState := g.registerState.(tagUidBinary := PadUid(cards.pn532.tag.uid)),
                outbox := g.outbox + [ErrorRaised(RegisterErrorTopic, rid, NfcWriteError)]))
        && (inField && mode != NoMode ==> |outbox| == |g.outbox| + 1)
        && (old(cards.pn532.Reliable()) && inField && FormatUid(PadUid(cards.pn532.tag.uid)) != g.registerState.tagUid
            && (cards.pn532.tag.cardType == CardDesRandom ==> PiccAuthAccepts(cards.secrets, old(cards.pn532.picc))) ==>
              cards.pn532.picc == old(cards.pn532.picc)
              && Control() == g.(outbox := g.outbox + [ErrorRaised(RegisterErrorTopic, rid, NfcUnsupportedTag)]))
        && (old(cards.pn532.Reliable()) && inField && polls[0].inField && cards.pn532.tag.cardType == CardDesfire
            && FormatUid(PadUid(cards.pn532.tag.uid)) == g.registerState.tagUid
            && PiccAuthAccepts(cards.secrets, old(cards.pn532.picc)) && KeysUsable(cards.secrets)
            && 0 < cards.secrets.applicationId <= MAX_APPLICATION_ID && cards.secrets.keyVersion != 0 ==>
              mode == NoMode)
    {
      cards.pn532.MoveCard(inField);
      if !connected {
        return;
      }
      CheckBufferTimeout(now);
      if mode == NoMode {
        return;
      }
      // loop() tests the three modes one after another; no pass enters another
      // pass's mode, so at most one of them runs.
      if state == WaitingForUserId {
        if mode == AuthenticateMode {
          AuthPass(now);
        } else if mode == ReadMode {
          ReadPass();
        } else if mode == RegisterMode {
          RegisterPass(polls);
        }
      }
    }
  }
}
