// The protocol's enumerations and their wire names (mqtt_types.h,
// mqtt_types.cpp). Matching a wire name is exact and case-sensitive.

module MqttTypes {

  const MQTT_PROTOCOL_VERSION: string := "1.0"

  // Maximum field lengths, NUL terminator not included.
  const MAX_TAG_UID_LENGTH: nat := 32
  const MAX_HEX_KEY_LENGTH: nat := 32
  const MAX_DEVICE_ID_LENGTH: nat := 64
  const MAX_UUID_LENGTH: nat := 36
  const MAX_ERROR_MESSAGE_LENGTH: nat := 256
  const MAX_USERNAME_LENGTH: nat := 128
  const MAX_CONTEXT_LENGTH: nat := 256
  const MAX_FIRMWARE_VERSION_LENGTH: nat := 16
  const MAX_IP_ADDRESS_LENGTH: nat := 16

  /** Commands, service to device. */
  datatype CommandType =
    RegisterStart | RegisterCancel | AuthStart | AuthVerify | AuthCancel
    | ReadStart | ReadCancel | Reset | Unknown

  /** Events, device to service. */
  datatype EventType =
    RegisterSuccess | RegisterError | AuthTagDetected | AuthSuccess | AuthFailed
    | AuthError | ReadSuccess | ReadError | StatusChange | ModeChange | Heartbeat | Unknown

  datatype DeviceMode = Idle | Register | Auth | Read | Unknown

  datatype DeviceStatus = Online | Offline

  datatype ErrorCode =
    NfcTimeout | NfcTagLost | NfcAuthFailed | NfcReadError | NfcWriteError
    | NfcUnsupportedTag | NfcInvalidKey | NfcDeviceBusy | NfcDeviceError
    | InvalidCommand | SessionNotFound | TimeoutExceeded | Unknown

  datatype ErrorComponent = Nfc | Pn532 | Crypto | Device | Protocol

  /** A character of a lower-case wire name: a small letter, a digit or '_'. */
  predicate LowerNameChar(c: char)
  {
    'a' <= c <= 'z' || '0' <= c <= '9' || c == '_'
  }

  /** The lower-case wire names: a small letter, then small letters, digits and '_'. */
  predicate LowerWireName(s: string)
  {
    |s| > 0 && 'a' <= s[0] <= 'z' && forall c :: c in s ==> LowerNameChar(c)
  }

  /** The upper-case wire names of the error codes: capitals and '_'. */
  predicate UpperWireName(s: string)
  {
    |s| > 0 && forall c :: c in s ==> 'A' <= c <= 'Z' || c == '_'
  }

  // ---------------------------------------------------------------- commands

  function CommandTypeToString(t: CommandType): (s: string)
    ensures LowerWireName(s)
  {
    match t
    case RegisterStart => "register_start"
    case RegisterCancel => "register_cancel"
    case AuthStart => "auth_start"
    case AuthVerify => "auth_verify"
    case AuthCancel => "auth_cancel"
    case ReadStart => "read_start"
    case ReadCancel => "read_cancel"
    case Reset => "reset"
    case Unknown => "unknown"
  }

  /**
   * A string names a known command exactly when it is that command's wire
   * name; every other string is `Unknown`.
   */
  function StringToCommandType(s: string): (t: CommandType)
    ensures t != CommandType.Unknown ==> s == CommandTypeToString(t)
    ensures t == CommandType.Unknown <==>
      (forall c: CommandType :: c != CommandType.Unknown ==> s != CommandTypeToString(c))
  {
    if s == "register_start" then RegisterStart
    else if s == "register_cancel" then RegisterCancel
    else if s == "auth_start" then AuthStart
    else if s == "auth_verify" then AuthVerify
    else if s == "auth_cancel" then AuthCancel
    else if s == "read_start" then ReadStart
    else if s == "read_cancel" then ReadCancel
    else if s == "reset" then Reset
    else CommandType.Unknown
  }

  lemma CommandTypeRoundTrip(t: CommandType)
    ensures StringToCommandType(CommandTypeToString(t)) == t
  {
  }

  // ------------------------------------------------------------------ events

  function EventTypeToString(t: EventType): (s: string)
    ensures LowerWireName(s)
  {
    match t
    case RegisterSuccess => "register_success"
    case RegisterError => "register_error"
    case AuthTagDetected => "auth_tag_detected"
    case AuthSuccess => "auth_success"
    case AuthFailed => "auth_failed"
    case AuthError => "auth_error"
    case ReadSuccess => "read_success"
    case ReadError => "read_error"
    case StatusChange => "status_change"
    case ModeChange => "mode_change"
    case Heartbeat => "heartbeat"
    case Unknown => "unknown"
  }

  function StringToEventType(s: string): (t: EventType)
    ensures t != EventType.Unknown ==> s == EventTypeToString(t)
    ensures t == EventType.Unknown <==>
      (forall e: EventType :: e != EventType.Unknown ==> s != EventTypeToString(e))
  {
    if s == "register_success" then RegisterSuccess
    else if s == "register_error" then RegisterError
    else if s == "auth_tag_detected" then AuthTagDetected
    else if s == "auth_success" then AuthSuccess
    else if s == "auth_failed" then AuthFailed
    else if s == "auth_error" then AuthError
    else if s == "read_success" then ReadSuccess
    else if s == "read_error" then ReadError
    else if s == "status_change" then StatusChange
    else if s == "mode_change" then ModeChange
    else if s == "heartbeat" then Heartbeat
    else EventType.Unknown
  }

  lemma EventTypeRoundTrip(t: EventType)
    ensures StringToEventType(EventTypeToString(t)) == t
  {
  }

  // ------------------------------------------------------------------- modes

  function DeviceModeToString(m: DeviceMode): (s: string)
    ensures LowerWireName(s)
  {
    match m
    case Idle => "idle"
    case Register => "register"
    case Auth => "auth"
    case Read => "read"
    case Unknown => "unknown"
  }

  function StringToDeviceMode(s: string): (m: DeviceMode)
    ensures m != DeviceMode.Unknown ==> s == DeviceModeToString(m)
    ensures m == DeviceMode.Unknown <==>
      (forall d: DeviceMode :: d != DeviceMode.Unknown ==> s != DeviceModeToString(d))
  {
    if s == "idle" then Idle
    else if s == "register" then Register
    else if s == "auth" then Auth
    else if s == "read" then Read
    else DeviceMode.Unknown
  }

  lemma DeviceModeRoundTrip(m: DeviceMode)
    ensures StringToDeviceMode(DeviceModeToString(m)) == m
  {
  }

  // ------------------------------------------------------------------ status

  function DeviceStatusToString(st: DeviceStatus): (s: string)
    ensures LowerWireName(s)
  {
    match st
    case Online => "online"
    case Offline => "offline"
  }

  /** Only "online" is `Online`; every other string is `Offline`. */
  function StringToDeviceStatus(s: string): (st: DeviceStatus)
    ensures st == Online <==> s == DeviceStatusToString(Online)
  {
    if s == "online" then Online
    else Offline
  }

  lemma DeviceStatusRoundTrip(st: DeviceStatus)
    ensures StringToDeviceStatus(DeviceStatusToString(st)) == st
  {
  }

  // ------------------------------------------------------------- error codes

  function ErrorCodeToString(c: ErrorCode): (s: string)
    ensures UpperWireName(s)
  {
    match c
    case NfcTimeout => "NFC_TIMEOUT"
    case NfcTagLost => "NFC_TAG_LOST"
    case NfcAuthFailed => "NFC_AUTH_FAILED"
    case NfcReadError => "NFC_READ_ERROR"
    case NfcWriteError => "NFC_WRITE_ERROR"
    case NfcUnsupportedTag => "NFC_UNSUPPORTED_TAG"
    case NfcInvalidKey => "NFC_INVALID_KEY"
    case NfcDeviceBusy => "NFC_DEVICE_BUSY"
    case NfcDeviceError => "NFC_DEVICE_ERROR"
    case InvalidCommand => "INVALID_COMMAND"
    case SessionNotFound => "SESSION_NOT_FOUND"
    case TimeoutExceeded => "TIMEOUT_EXCEEDED"
    case Unknown => "UNKNOWN"
  }

  function StringToErrorCode(s: string): (c: ErrorCode)
    ensures c != ErrorCode.Unknown ==> s == ErrorCodeToString(c)
    ensures c == ErrorCode.Unknown <==>
      (forall e: ErrorCode :: e != ErrorCode.Unknown ==> s != ErrorCodeToString(e))
  {
    if s == "NFC_TIMEOUT" then NfcTimeout
    else if s == "NFC_TAG_LOST" then NfcTagLost
    else if s == "NFC_AUTH_FAILED" then NfcAuthFailed
    else if s == "NFC_READ_ERROR" then NfcReadError
    else if s == "NFC_WRITE_ERROR" then NfcWriteError
    else if s == "NFC_UNSUPPORTED_TAG" then NfcUnsupportedTag
    else if s == "NFC_INVALID_KEY" then NfcInvalidKey
    else if s == "NFC_DEVICE_BUSY" then NfcDeviceBusy
    else if s == "NFC_DEVICE_ERROR" then NfcDeviceError
    else if s == "INVALID_COMMAND" then InvalidCommand
    else if s == "SESSION_NOT_FOUND" then SessionNotFound
    else if s == "TIMEOUT_EXCEEDED" then TimeoutExceeded
    else ErrorCode.Unknown
  }

  lemma ErrorCodeRoundTrip(c: ErrorCode)
    ensures StringToErrorCode(ErrorCodeToString(c)) == c
  {
  }

  // -------------------------------------------------------- error components

  function ErrorComponentToString(c: ErrorComponent): (s: string)
    ensures LowerWireName(s)
  {
    match c
    case Nfc => "nfc"
    case Pn532 => "pn532"
    case Crypto => "crypto"
    case Device => "device"
    case Protocol => "protocol"
  }

  /** Unrecognised strings fall back to `Device`. */
  function StringToErrorComponent(s: string): (c: ErrorComponent)
    ensures c != Device ==> s == ErrorComponentToString(c)
    ensures c == Device <==>
      (forall e: ErrorComponent :: e != Device ==> s != ErrorComponentToString(e))
  {
    if s == "nfc" then Nfc
    else if s == "pn532" then Pn532
    else if s == "crypto" then Crypto
    else if s == "device" then Device
    else if s == "protocol" then Protocol
    else Device
  }

  lemma ErrorComponentRoundTrip(c: ErrorComponent)
    ensures StringToErrorComponent(ErrorComponentToString(c)) == c
  {
  }

  // ------------------------------------------------------ pinned wire names

  /** Wire names fixed by the protocol's tests; upper and lower case differ. */
  lemma WireNameExamples()
    ensures ErrorCodeToString(NfcTimeout) == "NFC_TIMEOUT"
    ensures ErrorComponentToString(Nfc) == "nfc"
    ensures DeviceModeToString(Auth) == "auth" && DeviceModeToString(Idle) == "idle"
    ensures DeviceStatusToString(Online) == "online"
    ensures StringToDeviceMode("AUTH") == DeviceMode.Unknown
    ensures StringToErrorCode("nfc_timeout") == ErrorCode.Unknown
    ensures StringToCommandType("Reset") == CommandType.Unknown
  {
  }
}
