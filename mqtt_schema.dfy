// The message records of the protocol (mqtt_schema.h). Every `char` buffer
// of the source is a `CStr` field whose length stays below the buffer size;
// `Valid()` states those bounds and `Clear()` resets a record in place.

module MqttSchema {
  import opened Common
  import opened Json
  import opened MqttTypes

  // Buffer sizes in bytes, NUL terminator included.
  const VERSION_SIZE: nat := 8
  const TIMESTAMP_SIZE: nat := 32
  const DEVICE_ID_SIZE: nat := MAX_DEVICE_ID_LENGTH + 1
  const EVENT_TYPE_SIZE: nat := 32
  const REQUEST_ID_SIZE: nat := MAX_UUID_LENGTH + 1
  const TAG_UID_SIZE: nat := MAX_TAG_UID_LENGTH + 1
  const HEX_KEY_SIZE: nat := MAX_HEX_KEY_LENGTH + 1
  const USERNAME_SIZE: nat := MAX_USERNAME_LENGTH + 1
  const CONTEXT_SIZE: nat := MAX_CONTEXT_LENGTH + 1
  const MESSAGE_SIZE: nat := MAX_ERROR_MESSAGE_LENGTH + 1
  const FIRMWARE_VERSION_SIZE: nat := MAX_FIRMWARE_VERSION_LENGTH + 1
  const IP_ADDRESS_SIZE: nat := MAX_IP_ADDRESS_LENGTH + 1

  /** A C string that fits a buffer of `size` bytes with its terminator. */
  predicate Fits(s: CStr, size: nat)
  {
    |s| < size
  }

  /** A value a 32-bit `int` field can hold. */
  predicate IsInt32(x: int)
  {
    INT_MIN <= x <= INT_MAX
  }

  /** The envelope every message travels in (`MQTTMessageEnvelope`). */
  class MessageEnvelope {
    var version: CStr
    var timestamp: CStr
    var deviceId: CStr
    var eventType: CStr
    var requestId: CStr
    var payload: JsonObject

    predicate Valid()
      reads this
    {
      Fits(version, VERSION_SIZE) && Fits(timestamp, TIMESTAMP_SIZE) && Fits(deviceId, DEVICE_ID_SIZE)
      && Fits(eventType, EVENT_TYPE_SIZE) && Fits(requestId, REQUEST_ID_SIZE)
    }

    constructor ()
      ensures Valid()
      ensures version == "" && timestamp == "" && deviceId == "" && eventType == "" && requestId == ""
      ensures payload == map[]
    {
      version, timestamp, deviceId, eventType, requestId := "", "", "", "", "";
      payload := map[];
    }
  }

  /** `UserData`: the opaque user fields echoed back on authentication. */
  class UserData {
    var username: CStr
    var context: CStr

    predicate Valid()
      reads this
    {
      Fits(username, USERNAME_SIZE) && Fits(context, CONTEXT_SIZE)
    }

    constructor ()
      ensures Valid() && username == "" && context == ""
    {
      username, context := "", "";
    }

    method Clear()
      modifies this
      ensures Valid() && username == "" && context == ""
    {
      username, context := "", "";
    }
  }

  /** `RegisterStartPayload` */
  class RegisterStartPayload {
    var tagUid: CStr
    var key: CStr
    var timeoutSeconds: int

    predicate Valid()
      reads this
    {
      Fits(tagUid, TAG_UID_SIZE) && Fits(key, HEX_KEY_SIZE) && IsInt32(timeoutSeconds)
    }

    constructor ()
      ensures Valid() && tagUid == "" && key == "" && timeoutSeconds == 0
    {
      tagUid, key, timeoutSeconds := "", "", 0;
    }

    method Clear()
      modifies this
      ensures Valid() && tagUid == "" && key == "" && timeoutSeconds == 0
    {
      tagUid, key, timeoutSeconds := "", "", 0;
    }
  }

  /** `AuthStartPayload` */
  class AuthStartPayload {
    var timeoutSeconds: int

    predicate Valid()
      reads this
    {
      IsInt32(timeoutSeconds)
    }

    constructor ()
      ensures Valid() && timeoutSeconds == 0
    {
      timeoutSeconds := 0;
    }

    method Clear()
      modifies this
      ensures Valid() && timeoutSeconds == 0
    {
      timeoutSeconds := 0;
    }
  }

  /** `AuthVerifyPayload`, with its nested user data. */
  class AuthVerifyPayload {
    var tagUid: CStr
    var key: CStr
    const userData: UserData

    predicate Valid()
      reads this, userData
    {
      Fits(tagUid, TAG_UID_SIZE) && Fits(key, HEX_KEY_SIZE) && userData.Valid()
    }

    constructor ()
      ensures Valid() && fresh(userData)
      ensures tagUid == "" && key == "" && userData.username == "" && userData.context == ""
    {
      tagUid, key := "", "";
      userData := new UserData();
    }

    method Clear()
      modifies this, userData
      ensures Valid()
      ensures tagUid == "" && key == "" && userData.username == "" && userData.context == ""
    {
      tagUid, key := "", "";
      userData.Clear();
    }
  }

  /** `ReadStartPayload` */
  class ReadStartPayload {
    var timeoutSeconds: int

    predicate Valid()
      reads this
    {
      IsInt32(timeoutSeconds)
    }

    constructor ()
      ensures Valid() && timeoutSeconds == 0
    {
      timeoutSeconds := 0;
    }

    method Clear()
      modifies this
      ensures Valid() && timeoutSeconds == 0
    {
      timeoutSeconds := 0;
    }
  }

  /** `StatusChangePayload` */
  class StatusChangePayload {
    var status: DeviceStatus
    var firmwareVersion: CStr
    var ipAddress: CStr

    predicate Valid()
      reads this
    {
      Fits(firmwareVersion, FIRMWARE_VERSION_SIZE) && Fits(ipAddress, IP_ADDRESS_SIZE)
    }

    constructor ()
      ensures Valid() && status == Offline && firmwareVersion == "" && ipAddress == ""
    {
      status, firmwareVersion, ipAddress := Offline, "", "";
    }

    method Clear()
      modifies this
      ensures Valid() && status == Offline && firmwareVersion == "" && ipAddress == ""
    {
      status, firmwareVersion, ipAddress := Offline, "", "";
    }
  }

  /** `ModeChangePayload` */
  class ModeChangePayload {
    var mode: DeviceMode
    var previousMode: DeviceMode

    constructor ()
      ensures mode == Idle && previousMode == Idle
    {
      mode, previousMode := Idle, Idle;
    }

    method Clear()
      modifies this
      ensures mode == Idle && previousMode == Idle
    {
      mode, previousMode := Idle, Idle;
    }
  }

  /** `TagDetectedPayload` */
  class TagDetectedPayload {
    var tagUid: CStr
    var message: CStr

    predicate Valid()
      reads this
    {
      Fits(tagUid, TAG_UID_SIZE) && Fits(message, MESSAGE_SIZE)
    }

    constructor ()
      ensures Valid() && tagUid == "" && message == ""
    {
      tagUid, message := "", "";
    }

    method Clear()
      modifies this
      ensures Valid() && tagUid == "" && message == ""
    {
      tagUid, message := "", "";
    }
  }

  /** `RegisterSuccessPayload` */
  class RegisterSuccessPayload {
    var tagUid: CStr
    var blocksWritten: int
    var message: CStr

    predicate Valid()
      reads this
    {
      Fits(tagUid, TAG_UID_SIZE) && IsInt32(blocksWritten) && Fits(message, MESSAGE_SIZE)
    }

    constructor ()
      ensures Valid() && tagUid == "" && blocksWritten == 0 && message == ""
    {
      tagUid, blocksWritten, message := "", 0, "";
    }

    method Clear()
      modifies this
      ensures Valid() && tagUid == "" && blocksWritten == 0 && message == ""
    {
      tagUid, blocksWritten, message := "", 0, "";
    }
  }

  /** `AuthSuccessPayload`, with the echoed user data. */
  class AuthSuccessPayload {
    var tagUid: CStr
    var authenticated: bool
    var message: CStr
    const userData: UserData

    predicate Valid()
      reads this, userData
    {
      Fits(tagUid, TAG_UID_SIZE) && Fits(message, MESSAGE_SIZE) && userData.Valid()
    }

    constructor ()
      ensures Valid() && fresh(userData)
      ensures tagUid == "" && !authenticated && message == ""
      ensures userData.username == "" && userData.context == ""
    {
      tagUid, authenticated, message := "", false, "";
      userData := new UserData();
    }

    method Clear()
      modifies this, userData
      ensures Valid()
      ensures tagUid == "" && !authenticated && message == ""
      ensures userData.username == "" && userData.context == ""
    {
      tagUid, authenticated, message := "", false, "";
      userData.Clear();
    }
  }

  /** `AuthFailedPayload` */
  class AuthFailedPayload {
    var tagUid: CStr
    var authenticated: bool
    var reason: CStr

    predicate Valid()
      reads this
    {
      Fits(tagUid, TAG_UID_SIZE) && Fits(reason, MESSAGE_SIZE)
    }

    constructor ()
      ensures Valid() && tagUid == "" && !authenticated && reason == ""
    {
      tagUid, authenticated, reason := "", false, "";
    }

    method Clear()
      modifies this
      ensures Valid() && tagUid == "" && !authenticated && reason == ""
    {
      tagUid, authenticated, reason := "", false, "";
    }
  }

  /** `ErrorPayload` */
  class ErrorPayload {
    var error: CStr
    var errorCode: ErrorCode
    var retryPossible: bool
    var component: ErrorComponent

    predicate Valid()
      reads this
    {
      Fits(error, MESSAGE_SIZE)
    }

    constructor ()
      ensures Valid() && error == "" && errorCode == ErrorCode.Unknown && !retryPossible && component == Device
    {
      error, errorCode, retryPossible, component := "", ErrorCode.Unknown, false, Device;
    }

    method Clear()
      modifies this
      ensures Valid() && error == "" && errorCode == ErrorCode.Unknown && !retryPossible && component == Device
    {
      error, errorCode, retryPossible, component := "", ErrorCode.Unknown, false, Device;
    }
  }

  /** `HeartbeatPayload` without its floating-point memory usage. */
  class HeartbeatPayload {
    var uptimeSeconds: nat
    var operationsCompleted: nat

    constructor ()
      ensures uptimeSeconds == 0 && operationsCompleted == 0
    {
      uptimeSeconds, operationsCompleted := 0, 0;
    }

    method Clear()
      modifies this
      ensures uptimeSeconds == 0 && operationsCompleted == 0
    {
      uptimeSeconds, operationsCompleted := 0, 0;
    }
  }

  /** `ReadSuccessPayload` */
  class ReadSuccessPayload {
    var tagUid: CStr
    var message: CStr

    predicate Valid()
      reads this
    {
      Fits(tagUid, TAG_UID_SIZE) && Fits(message, MESSAGE_SIZE)
    }

    constructor ()
      ensures Valid() && tagUid == "" && message == ""
    {
      tagUid, message := "", "";
    }

    method Clear()
      modifies this
      ensures Valid() && tagUid == "" && message == ""
    {
      tagUid, message := "", "";
    }
  }
}
