# Reader firmware: card secrets, MQTT command protocol and device state machine

This project models the core of an ESP32 NFC reader firmware in Dafny. The reader
personalises MIFARE DESFire cards for a backend service, and later authenticates them,
under commands it receives over MQTT. It has three layers.

- **Card layer** (`card_secrets.dfy`, `card.dfy`, over the driver model in `desfire.dfy`).
  - The secret derivation of `GenerateDesfireSecrets`: the seven UID bytes, with the
    24-byte name block XOR-folded into the first sixteen bytes of a 24-byte buffer, which
    is then enciphered into the application master key and the 16-byte StoreValue.
  - The card command sequences of card.cpp: `AuthenticatePICC`, `ChangePiccMasterKey`,
    `StoreDesfireSecret`, `CheckDesfireSecret`, `RestoreDesfireCard`, `ReadCard`,
    `WaitForCard`, `customize_card`, `authenticate_user` and `clear_kCard`. They run
    against an abstract DESFire card: PICC master key, applications with key 0, key
    settings and data files, and the selected/authenticated session. Every driver call
    may fail.
- **Protocol layer** (`mqtt_types.dfy`, `mqtt_schema.dfy`, `mqtt_serialization.dfy`, over
  the JSON map in `json.dfy`).
  - The enum wire names and their round trips.
  - The bounded payload records and their `clear()`.
  - The field validators, as scanning methods proved against predicates.
  - The command deserializers, the user-data helpers and the message envelope.
- **Device layer** (`device.dfy`). The global mode/state machine of main.cpp as the class
  `Firmware.Controller`:
  - every `handleCommand` branch;
  - `handleData`;
  - the 20-second buffer timeout;
  - the authentication, read and registration passes of `loop()`;
  - `hexStringToBinary`, `containsOnlyZeroes` and the `%02X:` UID formatting.

  Published MQTT messages are appended to an `outbox` sequence of events.

Fixed compile-time configuration: `USE_DESFIRE` on, `USE_AES` off (2K3DES/3K3DES keys),
`ALLOW_ALSO_CLASSIC` off.

## Modelling choices

- **Secrets and cipher.** The values of Secrets.h (PICC master key, application and
  StoreValue keys, application id, file id, key version) are fields of a `Secrets` record.
  3DES-CBC encipherment is the record's `encipher` function. It is only assumed to be
  length-preserving and injective under a fixed key. Secrets.h is not part of this
  model, and neither are PN532.h and Desfire.h.
- **Driver.** The PN532/DESFire driver is the class `DesfireDriver.Desfire`.
  - Each card command consumes one tick of a command counter (`clock`).
  - Link faults are a fixed map from ticks to PN532 error codes (`faults`).
  - Any failure drops the authentication.
  - `Reliable()` says that no fault lies ahead.
  - `MoveCard` is the environment putting the card into, or taking it out of, the RF field.

  The success guarantees of the card and device methods hold under `Reliable()`, and
  under `Steady()` (reliable, with the card in the field).
- **Time and serial input.** `millis()` is a parameter. `loop()` takes `now`, and
  `WaitForCard` takes a sequence of polls: card in field, elapsed milliseconds, serial
  byte. The last poll is past the 30-second wait, so the loop ends.
- **UID buffer.** A UID in the 8-byte buffer is zero-padded (`PadUid`).
- **C strings.** A C string is its text up to the NUL (`CStr`). `strlcpy` truncates to
  the buffer size minus one.
- **Behaviours the contracts make explicit.**
  - `AUTH_VERIFY` sets the state to WAITING_FOR_USER_BUFFER in every mode. In READ or
    REGISTER mode this stalls that mode's card pass until the 20-second timeout
    (`Firmware.Controller.VerifyAuth`, `Firmware.Controller.Loop`).
  - `AUTH_CANCEL`/`REGISTER_CANCEL` in READ mode keep `read_request_id`.
  - A `register_start` tag UID with a lower-case hex digit, or of a length other than 23
    characters, passes `isValidTagUID` but can never equal the printed UID
    (`Firmware.UnprintableUidNeverMatches`). Such a registration can never complete.
  - The name block derived at registration (from `register_state.tag_uid`) and at
    authentication (from the printed UID) coincide. A registered card is therefore
    accepted and returns its key (`Firmware.RegisteredCardAuthenticates`).
  - Two names whose first eight bytes XOR their last eight bytes alike fold to the same
    derivation buffer (`CardSecrets.FoldedNamesCollide`).
    Name blocks that differ in a single byte never collide: their keys and StoreValues differ
    (`CardSecrets.OneByteNameChangesSecrets`), so the check refuses such a name (`CardSecrets.CheckRejectsOtherName`).

## Model

| member | source | states |
|---|---|---|
| CardSecrets.DerivationSeedClosedForm | 230623-133359-az-delivery-devkit-v4/src/card.cpp:361-374 | buffer bytes 16..23 are zero; byte j < 8 is UID byte j (zero past the seventh) XOR name[j] XOR name[16+j]; byte 8 ≤ j < 16 is UID byte XOR name[j] |
| CardSecrets.DerivationSeed | 230623-133359-az-delivery-devkit-v4/src/card.cpp:361-374 | the derivation buffer after all 24 passes of the loop: 24 bytes, the last eight zero. Its closed form is `CardSecrets.DerivationSeedClosedForm` |
| CardSecrets.Fold | 230623-133359-az-delivery-devkit-v4/src/card.cpp:364-374 | `u8_Data` after the first n passes of the loop: the seven UID bytes over a zero buffer, then name byte k XORed into byte k mod 16. Its contract: 24 bytes, of which bytes 16..23 stay zero, since the index wraps at 16. Its closed form is `CardSecrets.FoldClosedForm` |
| CardSecrets.FoldClosedForm | 230623-133359-az-delivery-devkit-v4/src/card.cpp:367-374 | after n passes of the wrapping XOR loop, every buffer byte equals its closed form |
| CardSecrets.PartialSeedStep | 230623-133359-az-delivery-devkit-v4/src/card.cpp:370-372 | one pass changes only byte n mod 16, by XOR with name byte n |
| CardSecrets.CyclicStep | 230623-133359-az-delivery-devkit-v4/src/card.cpp:371-372 | the buffer index `B++`, reset to 0 past 15, tracks n mod 16 |
| CardSecrets.GenerateDesfireSecrets | 230623-133359-az-delivery-devkit-v4/src/card.cpp:358-392 | succeeds exactly when both secret keys have a valid size; the application key is the encipherment of all 24 buffer bytes, the StoreValue that of the first 16 |
| CardSecrets.NewSeedBuffer | 230623-133359-az-delivery-devkit-v4/src/card.cpp:361-364 | a fresh zeroed 24-byte buffer holding the seven UID bytes at its head |
| CardSecrets.FoldNameInto | 230623-133359-az-delivery-devkit-v4/src/card.cpp:366-374 | the loop leaves exactly the derivation buffer of the UID and the name |
| CardSecrets.AppKeyFor | 230623-133359-az-delivery-devkit-v4/src/card.cpp:376-389 | the derived key carries `CARD_KEY_VERSION`, 24 bytes, 3K3DES |
| CardSecrets.StoreValueFor | 230623-133359-az-delivery-devkit-v4/src/card.cpp:384-386 | the StoreValue is sixteen bytes |
| CardSecrets.SeedIgnoresUidTail | 230623-133359-az-delivery-devkit-v4/src/card.cpp:364 | only the first seven UID bytes enter the derivation |
| CardSecrets.FoldIgnoresUidTail | 230623-133359-az-delivery-devkit-v4/src/card.cpp:364-374 | every stage of the fold depends on the first seven UID bytes only |
| CardSecrets.SeedByte | 230623-133359-az-delivery-devkit-v4/src/card.cpp:366-374 | each byte of the final buffer is its closed form after all 24 passes |
| CardSecrets.DistinctCardsDistinctSecrets | 230623-133359-az-delivery-devkit-v4/src/card.cpp:358-392 | cards whose first seven UID bytes differ get different application keys and different StoreValues for the same name |
| CardSecrets.FoldedNamesCollide | 230623-133359-az-delivery-devkit-v4/src/card.cpp:366-374 | names agreeing on bytes 8..15 and on name[j] XOR name[16+j] for j < 8 give the same buffer |
| CardSecrets.FoldedNameByte | 230623-133359-az-delivery-devkit-v4/src/card.cpp:366-374 | the per-byte form of the collision: under those conditions buffer byte j agrees |
| CardSecrets.CheckedKey | 230623-133359-az-delivery-devkit-v4/src/card.cpp:429 | the key `CheckDesfireSecret` returns is the 16 file bytes after the StoreValue |
| CardSecrets.StoreThenCheck | 230623-133359-az-delivery-devkit-v4/src/card.cpp:396-433 | a card personalised by `StoreDesfireSecret` with a PICC key of version `CARD_KEY_VERSION` passes `CheckDesfireSecret` for the same UID and name, which returns exactly the stored key |
| CardSecrets.CheckRejectsOtherCard | 230623-133359-az-delivery-devkit-v4/src/card.cpp:414-427 | a card personalised for one UID fails the check for a UID differing in its first seven bytes |
| CardSecrets.OneByteNameChangesSecrets | 230623-133359-az-delivery-devkit-v4/src/card.cpp:361-391 | two name blocks differing in exactly one byte give different application keys and different StoreValues, because that byte alone changes buffer byte i mod 16 |
| CardSecrets.OneByteNameChangesSeedByte | 230623-133359-az-delivery-devkit-v4/src/card.cpp:366-374 | two name blocks differing only at byte i fold to buffers that differ at byte i mod 16 |
| CardSecrets.CheckRejectsOtherName | 230623-133359-az-delivery-devkit-v4/src/card.cpp:396-427 | a card personalised for one name block fails the check for a name block differing from it in one byte |
| CardSecrets.PersonalizedIdempotent | 230623-133359-az-delivery-devkit-v4/src/card.cpp:469-516 | the card state after a second personalisation with the same inputs is the state after the first; the step `Card.CardReader.CustomizeCardTwice` uses for its second run |
| Card.KCard.Clear | 230623-133359-az-delivery-devkit-v4/src/card.cpp:25-31 | UID length and key version zero, no PN532 error, card type unknown |
| Card.KCard.constructor | 230623-133359-az-delivery-devkit-v4/src/card.cpp:162 | a new `kCard` starts cleared |
| Card.NameBlock | 230623-133359-az-delivery-devkit-v4/src/card.cpp:161-174 | the zeroed 24-byte name with the user buffer copied over its head |
| Card.UserId | 230623-133359-az-delivery-devkit-v4/src/card.cpp:250-252 | the zeroed `kUser::ID` holding the first seven UID bytes |
| Card.CardReader.constructor | 230623-133359-az-delivery-devkit-v4/src/card.cpp:6-16 | the card.cpp globals: the reader `gi_PN532`, the secrets, and `gu64_LastID` zero-initialised |
| Card.CardReader.AuthenticatePicc | 230623-133359-az-delivery-devkit-v4/src/card.cpp:333-353 | selects the PICC level, reads the key version and authenticates with the secret PICC key when the version is `CARD_KEY_VERSION`, else with the DES2 default key; reports the observed version; succeeds on a reliable link when that key is the card's |
| Card.CardReader.ChangePiccMasterKey | 230623-133359-az-delivery-devkit-v4/src/card.cpp:436-453 | a card already at `CARD_KEY_VERSION` is left as it is; otherwise only the PICC master key may change, to the secret key; success means the secret key is in place and authenticated |
| Card.CardReader.StoreDesfireSecret | 230623-133359-az-delivery-devkit-v4/src/card.cpp:459-519 | aborts before any card command when the application id or key version is 0 or the keys are unusable; success leaves the card personalised and nothing outside the application changed; succeeds on a reliable link after PICC authentication; a reliable link stays reliable |
| Card.CardReader.CreateSecretApplication | 230623-133359-az-delivery-devkit-v4/src/card.cpp:469-496 | delete, create, select, authenticate with the default key, change key 0, re-authenticate and freeze; success leaves the new empty application with the derived key, its settings frozen |
| Card.CardReader.WriteSecretFile | 230623-133359-az-delivery-devkit-v4/src/card.cpp:501-516 | success leaves a key-0-only file holding the StoreValue followed by the key; a reliable link stays reliable |
| Card.SecretFileContents | 230623-133359-az-delivery-devkit-v4/src/card.cpp:511-516 | the two writes at offsets 0 and 16 fill the 32-byte file with StoreValue then key |
| Card.CardReader.CheckDesfireSecret | 230623-133359-az-delivery-devkit-v4/src/card.cpp:396-433 | succeeds only when the PICC key version is `CARD_KEY_VERSION`, the derived key opens the application and the file starts with the StoreValue, and then returns the file's key; on a reliable link it succeeds whenever those hold; the card is never changed |
| Card.CardReader.IsDesfireTimeout | 230623-133359-az-delivery-devkit-v4/src/card.cpp:85-100 | the last PN532 error is the timeout code 0x01, which is never the success code 0, so a successful `ReadCard` never reads as a timeout; it picks the NFC_TIMEOUT reports of the card passes |
| Card.CardReader.ReadCard | 230623-133359-az-delivery-devkit-v4/src/card.cpp:54-81 | a PN532 error is flagged exactly when the read fails on the link; a card in the field gives its padded UID, length and type; a random-ID card also needs PICC authentication and the real UID; with no card and no PN532 error the read succeeds with length 0; a successful read never reads as a timeout |
| Card.CardReader.WaitForCard | 230623-133359-az-delivery-devkit-v4/src/card.cpp:216-245 | polls until a card answers (stored as the last id), the 30 s wait is over or ESC arrives; on a reliable link a card in the field at the first poll is found |
| Card.CardReader.RestoreDesfireCard | 230623-133359-az-delivery-devkit-v4/src/card.cpp:524-565 | a non-DESFire card fails untouched; a card at key version 0 is left alone and, on a reliable link when the PICC accepts its key, reported restored; otherwise the application is deleted (`deleted`) and the DES2 default key put back; once the key change and the check authentication succeed (`keyRestored`) the key is the default and the result is exactly the outcome of the deletion; a success at a non-zero version implies both; on a reliable link with the secret PICC key it succeeds with exactly that card |
| Card.CardReader.CustomizeCard | 230623-133359-az-delivery-devkit-v4/src/card.cpp:158-211 | waits for a card, rejects non-DESFire cards, installs the secret PICC master key and, for a non-random-ID card, personalises it with the name block and key; returns the card's UID; succeeds on a reliable link when the card is present and accepts the PICC keys; a reliable link stays reliable; whatever the outcome, the PICC master key is the old one or the secret one, and no other application changes |
| Card.CardReader.PersonalizeFoundCard | 230623-133359-az-delivery-devkit-v4/src/card.cpp:184-198 | the DESFire branch of `customize_card`: the secret PICC key and, except for random-ID cards, the personalised application; a reliable link stays reliable; on failure too, the PICC master key is the old one or the secret one |
| Card.CardReader.CustomizeCardTwice | 230623-133359-az-delivery-devkit-v4/src/card.cpp:158-211 | provisioning is repeatable: two `customize_card` runs on the same card over a reliable link both succeed, and the card ends as after the first run (secret PICC key, and the personalised application for a non-random-ID card) |
| Card.CardReader.AuthenticateUser | 230623-133359-az-delivery-devkit-v4/src/card.cpp:248-325 | a non-DESFire card is rejected; a random-ID card is accepted iff its key version is `CARD_KEY_VERSION`; a default DESFire card is accepted iff `CheckDesfireSecret` accepts it, returning the stored key; success records the UID as the last id |
| DesfireDriver.PadUid | 230623-133359-az-delivery-devkit-v4/src/card.cpp:54-74 | the UID in the zero-filled 8-byte buffer |
| DesfireDriver.PresentedUid | 230623-133359-az-delivery-devkit-v4/src/card.cpp:58-74 | a 4-byte random id for random-ID cards, the 7-byte UID otherwise |
| DesfireDriver.DefaultKey | 230623-133359-az-delivery-devkit-v4/src/card.cpp:482 | the all-zero key of version 0 a new application starts with |
| DesfireDriver.Desfire.MoveCard | 230623-133359-az-delivery-devkit-v4/src/card.cpp:218-244 | the card enters or leaves the field between polls; leaving or entering ends the session |
| DesfireDriver.Desfire.ReadPassiveTargetID | 230623-133359-az-delivery-devkit-v4/src/card.cpp:58 | fails exactly on a link fault; otherwise reports the presented UID, its length and the card type, or nothing when no card is in the field |
| DesfireDriver.Desfire.GetRealCardID | 230623-133359-az-delivery-devkit-v4/src/card.cpp:71 | the 7-byte real UID, only after PICC authentication |
| DesfireDriver.Desfire.SelectApplication | 230623-133359-az-delivery-devkit-v4/src/card.cpp:335 | selects the PICC level or an existing application and ends any authentication |
| DesfireDriver.Desfire.GetKeyVersion | 230623-133359-az-delivery-devkit-v4/src/card.cpp:338 | the version of key 0 of the selected level |
| DesfireDriver.Desfire.Authenticate | 230623-133359-az-delivery-devkit-v4/src/card.cpp:344 | succeeds iff the key is key 0 of the selected level |
| DesfireDriver.Desfire.ChangeKey | 230623-133359-az-delivery-devkit-v4/src/card.cpp:445 | replaces key 0 of the selected level when authenticated and not frozen; always ends the authentication |
| DesfireDriver.Desfire.DeleteApplicationIfExists | 230623-133359-az-delivery-devkit-v4/src/card.cpp:470 | removes the application at the PICC level; an existing one needs authentication |
| DesfireDriver.Desfire.CreateApplication | 230623-133359-az-delivery-devkit-v4/src/card.cpp:474 | a new empty application with the default key of the type, factory settings |
| DesfireDriver.Desfire.ChangeKeySettings | 230623-133359-az-delivery-devkit-v4/src/card.cpp:496 | freezes the selected application's key settings |
| DesfireDriver.Desfire.CreateStdDataFile | 230623-133359-az-delivery-devkit-v4/src/card.cpp:507 | a new zeroed file of the given size and permissions |
| DesfireDriver.Desfire.WriteFileData | 230623-133359-az-delivery-devkit-v4/src/card.cpp:511 | writes the bytes at an offset within the file when access allows |
| DesfireDriver.Desfire.ReadFileData | 230623-133359-az-delivery-devkit-v4/src/card.cpp:422 | returns the bytes at an offset within the file when access allows |
| DesfireDriver.CopyPrefix | 230623-133359-az-delivery-devkit-v4/src/card.cpp:429 | the bytes read from the card land at the head of the caller's buffer (`key_ret`, the UID buffer) and the rest of the buffer keeps its bytes |
| Common.CString | src/mqtt_serialization.cpp:96-97 | the C string `strlcpy` reads: a prefix of the text that ends at the first NUL, or the whole text when it has none |
| Common.Strlcpy | src/mqtt_serialization.cpp:96-97 | at most size-1 characters of the C string, a prefix of it |
| Common.StrlcpyKeepsFittingString | src/mqtt_serialization.cpp:96-97 | a string that fits the buffer is copied unchanged |
| Common.UpperHexDigit | src/main.cpp:243-245 | the `%X` digit of a value below 16 reads back as that value and is not lower case |
| MqttTypes.StringToCommandType | src/mqtt_types.cpp:18-28 | a known command exactly when the string is its wire name; anything else is UNKNOWN |
| MqttTypes.CommandTypeToString | src/mqtt_types.cpp:4-16 | every wire name is a small letter followed by small letters, digits and `_`; distinct values get distinct names, by `MqttTypes.CommandTypeRoundTrip` |
| MqttTypes.CommandTypeRoundTrip | src/mqtt_types.cpp:4-28 | string to command after command to string is the identity, UNKNOWN included |
| MqttTypes.StringToEventType | src/mqtt_types.cpp:48-61 | a known event exactly when the string is its wire name; anything else is UNKNOWN |
| MqttTypes.EventTypeToString | src/mqtt_types.cpp:31-46 | every wire name is a small letter followed by small letters, digits and `_`; distinct values get distinct names, by `MqttTypes.EventTypeRoundTrip` |
| MqttTypes.EventTypeRoundTrip | src/mqtt_types.cpp:31-61 | the event codec round-trips on every value |
| MqttTypes.StringToDeviceMode | src/mqtt_types.cpp:75-82 | a known mode exactly when the string is its wire name; anything else is UNKNOWN |
| MqttTypes.DeviceModeToString | src/mqtt_types.cpp:64-73 | every wire name is a small letter followed by small letters, digits and `_`; distinct values get distinct names, by `MqttTypes.DeviceModeRoundTrip` |
| MqttTypes.DeviceModeRoundTrip | src/mqtt_types.cpp:64-82 | the mode codec round-trips on every value |
| MqttTypes.StringToDeviceStatus | src/mqtt_types.cpp:93-97 | ONLINE exactly for "online"; every other string is OFFLINE |
| MqttTypes.DeviceStatusToString | src/mqtt_types.cpp:85-91 | every wire name is a small letter followed by small letters, digits and `_`; distinct values get distinct names, by `MqttTypes.DeviceStatusRoundTrip` |
| MqttTypes.DeviceStatusRoundTrip | src/mqtt_types.cpp:85-97 | the status codec round-trips on both values |
| MqttTypes.StringToErrorCode | src/mqtt_types.cpp:118-132 | a known code exactly when the string is its wire name; anything else is UNKNOWN |
| MqttTypes.ErrorCodeToString | src/mqtt_types.cpp:100-116 | every wire name is non-empty and made of capitals and `_`; distinct values get distinct names, by `MqttTypes.ErrorCodeRoundTrip` |
| MqttTypes.ErrorCodeRoundTrip | src/mqtt_types.cpp:100-132 | the error-code codec round-trips on every value, UNKNOWN included |
| MqttTypes.StringToErrorComponent | src/mqtt_types.cpp:146-153 | a known component exactly when the string is its wire name; anything else is DEVICE |
| MqttTypes.ErrorComponentToString | src/mqtt_types.cpp:135-144 | every wire name is a small letter followed by small letters, digits and `_`; distinct values get distinct names, by `MqttTypes.ErrorComponentRoundTrip` |
| MqttTypes.ErrorComponentRoundTrip | src/mqtt_types.cpp:135-153 | the component codec round-trips on all five values |
| MqttTypes.WireNameExamples | test/test_mqtt_serialization/test_mqtt_serialization.cpp:186-202 | the pinned wire names ("NFC_TIMEOUT", "nfc", "auth", "idle", "online") and case-sensitive matching |
| MqttSchema.MessageEnvelope.constructor | include/mqtt_schema.h:10-17 | the struct has no constructor; the model starts it with empty fields and an empty payload, and every field is written before use |
| MqttSchema.UserData.Clear | include/mqtt_schema.h:24-27 | username and context empty |
| MqttSchema.UserData.constructor | include/mqtt_schema.h:20-28 | the struct declaration followed by the `clear()` its deserializer calls first (mqtt_serialization.cpp line 256): the record starts cleared |
| MqttSchema.RegisterStartPayload.Clear | include/mqtt_schema.h:38-42 | tag UID and key empty, timeout 0 |
| MqttSchema.RegisterStartPayload.constructor | include/mqtt_schema.h:33-43 | the struct declaration followed by the `clear()` its deserializer calls first (mqtt_serialization.cpp line 89): the record starts cleared |
| MqttSchema.AuthStartPayload.Clear | include/mqtt_schema.h:49-51 | timeout 0 |
| MqttSchema.AuthStartPayload.constructor | include/mqtt_schema.h:46-52 | the struct declaration followed by the `clear()` its deserializer calls first (mqtt_serialization.cpp line 111): the record starts cleared |
| MqttSchema.AuthVerifyPayload.Clear | include/mqtt_schema.h:60-64 | tag UID and key empty and the nested user data cleared |
| MqttSchema.AuthVerifyPayload.constructor | include/mqtt_schema.h:55-65 | the struct declaration followed by the `clear()` its deserializer calls first (mqtt_serialization.cpp line 128): the record starts cleared |
| MqttSchema.ReadStartPayload.Clear | include/mqtt_schema.h:71-73 | timeout 0 |
| MqttSchema.ReadStartPayload.constructor | include/mqtt_schema.h:68-74 | the struct declaration followed by the `clear()` its deserializer calls first (mqtt_serialization.cpp line 153): the record starts cleared |
| MqttSchema.StatusChangePayload.Clear | include/mqtt_schema.h:84-88 | OFFLINE with empty firmware version and IP address |
| MqttSchema.StatusChangePayload.constructor | include/mqtt_schema.h:79-89 | the struct has no constructor and the firmware declares it, then sets the fields it sends; the model starts it as `clear()` leaves it |
| MqttSchema.ModeChangePayload.Clear | include/mqtt_schema.h:96-99 | both modes IDLE |
| MqttSchema.ModeChangePayload.constructor | include/mqtt_schema.h:92-100 | the struct has no constructor and the firmware declares it, then sets the fields it sends; the model starts it as `clear()` leaves it |
| MqttSchema.TagDetectedPayload.Clear | include/mqtt_schema.h:107-110 | tag UID and message empty |
| MqttSchema.TagDetectedPayload.constructor | include/mqtt_schema.h:103-111 | the struct has no constructor and the firmware declares it, then sets the fields it sends; the model starts it as `clear()` leaves it |
| MqttSchema.RegisterSuccessPayload.Clear | include/mqtt_schema.h:119-123 | tag UID and message empty, no blocks written |
| MqttSchema.RegisterSuccessPayload.constructor | include/mqtt_schema.h:114-124 | the struct has no constructor and the firmware declares it, then sets the fields it sends; the model starts it as `clear()` leaves it |
| MqttSchema.AuthSuccessPayload.Clear | include/mqtt_schema.h:133-138 | tag UID and message empty, not authenticated, nested user data cleared |
| MqttSchema.AuthSuccessPayload.constructor | include/mqtt_schema.h:127-139 | the struct has no constructor and the firmware declares it, then sets the fields it sends; the model starts it as `clear()` leaves it |
| MqttSchema.AuthFailedPayload.Clear | include/mqtt_schema.h:147-151 | tag UID and reason empty, not authenticated |
| MqttSchema.AuthFailedPayload.constructor | include/mqtt_schema.h:142-152 | the struct has no constructor and the firmware declares it, then sets the fields it sends; the model starts it as `clear()` leaves it |
| MqttSchema.ErrorPayload.Clear | include/mqtt_schema.h:161-166 | error empty, code UNKNOWN, no retry, component DEVICE |
| MqttSchema.ErrorPayload.constructor | include/mqtt_schema.h:155-167 | the struct has no constructor and the firmware declares it, then sets the fields it sends; the model starts it as `clear()` leaves it |
| MqttSchema.HeartbeatPayload.Clear | include/mqtt_schema.h:175-179 | uptime and operation count 0 |
| MqttSchema.HeartbeatPayload.constructor | include/mqtt_schema.h:170-180 | the struct has no constructor and the firmware declares it, then sets the fields it sends; the model starts it as `clear()` leaves it |
| MqttSchema.ReadSuccessPayload.Clear | include/mqtt_schema.h:187-190 | tag UID and message empty |
| MqttSchema.ReadSuccessPayload.constructor | include/mqtt_schema.h:183-191 | the struct has no constructor and the firmware declares it, then sets the fields it sends; the model starts it as `clear()` leaves it |
| MqttSerialization.IsValidTagUid | src/mqtt_serialization.cpp:269-284 | true iff non-empty, holding a colon, and every character a hex digit or colon |
| MqttSerialization.IsValidHexKey | src/mqtt_serialization.cpp:287-298 | true iff exactly 32 characters, all hex digits |
| MqttSerialization.IsValidUuid | src/mqtt_serialization.cpp:301-320 | true iff 36 characters, hyphens at 8, 13, 18 and 23 and hex digits elsewhere |
| MqttSerialization.IsValidDeviceId | src/mqtt_serialization.cpp:323-336 | true iff 1 to 64 characters, each alphanumeric, underscore or hyphen |
| MqttSerialization.TagUidExamples | test/test_mqtt_serialization/test_mqtt_serialization.cpp:146-152 | the tag UIDs the tests accept and reject |
| MqttSerialization.HexKeyExamples | test/test_mqtt_serialization/test_mqtt_serialization.cpp:155-161 | the keys the tests accept and reject |
| MqttSerialization.UuidExamples | test/test_mqtt_serialization/test_mqtt_serialization.cpp:164-169 | the UUIDs the tests accept and reject |
| MqttSerialization.DeviceIdExamples | test/test_mqtt_serialization/test_mqtt_serialization.cpp:172-177 | the device ids the tests accept and reject |
| MqttSerialization.FieldText | src/mqtt_serialization.cpp:96-97 | `strlcpy(dst, obj[key] \| "", size)`: the string member truncated to the buffer, empty when absent or not a string |
| MqttSerialization.FieldTextOfFittingString | src/mqtt_serialization.cpp:96-97 | a fitting string member is read back unchanged |
| MqttSerialization.DeserializeUserData | src/mqtt_serialization.cpp:255-266 | never fails; absent members leave the fields empty; present ones are copied truncated |
| MqttSerialization.SerializeUserData | src/mqtt_serialization.cpp:244-252 | writes username and context only when non-empty and leaves every other member as it was |
| MqttSerialization.UserDataRoundTrip | src/mqtt_serialization.cpp:244-266 | deserializing serialized user data gives it back |
| MqttSerialization.RegisterStartOf | src/mqtt_serialization.cpp:88-107 | accepted iff all three members are present and the truncated tag UID and key validate and 1 ≤ timeout ≤ 300; a missing member gives the cleared record |
| MqttSerialization.DeserializeRegisterStart | src/mqtt_serialization.cpp:88-107 | its verdict and fields are those of `RegisterStartOf` |
| MqttSerialization.RegisterStartAcceptsFittingMembers | src/mqtt_serialization.cpp:88-107 | fitting members are read as given, and accepted iff they validate |
| MqttSerialization.RegisterStartTruncatesLongKey | src/mqtt_serialization.cpp:96-102 | a key longer than 32 characters whose first 32 are hex is accepted truncated, since validation follows `strlcpy` |
| SerializationExamples.SampleFieldsValid | test/test_mqtt_serialization/test_mqtt_serialization.cpp:80-84 | the test's sample tag UID and key validate |
| SerializationExamples.RegisterStartAcceptedExample | test/test_mqtt_serialization/test_mqtt_serialization.cpp:78-98 | the test's register_start is accepted with its fields |
| SerializationExamples.RegisterStartShortKeyExample | test/test_mqtt_serialization/test_mqtt_serialization.cpp:256-268 | a 16-character key is rejected |
| MqttSerialization.TimeoutOf | src/mqtt_serialization.cpp:117 | `payload["timeout_seconds"] \| 0` as a 32-bit int |
| MqttSerialization.TimeoutAcceptedIff | src/mqtt_serialization.cpp:110-124 | accepted iff `timeout_seconds` is present and 1 ≤ t ≤ 300 |
| MqttSerialization.TimeoutExamples | test/test_mqtt_serialization/test_mqtt_serialization.cpp:236-254 | 45 accepted; 500, 0 and a missing timeout rejected |
| MqttSerialization.DeserializeAuthStart | src/mqtt_serialization.cpp:110-124 | succeeds iff the timeout is accepted, and keeps the timeout read |
| MqttSerialization.DeserializeReadStart | src/mqtt_serialization.cpp:152-166 | succeeds iff the timeout is accepted, and keeps the timeout read |
| MqttSerialization.AuthVerifyOf | src/mqtt_serialization.cpp:127-149 | accepted iff tag_uid, key and user_data are present and the truncated tag UID and key validate |
| MqttSerialization.DeserializeAuthVerify | src/mqtt_serialization.cpp:127-149 | its verdict and fields are those of `AuthVerifyOf` |
| MqttSerialization.AuthVerifyReadsSerializedUserData | src/mqtt_serialization.cpp:127-149 | an auth_verify carrying serialized user data is accepted and gives the user data back |
| MqttSerialization.EnvelopeOf | src/mqtt_serialization.cpp:60-85 | an envelope exactly when the document is an object with all six members; its fields fit their buffers |
| MqttSerialization.DeserializeEnvelope | src/mqtt_serialization.cpp:60-85 | succeeds iff `EnvelopeOf` gives an envelope, filling in its fields; on failure the record is untouched |
| MqttSerialization.SerializeEnvelope | src/mqtt_serialization.cpp:43-57 | writes the five string fields and an empty payload object |
| MqttSerialization.EnvelopeRoundTrip | test/test_mqtt_serialization/test_mqtt_serialization.cpp:14-43 | serializing then deserializing preserves the five string fields |
| MqttSerialization.EnvelopeRejectsMissingMember | src/mqtt_serialization.cpp:69-74 | a document missing any of the six members is rejected |
| Firmware.HexPair | src/main.cpp:243-245 | `%02X` of a byte: two upper-case digits reading back as the byte |
| Firmware.HexPairInjective | src/main.cpp:243-245 | different bytes print differently |
| Firmware.ColonHex | src/main.cpp:243-245 | two digits per byte separated by colons, 3n-1 characters |
| Firmware.ColonHexLayout | src/main.cpp:243-245 | byte k sits at offset 3k, followed by a colon unless last |
| Firmware.ColonHexChars | src/main.cpp:243-245 | only colons and upper-case hex digits are printed |
| Firmware.FormatUid | src/main.cpp:243-245 | the printed UID is 23 characters and fits `MAX_TAG_UID_LENGTH` |
| Firmware.FormatUidIsTagUid | src/main.cpp:243-245 | the printed UID passes `isValidTagUID` and fits the tag UID buffer |
| Firmware.FormatUidInjective | src/main.cpp:458 | equal printed UIDs mean equal UID bytes, so the string comparison compares the cards |
| Firmware.UnprintableUidNeverMatches | src/main.cpp:458 | a tag UID with a lower-case digit, or of a length other than 23, never equals a printed UID |
| Firmware.RegisteredCardAuthenticates | src/main.cpp:470 | a card registered for its printed UID passes `authenticate_user` with the printed UID as user buffer and returns the registered key |
| Firmware.HexOf | src/main.cpp:702 | the upper-case hex text of a byte string, two digits per byte |
| Firmware.HexOfLayout | src/main.cpp:702 | byte k's two digits sit at offset 2k |
| Firmware.HexOfIsValidKey | src/mqtt_serialization.cpp:287-298 | the hex text of sixteen bytes is a key `isValidHexKey` accepts |
| Firmware.ScanHex | src/main.cpp:99-103 | one `%2hhx` scan per output byte, a byte without a digit keeping its value |
| Firmware.ScanHexByte | src/main.cpp:99-103 | one `%2hhx` scan: a byte whose position holds no hex digit keeps its earlier value |
| Firmware.HexStringToBinary | src/main.cpp:99-103 | the buffer ends as `ScanHex` of the text over its old contents |
| Firmware.DecodeKey | src/main.cpp:813 | the bytes `hexStringToBinary` leaves in a 16-byte key buffer |
| Firmware.ScanHexOfHex | src/main.cpp:99-103 | decoding the hex text of bytes gives the bytes back, whatever the buffer held |
| Firmware.ScanValidKeyIgnoresPrior | src/main.cpp:702 | a validated 32-digit key overwrites all sixteen bytes |
| Firmware.ContainsOnlyZeroes | src/main.cpp:981-991 | true iff every character is '0', the empty string included |
| Firmware.Int32Of | src/main.cpp:257 | the unsigned `millis()` stored in the `int` stamp, congruent to it modulo 2^32 |
| Firmware.Elapsed | src/main.cpp:212 | the unsigned difference `millis() - last_state_change`, below 2^32 |
| Firmware.ElapsedSinceStamp | src/main.cpp:212 | the measured time since a stamp is the true difference modulo 2^32, exact without wrap |
| Firmware.BufferTimesOut | src/main.cpp:212-218 | a device waiting for the user buffer gives up exactly when more than 20000 ms have passed since the stamp; one waiting for a card stays |
| Firmware.NfcErrorCode | src/main.cpp:268-319 | a failed card read is reported as NFC_TIMEOUT when the PN532 timed out, else as NFC_DEVICE_ERROR on a PN532 failure, else with the mode's own code (authentication failed, read error) |
| Firmware.CancelledMode | src/main.cpp:729-746 | the reported previous mode is IDLE exactly when no session was open |
| Firmware.ResetMode | src/main.cpp:770-779 | RESET reports UNKNOWN exactly from NONE, else the session's mode |
| Firmware.Controller.constructor | src/main.cpp:47-96 | the zero-initialised globals: idle, waiting for a card, cleared states |
| Firmware.Controller.StartAuth | src/main.cpp:654-681 | an accepted AUTH_START enters AUTHENTICATE waiting for a card with a cleared session holding the request id and publishes the mode change; a rejected one changes nothing |
| Firmware.Controller.StartRegister | src/main.cpp:683-719 | an accepted REGISTER_START enters REGISTER with a fresh session holding the request id, tag UID, key and key bytes and publishes the mode change; a rejected one changes nothing |
| Firmware.Controller.CancelSession | src/main.cpp:721-760 | publishes the mode left under the session's own request id (the cancel's when idle), clears an auth or register session and goes idle waiting for a card |
| Firmware.Controller.ResetDevice | src/main.cpp:762-803 | publishes the mode left and the offline status under the command's request id and clears every session |
| Firmware.Controller.StartRead | src/main.cpp:830-855 | an accepted READ_START enters READ with the request id stored and publishes the mode change; a rejected one changes nothing |
| Firmware.Controller.CancelRead | src/main.cpp:857-872 | publishes READ left, in any mode, clears the read request id and goes idle |
| Firmware.Controller.VerifyAuth | src/main.cpp:805-828 | an accepted AUTH_VERIFY records key, key bytes and user data, clears the encryption data and waits for the user buffer in any mode; a rejected one changes nothing. In AUTHENTICATE mode the session concludes with exactly two events, and the verdict is that of `handleData`: a non-DESFire card is refused; a random-ID card is accepted iff its key version is the secrets' version; a DESFire card is accepted only when `CheckAccepts` holds for the session's UID and printed-UID name block, and on a steady link whenever it holds |
| Firmware.Controller.RecordVerify | src/main.cpp:811-821 | the fields AUTH_VERIFY copies into `auth_state` |
| Firmware.Controller.HandleData | src/main.cpp:890-979 | only in AUTHENTICATE waiting for the user buffer: the verdict and the return to idle are published, the session cleared; a non-DESFire card is refused, a random-ID card accepted iff its key version is `CARD_KEY_VERSION`, a DESFire card accepted only if its secret checks, and on a steady link whenever it does |
| Firmware.Controller.HandleCommand | src/main.cpp:638-878 | an unparsable or unknown command changes nothing; for each command type the whole new state and the events published are those of its handler: a rejected AUTH_START, READ_START, REGISTER_START or AUTH_VERIFY changes nothing; an accepted start enters its mode with its request id, and for REGISTER_START also the UID, key and key bytes; a cancel or RESET publishes the mode change and ends idle; AUTH_VERIFY records the key and user data and, in AUTHENTICATE mode, concludes with `handleData`'s verdict conditions (non-DESFire refused, random-ID by key version, DESFire by `CheckAccepts`) |
| Firmware.Controller.CheckBufferTimeout | src/main.cpp:212-218 | the state after the 20-second buffer timeout |
| Firmware.Controller.AuthPass | src/main.cpp:226-322 | a card read is stored as the session's UID and reported, and the device waits for the user buffer from now on; a PN532 error, and any failed read of a card in the field (a random-ID card whose PICC refuses authentication among them), publishes exactly one auth error (NFC_TIMEOUT, NFC_DEVICE_ERROR or NFC_AUTH_FAILED) and changes nothing else; with no card and no PN532 error nothing changes; on a steady link the card is detected |
| Firmware.Controller.ReadPass | src/main.cpp:325-432 | a card read is reported with its printed UID, the return to idle published and the read session closed; a PN532 error, and any failed read of a card in the field (a random-ID card whose PICC refuses authentication among them), publishes exactly one read error (NFC_TIMEOUT, NFC_DEVICE_ERROR or NFC_READ_ERROR) and changes nothing else; with no card and no PN532 error nothing changes; on a steady link the read succeeds |
| Firmware.Controller.ConcludeRead | src/main.cpp:350-368 | the read success and the mode change published, idle, read request id cleared |
| Firmware.Controller.RegisterPass | src/main.cpp:435-594 | the card is personalised only when its printed UID equals the session's tag UID. A failed `ReadCard` publishes exactly one register error (NFC_TIMEOUT, NFC_DEVICE_ERROR or NFC_READ_ERROR) and changes nothing else; the read fails on a PN532 error and succeeds with no card or on a reliable link with an accepting card. A successful read: with no card nothing changes; the wrong card publishes NFC_UNSUPPORTED_TAG and changes nothing else; the expected card either registers (success with one block written, the return to idle, session cleared) or publishes NFC_WRITE_ERROR with its UID stored. With a card in the field exactly one event is published unless it registers. On a steady link an expected card that accepts the keys is registered. Whatever the outcome, the PICC master key ends as the old one or the secret one |
| Firmware.Controller.RegisterExpectedCard | src/main.cpp:461-516 | the expected card's UID is stored and the card personalised; success closes the session, failure reports NFC_WRITE_ERROR; no PN532 error is flagged that the read had not flagged, and the recorded read outcome is kept; even after a failed write the PICC master key is the old one or the secret one |
| Firmware.Controller.CustomizeExpectedCard | src/main.cpp:470 | the `customize_card` call on the session's tag UID and key bytes: personalised for that name block and key when written; either way the PICC master key is the old one or the secret one, and no other application changes |
| Firmware.Controller.ConcludeRegistration | src/main.cpp:472-497 | register success with one block and the mode change published, idle, session cleared |
| Firmware.Controller.Loop | src/main.cpp:201-595 | disconnected nothing happens; idle only the timeout applies; while waiting for the user buffer nothing else happens and the card is untouched; a card is only ever written in REGISTER mode for the expected UID, and its PICC master key only ever becomes the secret one. In a session waiting for a card, the outcomes of its pass hold from the state after the timeout check: the card found; a failed read reported once with its error code; no card leaves the state; the wrong card reported; a failed write reported; exactly one event with a card in the field unless the session concludes; success on a steady link |

## Left out

- MQTT and WiFi plumbing is not modelled: `client.loop`, `publish`, subscriptions and `onConnectionEstablished`. A publication is an event appended to `outbox`. The retained flag, topics, message texts and the `retry_possible`/`component` fields of error events are left out.
- The event builders and serializers other than user data and the envelope are not part of this model: status, mode, tag detected, register/auth/read success, auth failed, error and heartbeat. The MQTT message parser and builders (mqtt_protocol.h) are not part of this model either. `HandleCommand` takes the parsed command, or `None` for a parse failure.
- Floating point is not modelled: `HeartbeatPayload.memory_usage_percent`.
- Timestamps and UUIDs (`generateTimestamp`, `generateUUID`) are left out: they need the clock and randomness.
- I/O and pacing are left out: the display, `Serial`/`Utils::Print` logging, `delay`, `ESP.restart` after RESET, `InitReader` after a PN532 error, `setup`, `load_flash`, and RF field power cycling.
- The AES step after a successful authentication (main.cpp:920-922) is left out. Its output is not used by what is published.
- PN532.h, Desfire.h, Secrets.h and the 3DES/AES primitives are not part of this model. The driver is an abstract card with a fault model, and the cipher is an injective, length-preserving function.
  - A `SetKeyData` that fails on a key of invalid size is modelled as `KeysUsable`.
  - The key version passed to `SetKeyData` is the key's version.
- One card is modelled: the tag the reader sees does not change identity. Cards are only moved into and out of the field.
- DesfireDriver: application and file ids are unbounded naturals, not 24-bit and 8-bit values. Only `0 < applicationId <= MAX_APPLICATION_ID` is required where the success guarantees need it.
- Card.CardReader.CustomizeCard: models the three-argument `customize_card` of card.cpp, which waits for the card itself. main.cpp:470 calls a four-argument version that the shown card.cpp does not define. `Firmware.Controller.CustomizeExpectedCard` therefore waits for the card again, with its own polls.
- Card.CardReader.WaitForCard: requires that the polls end past the 30-second limit. Without that requirement the environment could keep the loop polling forever with no card.
- Common.Strlcpy: characters are single units. C counts bytes of UTF-8, so non-ASCII text, such as a username, context or request id with multi-byte characters, is cut at a different place from the firmware. The derivation input is always the ASCII printed tag UID, so it is not affected.
- MqttSerialization.SerializeEnvelope: models the JSON document `serializeEnvelope` builds, not the text `serializeJson` prints into the caller's buffer. Its `size > 0` result (mqtt_serialization.cpp:55-56) is therefore not modelled: rendering JSON text and the buffer size are outside this model.
- Firmware.ScanHexByte: states only that a position without a hex digit keeps the earlier byte. The value of the digits it reads is stated by `Firmware.ScanHexOfHex`.
- Firmware.HexStringToBinary: `sscanf`'s skipping of leading white space, signs and a `0x` prefix inside a two-character window is not modelled; only hex digits are read. With the keys the firmware feeds it, which are validated as 32 hex digits, the two agree.
- Firmware.Controller.AuthPass: `millis()` is read once per pass. The few milliseconds between the timeout check and the stamp are not distinguished.
- Firmware.Controller.StartRegister: `register_state.user_data` is never read or written by main.cpp, so it is not a field of the model.
- Firmware.Controller.VerifyAuth: the username and context are copied into 64-byte `auth_state` buffers, the sizes main.cpp declares, although the protocol limits are 128 and 256.
