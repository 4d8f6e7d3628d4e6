// The card operations of card.cpp: reading a card, waiting for one,
// personalising it (customize_card), authenticating its holder
// (authenticate_user) and the DESFire command sequences behind them, each an
// early-return sequence of driver commands against the reader `gi_PN532`.
//
// The compile-time switches are fixed as config.h sets them: USE_DESFIRE on,
// USE_AES off (the application key is a 3K3DES key and DEFAULT_APP_KEY is the
// 24-byte DES default key) and ALLOW_ALSO_CLASSIC off (a card without the
// DESFire bit is refused).

module Card {
  import opened Common
  import opened DesfireDriver
  import opened CardSecrets

  /** `kCard`: what `ReadCard` learnt about the card in the field. */
  class KCard {
    var uidLength: nat
    var keyVersion: byte
    var pn532Error: bool
    var cardType: CardType

    predicate Cleared()
      reads this
    {
      uidLength == 0 && keyVersion == 0 && !pn532Error && cardType == CardUnknown
    }

    constructor ()
      ensures Cleared()
    {
      uidLength, keyVersion, pn532Error, cardType := 0, 0, false, CardUnknown;
    }

    /** `clear_kCard`, and the `memset` at the start of `ReadCard`. */
    method Clear()
      modifies this
      ensures Cleared()
    {
      uidLength, keyVersion, pn532Error, cardType := 0, 0, false, CardUnknown;
    }
  }

  /** The byte `SerialClass::Read` returns for the ESC key. */
  const ESCAPE: int := 27

  /** `WaitForCard` gives up after this many milliseconds. */
  const CARD_WAIT_MS: nat := 30000

  /**
   * One pass of the `WaitForCard` loop as the environment decides it: whether
   * the card is in the field, the milliseconds since the wait started as
   * measured after the read, and the byte read from the serial line (-1: none).
   */
  datatype Poll = Poll(inField: bool, elapsedMs: nat, serialByte: int)

  /** Time runs out by the last poll at the latest. */
  predicate PollsEnd(polls: seq<Poll>)
  {
    |polls| > 0 && polls[|polls| - 1].elapsedMs > CARD_WAIT_MS
  }

  /** `kUser::s8_Name` after `kUser()` zeroed it and `strcpy` wrote `s` over it. */
  function NameBlock(s: CStr): (name: seq<byte>)
    requires |s| < NAME_BUF_SIZE
    ensures |name| == NAME_BUF_SIZE && name[..|s|] == Bytes(s)
    ensures forall i :: |s| <= i < NAME_BUF_SIZE ==> name[i] == 0
  {
    Bytes(s) + Zeros(NAME_BUF_SIZE - |s|)
  }

  /** The first seven UID bytes in a zeroed eight-byte `kUser::ID`. */
  function UserId(id: seq<byte>): (u: seq<byte>)
    requires |id| >= UID_LENGTH
    ensures |u| == 8 && u[..UID_LENGTH] == id[..UID_LENGTH] && u[7] == 0
  {
    id[..UID_LENGTH] + [0]
  }

  /** The globals of card.cpp: the reader, the secrets it uses and `gu64_LastID`. */
  class CardReader {
    const pn532: Desfire
    const secrets: Secrets
    /** `gu64_LastID` as its eight bytes. */
    var lastId: seq<byte>

    predicate Valid()
      reads this, pn532
    {
      pn532.Valid() && |lastId| == 8
    }

    constructor (reader: Desfire, s: Secrets)
      requires reader.Valid()
      ensures Valid() && pn532 == reader && secrets == s && lastId == Zeros(8)
    {
      pn532, secrets, lastId := reader, s, Zeros(8);
    }

    /** The link will carry every command from now on and the card is in the field. */
    predicate Steady()
      reads this, pn532
    {
      pn532.Reliable() && pn532.present
    }

    /**
     * `IsDesfireTimeout`: the last PN532 error was a timeout, which is never
     * the code of a command that got through.
     */
    predicate IsDesfireTimeout()
      reads this, pn532
      ensures IsDesfireTimeout() ==> pn532.lastError != 0
    {
      pn532.lastError == PN532_TIMEOUT
    }

    /**
     * `AuthenticatePICC`: selects the PICC level, reads the version of its
     * master key and authenticates with the secret PICC master key when that
     * version is `CARD_KEY_VERSION`, with the DES2 default key otherwise.
     */
    method AuthenticatePicc() returns (ok: bool, version: byte)
      requires Valid()
      modifies pn532
      ensures Valid()
      ensures pn532.picc == old(pn532.picc) && pn532.tag == old(pn532.tag) && pn532.present == old(pn532.present)
      ensures ok ==> version == pn532.picc.masterKey.version && pn532.session == Session(0, true)
      ensures ok ==> SameKey(PiccKeyTried(secrets, version), pn532.picc.masterKey)
      ensures !ok ==> !pn532.session.authenticated
      ensures old(Steady()) && IsDesfire(pn532.tag.cardType) && PiccAuthAccepts(secrets, pn532.picc) ==> ok
      ensures old(pn532.Reliable()) ==> pn532.Reliable()
    {
      version := 0;
      ok := pn532.SelectApplication(0);
      if !ok {
        return;
      }
      ok, version := pn532.GetKeyVersion();
      if !ok {
        return;
      }
      if version == secrets.keyVersion {
        ok := pn532.Authenticate(PiccMasterKey(secrets));
      } else {
        ok := pn532.Authenticate(DES2_DEFAULT_KEY);
      }
    }

    /**
     * `ChangePiccMasterKey`: after `AuthenticatePICC`, a card whose PICC key
     * is not yet at `CARD_KEY_VERSION` gets the secret PICC master key; a card
     * that has it is left as it is.
     */
    method ChangePiccMasterKey() returns (ok: bool)
      requires Valid()
      modifies pn532
      ensures Valid()
      ensures pn532.tag == old(pn532.tag) && pn532.present == old(pn532.present)
      ensures pn532.picc.apps == old(pn532.picc.apps)
      ensures old(pn532.picc.masterKey.version) == secrets.keyVersion ==> pn532.picc == old(pn532.picc)
      ensures pn532.picc.masterKey == old(pn532.picc.masterKey) || pn532.picc.masterKey == PiccMasterKey(secrets)
      ensures ok ==> pn532.picc.masterKey == PiccMasterKey(secrets) && pn532.session == Session(0, true)
      ensures old(Steady()) && IsDesfire(pn532.tag.cardType) && PiccAuthAccepts(secrets, old(pn532.picc)) ==> ok
      ensures old(pn532.Reliable()) ==> pn532.Reliable()
    {
      var version;
      ok, version := AuthenticatePicc();
      if !ok {
        return;
      }
      if version != secrets.keyVersion {
        ok := pn532.ChangeKey(PiccMasterKey(secrets));
        if !ok {
          return;
        }
        ok := pn532.Authenticate(PiccMasterKey(secrets));
      }
    }

    /**
     * `StoreDesfireSecret`: replaces the application `CARD_APPLICATION_ID`
     * by one keyed with the card's derived key, frozen, holding one file that
     * only key 0 may use: the StoreValue followed by `encKey`. It needs the
     * PICC master key's authentication beforehand. It refuses before any card
     * command when Secrets.h sets the application id or the key version to 0.
     */
    method StoreDesfireSecret(uid: seq<byte>, name: seq<byte>, encKey: seq<byte>) returns (ok: bool)
      requires Valid() && |uid| >= UID_LENGTH && |name| == NAME_BUF_SIZE && |encKey| == ENC_KEY_LENGTH
      modifies pn532
      ensures Valid()
      ensures pn532.tag == old(pn532.tag) && pn532.present == old(pn532.present)
      ensures secrets.applicationId == 0 || secrets.keyVersion == 0 ==> !ok && pn532.clock == old(pn532.clock)
      ensures !KeysUsable(secrets) ==> !ok && pn532.clock == old(pn532.clock)
      ensures pn532.clock == old(pn532.clock) ==> unchanged(pn532)
      ensures pn532.picc.masterKey == old(pn532.picc.masterKey)
      ensures pn532.picc.apps - {secrets.applicationId} == old(pn532.picc.apps) - {secrets.applicationId}
      ensures ok ==> pn532.picc == Personalized(old(pn532.picc), secrets, uid, name, encKey)
      ensures (old(Steady()) && old(pn532.session) == Session(0, true) && KeysUsable(secrets)
               && 0 < secrets.applicationId <= MAX_APPLICATION_ID && secrets.keyVersion != 0) ==> ok
      ensures old(pn532.Reliable()) ==> pn532.Reliable()
    {
      if secrets.applicationId == 0 || secrets.keyVersion == 0 {
        return false;
      }
      var appKey, storeValue;
      ok, appKey, storeValue := GenerateDesfireSecrets(secrets, uid, name);
      if !ok {
        return;
      }
      ok := CreateSecretApplication(appKey);
      if !ok {
        return;
      }
      ok := WriteSecretFile(storeValue, encKey);
    }

    /**
     * The first half of `StoreDesfireSecret`: the application is deleted and
     * created anew with default settings, its default 3K3DES key is replaced
     * by `appKey`, which is then authenticated, and its key settings are
     * frozen.
     */
    method CreateSecretApplication(appKey: DesfireKey) returns (ok: bool)
      requires Valid() && KeyTypeOf(appKey) == ThreeKeyDes
      modifies pn532
      ensures Valid() && pn532.clock > old(pn532.clock)
      ensures pn532.tag == old(pn532.tag) && pn532.present == old(pn532.present)
      ensures pn532.picc.masterKey == old(pn532.picc.masterKey)
      ensures pn532.picc.apps - {secrets.applicationId} == old(pn532.picc.apps) - {secrets.applicationId}
      ensures ok ==> (pn532.session == Session(secrets.applicationId, true)
        && pn532.picc.apps == old(pn532.picc.apps)[secrets.applicationId := Application(appKey, KsChangeKeyFrozen, map[])])
      ensures (old(Steady()) && old(pn532.session) == Session(0, true)
               && 0 < secrets.applicationId <= MAX_APPLICATION_ID) ==> ok
      ensures old(pn532.Reliable()) ==> pn532.Reliable()
    {
      var aid := secrets.applicationId;
      ghost var p0 := pn532.picc;
      ok := pn532.DeleteApplicationIfExists(aid);
      if !ok {
        return;
      }
      ok := pn532.CreateApplication(aid, KsFactoryDefault, KeyTypeOf(appKey));
      if !ok {
        return;
      }
      ok := pn532.SelectApplication(aid);
      if !ok {
        assert pn532.picc.apps - {aid} == p0.apps - {aid};
        return;
      }
      ok := pn532.Authenticate(DES3_DEFAULT_KEY);
      if !ok {
        assert pn532.picc.apps - {aid} == p0.apps - {aid};
        return;
      }
      ok := pn532.ChangeKey(appKey);
      if !ok {
        assert pn532.picc.apps - {aid} == p0.apps - {aid};
        return;
      }
      ok := pn532.Authenticate(appKey);
      if !ok {
        assert pn532.picc.apps - {aid} == p0.apps - {aid};
        return;
      }
      ok := pn532.ChangeKeySettings(KsChangeKeyFrozen);
      assert pn532.picc.apps - {aid} == p0.apps - {aid};
    }

    /**
     * The second half of `StoreDesfireSecret`: in the selected, authenticated
     * application a 32-byte file for key 0 only is created and the StoreValue
     * and the encryption key are written into it.
     */
    method WriteSecretFile(storeValue: seq<byte>, encKey: seq<byte>) returns (ok: bool)
      requires Valid() && |storeValue| == STORE_VALUE_LENGTH && |encKey| == ENC_KEY_LENGTH
      requires pn532.session.selected == secrets.applicationId != 0
      modifies pn532
      ensures Valid() && pn532.clock > old(pn532.clock)
      ensures pn532.tag == old(pn532.tag) && pn532.present == old(pn532.present)
      ensures pn532.picc.masterKey == old(pn532.picc.masterKey)
      ensures pn532.picc.apps - {secrets.applicationId} == old(pn532.picc.apps) - {secrets.applicationId}
      ensures ok ==> pn532.picc.apps == old(pn532.picc.apps)[secrets.applicationId :=
        old(pn532.picc.apps)[secrets.applicationId].(files := old(pn532.picc.apps)[secrets.applicationId].files[
          secrets.fileId := DataFile(KEY0_ONLY, storeValue + encKey)])]
      ensures (old(Steady()) && old(pn532.session.authenticated)
               && secrets.fileId !in old(pn532.picc.apps)[secrets.applicationId].files) ==> ok
      ensures old(pn532.Reliable()) ==> pn532.Reliable()
    {
      var aid := secrets.applicationId;
      ghost var p0 := pn532.picc;
      ok := pn532.CreateStdDataFile(secrets.fileId, KEY0_ONLY, STORE_VALUE_LENGTH + ENC_KEY_LENGTH);
      if !ok {
        return;
      }
      ok := pn532.WriteFileData(secrets.fileId, 0, storeValue);
      if !ok {
        assert pn532.picc.apps - {aid} == p0.apps - {aid};
        return;
      }
      ok := pn532.WriteFileData(secrets.fileId, STORE_VALUE_LENGTH, encKey);
      assert pn532.picc.apps - {aid} == p0.apps - {aid};
      if ok {
        SecretFileContents(storeValue, encKey);
        var f := DataFile(KEY0_ONLY, storeValue + encKey);
        assert pn532.picc.apps[aid].files == p0.apps[aid].files[secrets.fileId := f];
        assert pn532.picc.apps[aid] == p0.apps[aid].(files := p0.apps[aid].files[secrets.fileId := f]);
      }
    }

    /**
     * `CheckDesfireSecret`: the card is accepted when its PICC key has version
     * `CARD_KEY_VERSION`, the derived application key authenticates and the
     * file starts with the derived StoreValue; the key stored behind it is
     * handed back. The card is only read.
     */
    method CheckDesfireSecret(uid: seq<byte>, name: seq<byte>) returns (ok: bool, encKey: seq<byte>)
      requires Valid() && |uid| >= UID_LENGTH && |name| == NAME_BUF_SIZE
      modifies pn532
      ensures Valid()
      ensures pn532.picc == old(pn532.picc) && pn532.tag == old(pn532.tag) && pn532.present == old(pn532.present)
      ensures ok ==> CheckAccepts(secrets, pn532.picc, uid, name) && encKey == CheckedKey(secrets, pn532.picc, uid, name)
      ensures old(Steady()) && IsDesfire(pn532.tag.cardType) && CheckAccepts(secrets, pn532.picc, uid, name) ==> ok
      ensures old(pn532.Reliable()) ==> pn532.Reliable()
    {
      encKey := [];
      var appKey, storeValue;
      ok, appKey, storeValue := GenerateDesfireSecrets(secrets, uid, name);
      if !ok {
        return;
      }
      ok := pn532.SelectApplication(0);
      if !ok {
        return;
      }
      var version;
      ok, version := pn532.GetKeyVersion();
      if !ok {
        return;
      }
      if version != secrets.keyVersion {
        return false, [];
      }
      ok := pn532.SelectApplication(secrets.applicationId);
      if !ok {
        return;
      }
      ok := pn532.Authenticate(appKey);
      if !ok {
        return;
      }
      var fileData;
      ok, fileData := pn532.ReadFileData(secrets.fileId, 0, STORE_VALUE_LENGTH);
      if !ok {
        return;
      }
      if fileData != storeValue {
        return false, [];
      }
      ok, encKey := pn532.ReadFileData(secrets.fileId, STORE_VALUE_LENGTH, ENC_KEY_LENGTH);
    }

    /**
     * `ReadCard`: clears `card`, reads the UID of the card in the field into
     * `uid` and, for a card in random-ID mode, authenticates the PICC and
     * replaces the random ID by the real seven-byte UID. With no card in the
     * field it succeeds with UID length 0. Only a failure of the PN532 itself
     * sets `pn532Error`.
     */
    method ReadCard(uid: array<byte>, card: KCard) returns (ok: bool)
      requires Valid() && uid.Length == 8
      modifies pn532, uid, card
      ensures Valid()
      ensures pn532.picc == old(pn532.picc) && pn532.tag == old(pn532.tag) && pn532.present == old(pn532.present)
      ensures card.pn532Error <==> old(pn532.clock) in pn532.faults
      ensures card.pn532Error ==> !ok && card.uidLength == 0 && card.cardType == CardUnknown
      ensures !ok && !card.pn532Error ==> card.cardType == CardDesRandom
      ensures ok ==> (card.uidLength > 0 <==> pn532.present)
      ensures !pn532.present && !card.pn532Error ==> ok
      ensures ok ==> !IsDesfireTimeout()
      ensures ok && pn532.present ==> (uid[..] == PadUid(pn532.tag.uid) && card.uidLength == |pn532.tag.uid|
                                       && card.cardType == pn532.tag.cardType)
      ensures card.cardType != CardDesRandom ==> card.keyVersion == 0
      ensures ok && card.cardType == CardDesRandom ==> (card.keyVersion == pn532.picc.masterKey.version
        && SameKey(PiccKeyTried(secrets, card.keyVersion), pn532.picc.masterKey))
      ensures (old(pn532.Reliable())
               && (pn532.present && pn532.tag.cardType == CardDesRandom ==> PiccAuthAccepts(secrets, pn532.picc))) ==> ok
      ensures old(pn532.Reliable()) ==> pn532.Reliable()
    {
      card.Clear();
      var read, length, cardType := pn532.ReadPassiveTargetID(uid);
      card.uidLength, card.cardType := length, cardType;
      if !read {
        card.pn532Error := true;
        return false;
      }
      if cardType == CardDesRandom {
        var version;
        ok, version := AuthenticatePicc();
        card.keyVersion := version;
        if !ok {
          return;
        }
        ok := pn532.GetRealCardID(uid);
        if !ok {
          return;
        }
        card.uidLength := 7;
      }
      return true;
    }

    /**
     * `WaitForCard`: reads until a card answers with a UID, the wait has
     * lasted more than 30 seconds or ESC arrives on the serial line. A card
     * found becomes `gu64_LastID`.
     */
    method WaitForCard(id: array<byte>, card: KCard, polls: seq<Poll>) returns (ok: bool)
      requires Valid() && id.Length == 8 && PollsEnd(polls)
      modifies this, pn532, id, card
      ensures Valid()
      ensures pn532.picc == old(pn532.picc) && pn532.tag == old(pn532.tag)
      ensures ok ==> (pn532.present && id[..] == PadUid(pn532.tag.uid) && lastId == id[..]
                      && card.uidLength == |pn532.tag.uid| && card.cardType == pn532.tag.cardType)
      ensures ok && card.cardType == CardDesRandom ==> (card.keyVersion == pn532.picc.masterKey.version
        && SameKey(PiccKeyTried(secrets, card.keyVersion), pn532.picc.masterKey))
      ensures !ok ==> lastId == old(lastId)
      ensures (old(pn532.Reliable()) && polls[0].inField
               && (pn532.tag.cardType == CardDesRandom ==> PiccAuthAccepts(secrets, pn532.picc))) ==> ok
      ensures old(pn532.Reliable()) ==> pn532.Reliable()
    {
      var i := 0;
      while true
        invariant 0 <= i < |polls| && Valid()
        invariant pn532.picc == old(pn532.picc) && pn532.tag == old(pn532.tag) && lastId == old(lastId)
        invariant old(pn532.Reliable()) ==> pn532.Reliable()
        invariant i > 0 ==> !(old(pn532.Reliable()) && polls[0].inField
                              && (pn532.tag.cardType == CardDesRandom ==> PiccAuthAccepts(secrets, pn532.picc)))
        decreases |polls| - i
      {
        pn532.MoveCard(polls[i].inField);
        var read := ReadCard(id, card);
        if read && card.uidLength > 0 {
          lastId := id[..];
          return true;
        }
        if polls[i].elapsedMs > CARD_WAIT_MS {
          return false;
        }
        if polls[i].serialByte == ESCAPE {
          return false;
        }
        i := i + 1;
      }
    }

    /**
     * `RestoreDesfireCard`: waits for a card and, for a DESFire card whose
     * PICC key is not the factory key, deletes the application and puts the
     * DES2 default key back as PICC master key (re-authenticating with the
     * secret key first when the deletion failed). `deleted` is the outcome of
     * the deletion and `keyRestored` that of the key change and the check
     * authentication after it. Once the key is restored the result is the
     * outcome of the deletion; a card still at key version 0 is left alone
     * and reported restored.
     */
    method RestoreDesfireCard(polls: seq<Poll>) returns (ok: bool, deleted: bool, keyRestored: bool)
      requires Valid() && PollsEnd(polls)
      modifies this, pn532
      ensures Valid()
      ensures pn532.tag == old(pn532.tag)
      ensures !IsDesfire(pn532.tag.cardType) ==> !ok && pn532.picc == old(pn532.picc)
      ensures old(pn532.picc.masterKey.version) == 0 ==> pn532.picc == old(pn532.picc) && !keyRestored
      ensures pn532.picc.masterKey == old(pn532.picc.masterKey) || pn532.picc.masterKey == DES2_DEFAULT_KEY
      ensures deleted ==> pn532.picc.apps == old(pn532.picc.apps) - {secrets.applicationId}
      ensures !deleted ==> pn532.picc.apps == old(pn532.picc.apps)
      ensures keyRestored ==> pn532.picc.masterKey == DES2_DEFAULT_KEY && (ok <==> deleted)
      ensures ok && old(pn532.picc.masterKey.version) != 0 ==> keyRestored
      ensures (old(pn532.Reliable()) && polls[0].inField && IsDesfire(pn532.tag.cardType)
               && old(pn532.picc.masterKey.version) == 0 && PiccAuthAccepts(secrets, old(pn532.picc))) ==> ok
      ensures ok && secrets.keyVersion != 0 ==> SameKey(DES2_DEFAULT_KEY, pn532.picc.masterKey)
      ensures ok && old(pn532.picc.masterKey.version) != 0 ==>
        pn532.picc == Picc(DES2_DEFAULT_KEY, old(pn532.picc.apps) - {secrets.applicationId})
      ensures (old(pn532.Reliable()) && polls[0].inField && IsDesfire(pn532.tag.cardType)
               && old(pn532.picc.masterKey) == PiccMasterKey(secrets) && secrets.keyVersion != 0) ==>
        ok && deleted && keyRestored && pn532.picc == Picc(DES2_DEFAULT_KEY, old(pn532.picc.apps) - {secrets.applicationId})
    {
      deleted, keyRestored := false, false;
      var userId := new byte[8](_ => 0);
      var card := new KCard();
      ok := WaitForCard(userId, card, polls);
      if !ok {
        return;
      }
      if !IsDesfire(card.cardType) {
        return false, false, false;
      }
      var version;
      ok, version := AuthenticatePicc();
      if !ok {
        return;
      }
      if version == 0 {
        return true, false, false;
      }
      deleted := pn532.DeleteApplicationIfExists(secrets.applicationId);
      if !deleted {
        ok := pn532.Authenticate(PiccMasterKey(secrets));
        if !ok {
          return;
        }
      }
      ok := pn532.ChangeKey(DES2_DEFAULT_KEY);
      if !ok {
        return;
      }
      keyRestored := pn532.Authenticate(DES2_DEFAULT_KEY);
      if !keyRestored {
        return false, deleted, false;
      }
      return deleted, deleted, true;
    }

    /**
     * `customize_card` (the three-argument version of card.cpp): waits for a
     * card, refuses one without the DESFire bit, gives it the secret PICC
     * master key and, unless it is in random-ID mode, stores the secret
     * derived from its UID and the name block holding `userBuff`. Returns the
     * card's seven-byte UID.
     */
    method CustomizeCard(userBuff: CStr, encKey: seq<byte>, polls: seq<Poll>) returns (ok: bool, id: seq<byte>)
      requires Valid() && |userBuff| < NAME_BUF_SIZE && |encKey| == ENC_KEY_LENGTH && PollsEnd(polls)
      modifies this, pn532
      ensures Valid()
      ensures pn532.tag == old(pn532.tag)
      ensures !IsDesfire(pn532.tag.cardType) ==> !ok && pn532.picc == old(pn532.picc)
      ensures pn532.picc.apps - {secrets.applicationId} == old(pn532.picc.apps) - {secrets.applicationId}
      ensures pn532.picc.masterKey == old(pn532.picc.masterKey) || pn532.picc.masterKey == PiccMasterKey(secrets)
      ensures ok ==> IsDesfire(pn532.tag.cardType) && id == pn532.tag.uid
      ensures ok && pn532.tag.cardType == CardDesRandom ==>
        pn532.picc == old(pn532.picc).(masterKey := PiccMasterKey(secrets))
      ensures ok && pn532.tag.cardType == CardDesfire ==>
        pn532.picc == Personalized(old(pn532.picc).(masterKey := PiccMasterKey(secrets)),
                                   secrets, pn532.tag.uid, NameBlock(userBuff), encKey)
      ensures (old(pn532.Reliable()) && polls[0].inField && IsDesfire(pn532.tag.cardType)
               && PiccAuthAccepts(secrets, old(pn532.picc))
               && (pn532.tag.cardType == CardDesfire ==>
                     KeysUsable(secrets) && 0 < secrets.applicationId <= MAX_APPLICATION_ID && secrets.keyVersion != 0)) ==> ok
      ensures old(pn532.Reliable()) ==> pn532.Reliable()
    {
      var userId := new byte[8](_ => 0);
      var card := new KCard();
      var found := WaitForCard(userId, card, polls);
      if !found {
        return false, [];
      }
      var name := NameBlock(userBuff);
      if !IsDesfire(card.cardType) {
        return false, [];
      }
      ok := PersonalizeFoundCard(userId[..], name, encKey, card.cardType);
      if !ok {
        return false, [];
      }
      return true, userId[..UID_LENGTH];
    }

    /**
     * The part of `customize_card` after the card was found: the secret PICC
     * master key, then, unless the card is in random-ID mode, the secret
     * derived from the UID `userId` and the name block.
     */
    method PersonalizeFoundCard(userId: seq<byte>, name: seq<byte>, encKey: seq<byte>, cardType: CardType)
      returns (ok: bool)
      requires Valid() && pn532.present && IsDesfire(cardType) && cardType == pn532.tag.cardType
      requires userId == PadUid(pn532.tag.uid) && |name| == NAME_BUF_SIZE && |encKey| == ENC_KEY_LENGTH
      modifies pn532
      ensures Valid()
      ensures pn532.tag == old(pn532.tag)
      ensures pn532.picc.apps - {secrets.applicationId} == old(pn532.picc.apps) - {secrets.applicationId}
      ensures pn532.picc.masterKey == old(pn532.picc.masterKey) || pn532.picc.masterKey == PiccMasterKey(secrets)
      ensures ok && cardType == CardDesRandom ==> pn532.picc == old(pn532.picc).(masterKey := PiccMasterKey(secrets))
      ensures ok && cardType == CardDesfire ==>
        pn532.picc == Personalized(old(pn532.picc).(masterKey := PiccMasterKey(secrets)), secrets, pn532.tag.uid, name, encKey)
      ensures (old(pn532.Reliable()) && PiccAuthAccepts(secrets, old(pn532.picc))
               && (cardType == CardDesfire ==>
                     KeysUsable(secrets) && 0 < secrets.applicationId <= MAX_APPLICATION_ID && secrets.keyVersion != 0)) ==> ok
      ensures old(pn532.Reliable()) ==> pn532.Reliable()
    {
      ghost var p0 := pn532.picc;
      ok := ChangePiccMasterKey();
      if !ok {
        return;
      }
      assert pn532.picc == p0.(masterKey := PiccMasterKey(secrets));
      if cardType != CardDesRandom {
        ok := StoreDesfireSecret(userId, name, encKey);
        if !ok {
          return;
        }
        SeedIgnoresUidTail(userId, pn532.tag.uid, name);
      }
    }

    /**
     * Provisioning is repeatable: `customize_card` run twice on the same card
     * over a reliable link succeeds both times, and the second run leaves the
     * card exactly as the first one did.
     */
    method CustomizeCardTwice(userBuff: CStr, encKey: seq<byte>, polls1: seq<Poll>, polls2: seq<Poll>)
      returns (ok1: bool, ok2: bool)
      requires Valid() && |userBuff| < NAME_BUF_SIZE && |encKey| == ENC_KEY_LENGTH
      requires PollsEnd(polls1) && PollsEnd(polls2) && polls1[0].inField && polls2[0].inField
      requires pn532.Reliable() && IsDesfire(pn532.tag.cardType) && PiccAuthAccepts(secrets, pn532.picc)
      requires pn532.tag.cardType == CardDesfire ==>
                 KeysUsable(secrets) && 0 < secrets.applicationId <= MAX_APPLICATION_ID && secrets.keyVersion != 0
      modifies this, pn532
      ensures Valid() && ok1 && ok2
      ensures pn532.tag.cardType == CardDesRandom ==>
        pn532.picc == old(pn532.picc).(masterKey := PiccMasterKey(secrets))
      ensures pn532.tag.cardType == CardDesfire ==>
        pn532.picc == Personalized(old(pn532.picc).(masterKey := PiccMasterKey(secrets)),
                                   secrets, pn532.tag.uid, NameBlock(userBuff), encKey)
    {
      var id;
      ok1, id := CustomizeCard(userBuff, encKey, polls1);
      ghost var first := pn532.picc;
      assert first.masterKey == PiccMasterKey(secrets);
      assert first.(masterKey := PiccMasterKey(secrets)) == first;
      ok2, id := CustomizeCard(userBuff, encKey, polls2);
      if pn532.tag.cardType == CardDesfire {
        PersonalizedIdempotent(old(pn532.picc).(masterKey := PiccMasterKey(secrets)),
                               secrets, pn532.tag.uid, NameBlock(userBuff), encKey);
      }
    }

    /**
     * `authenticate_user`: a card without the DESFire bit is refused; a card
     * in random-ID mode is accepted when `ReadCard` saw the PICC key at
     * `CARD_KEY_VERSION`; any other DESFire card is accepted when
     * `CheckDesfireSecret` accepts it for the UID `id` and the 24-byte name
     * block at the start of `userBuffer`, and the key it hands back is
     * written to `keyRet`. An accepted card becomes `gu64_LastID`.
     */
    method AuthenticateUser(id: seq<byte>, userBuffer: seq<byte>, card: KCard, keyRet: array<byte>) returns (ok: bool)
      requires Valid() && |id| >= UID_LENGTH && |userBuffer| >= NAME_BUF_SIZE && keyRet.Length == ENC_KEY_LENGTH
      modifies this, pn532, keyRet
      ensures Valid()
      ensures pn532.picc == old(pn532.picc) && pn532.tag == old(pn532.tag) && pn532.present == old(pn532.present)
      ensures !IsDesfire(card.cardType) ==> !ok && unchanged(pn532)
      ensures card.cardType == CardDesRandom ==> (ok <==> card.keyVersion == secrets.keyVersion) && unchanged(pn532)
      ensures card.cardType == CardDesfire && ok ==>
        CheckAccepts(secrets, pn532.picc, id, userBuffer[..NAME_BUF_SIZE])
        && keyRet[..] == CheckedKey(secrets, pn532.picc, id, userBuffer[..NAME_BUF_SIZE])
      ensures (card.cardType == CardDesfire && old(Steady()) && IsDesfire(pn532.tag.cardType)
               && CheckAccepts(secrets, pn532.picc, id, userBuffer[..NAME_BUF_SIZE])) ==> ok
      ensures !(ok && card.cardType == CardDesfire) ==> keyRet[..] == old(keyRet[..])
      ensures ok ==> lastId == UserId(id)
      ensures !ok ==> lastId == old(lastId)
    {
      var userId := UserId(id);
      var name := userBuffer[..NAME_BUF_SIZE];
      if !IsDesfire(card.cardType) {
        return false;
      }
      if card.cardType == CardDesRandom {
        if card.keyVersion != secrets.keyVersion {
          return false;
        }
      } else {
        var key;
        ok, key := CheckDesfireSecret(userId, name);
        SeedIgnoresUidTail(userId, id, name);
        if !ok {
          return false;
        }
        CopyPrefix(keyRet, key);
      }
      lastId := userId;
      return true;
    }
  }

  /** Writing the StoreValue and then the key over a zeroed 32-byte file leaves the two side by side. */
  lemma SecretFileContents(storeValue: seq<byte>, encKey: seq<byte>)
    requires |storeValue| == STORE_VALUE_LENGTH && |encKey| == ENC_KEY_LENGTH
    ensures Splice(Splice(Zeros(STORE_VALUE_LENGTH + ENC_KEY_LENGTH), 0, storeValue), STORE_VALUE_LENGTH, encKey)
         == storeValue + encKey
  {
    var once := Splice(Zeros(STORE_VALUE_LENGTH + ENC_KEY_LENGTH), 0, storeValue);
    var twice := Splice(once, STORE_VALUE_LENGTH, encKey);
    assert twice == twice[..STORE_VALUE_LENGTH] + twice[STORE_VALUE_LENGTH..];
    assert twice[..STORE_VALUE_LENGTH] == once[..STORE_VALUE_LENGTH] == storeValue;
  }
}
