// The PN532 reader and the DESFire card behind it, as the command sequences
// of card.cpp see them. The driver library itself (Desfire.h, PN532.h) is not
// part of this model: this module states the effect each driver command has
// on an abstract card, which is what the firmware relies on.
//
// Faults of the radio link are inputs: `faults` maps the index of an exchange
// (counted by `clock`) to the PN532 error code that exchange fails with. A card
// outside the field makes every card command time out. Any failure, on the link
// or reported by the card, drops the current authentication.

module DesfireDriver {
  import opened Common

  /** The PN532 error code for a timeout (card too far from the antenna). */
  const PN532_TIMEOUT: byte := 0x01

  /** DESFire application identifiers are 24 bits wide; 0 names the PICC level. */
  const MAX_APPLICATION_ID: nat := 0xFF_FFFF

  /**
   * `eCardType`: a card without the DESFire bit (`CARD_Unknown`), a DESFire
   * card (`CARD_Desfire`) and a DESFire card in random-ID mode
   * (`CARD_DesRandom`, which has the DESFire bit set too).
   */
  datatype CardType = CardUnknown | CardDesfire | CardDesRandom

  /** `(type & CARD_Desfire) != 0` */
  predicate IsDesfire(t: CardType)
  {
    t != CardUnknown
  }

  /** A (3)DES key: its key bytes and the version stored with it on the card. */
  datatype DesfireKey = DesfireKey(material: seq<byte>, version: byte)

  /** Authentication compares key bytes; the version is not part of the secret. */
  predicate SameKey(a: DesfireKey, b: DesfireKey)
  {
    a.material == b.material
  }

  /** `DES2_DEFAULT_KEY`: the factory PICC master key, sixteen zero bytes, version 0. */
  const DES2_DEFAULT_KEY: DesfireKey := DesfireKey(Zeros(16), 0)

  /** `DES3_DEFAULT_KEY`: twenty-four zero bytes, version 0. */
  const DES3_DEFAULT_KEY: DesfireKey := DesfireKey(Zeros(24), 0)

  /** `DESFireKeyType`: single DES, 2K3DES and 3K3DES keys. */
  datatype KeyType = SingleDes | TwoKeyDes | ThreeKeyDes

  /** The key sizes `DES::SetKeyData` accepts. */
  predicate ValidKeySize(n: nat)
  {
    n == 8 || n == 16 || n == 24
  }

  /** `GetKeyType()` of a key set from `|material|` bytes. */
  function KeyTypeOf(k: DesfireKey): KeyType
  {
    if |k.material| == 24 then ThreeKeyDes else if |k.material| == 16 then TwoKeyDes else SingleDes
  }

  /** The all-zero key of a type, which a new application starts with. */
  function DefaultKey(t: KeyType): (k: DesfireKey)
    ensures k.version == 0 && KeyTypeOf(k) == t
    ensures forall i :: 0 <= i < |k.material| ==> k.material[i] == 0
  {
    match t
    case SingleDes => DesfireKey(Zeros(8), 0)
    case TwoKeyDes => DES2_DEFAULT_KEY
    case ThreeKeyDes => DES3_DEFAULT_KEY
  }

  /**
   * Application key settings: `KS_FACTORY_DEFAULT` lets the master key be
   * changed; `KS_CHANGE_KEY_FROZEN` freezes it.
   */
  datatype KeySettings = KsFactoryDefault | KsChangeKeyFrozen

  /** `DESFireAccessRights`, for the only key the model names. */
  datatype AccessRight = ArKey0 | ArFree | ArNever

  datatype FilePermissions = FilePermissions(
    readAccess: AccessRight, writeAccess: AccessRight, readAndWriteAccess: AccessRight, changeAccess: AccessRight)

  predicate Grants(r: AccessRight, authenticated: bool)
  {
    r == ArFree || (r == ArKey0 && authenticated)
  }

  predicate MayRead(p: FilePermissions, authenticated: bool)
  {
    Grants(p.readAccess, authenticated) || Grants(p.readAndWriteAccess, authenticated)
  }

  predicate MayWrite(p: FilePermissions, authenticated: bool)
  {
    Grants(p.writeAccess, authenticated) || Grants(p.readAndWriteAccess, authenticated)
  }

  datatype DataFile = DataFile(permissions: FilePermissions, data: seq<byte>)

  datatype Application = Application(masterKey: DesfireKey, settings: KeySettings, files: map<nat, DataFile>)

  /** The card's memory: the PICC master key and the applications by id. */
  datatype Picc = Picc(masterKey: DesfireKey, apps: map<nat, Application>)

  predicate ValidPicc(p: Picc)
  {
    0 !in p.apps && forall aid :: aid in p.apps ==> aid <= MAX_APPLICATION_ID
  }

  /** What the card reveals of itself: its type, its real UID and its random ID. */
  datatype Tag = Tag(cardType: CardType, uid: seq<byte>, randomId: seq<byte>)

  predicate ValidTag(t: Tag)
  {
    (|t.uid| == 4 || |t.uid| == 7)
    && (IsDesfire(t.cardType) ==> |t.uid| == 7)
    && (t.cardType == CardDesRandom ==> |t.randomId| == 4)
  }

  /** The UID the card answers the anticollision with: a random ID in random-ID mode. */
  function PresentedUid(t: Tag): (u: seq<byte>)
    requires ValidTag(t)
    ensures |u| == 4 || |u| == 7
  {
    if t.cardType == CardDesRandom then t.randomId else t.uid
  }

  /** A UID in the reader's eight-byte buffer, zero-filled after its last byte. */
  function PadUid(u: seq<byte>): (r: seq<byte>)
    requires |u| <= 8
    ensures |r| == 8 && r[..|u|] == u
    ensures forall i :: |u| <= i < 8 ==> r[i] == 0
  {
    u + Zeros(8 - |u|)
  }

  /** The selected application (0: the PICC level) and whether key 0 of it is authenticated. */
  datatype Session = Session(selected: nat, authenticated: bool)

  predicate SessionFits(p: Picc, s: Session)
  {
    s.selected == 0 || s.selected in p.apps
  }

  /** Key 0 of the selected application, or the PICC master key at the PICC level. */
  function ContextKey(p: Picc, s: Session): DesfireKey
    requires SessionFits(p, s)
  {
    if s.selected == 0 then p.masterKey else p.apps[s.selected].masterKey
  }

  /** The card after key 0 of the selected level has been replaced by `k`. */
  function WithContextKey(p: Picc, s: Session, k: DesfireKey): (r: Picc)
    requires SessionFits(p, s)
    ensures SessionFits(r, s) && ContextKey(r, s) == k
    ensures r.apps.Keys == p.apps.Keys
    ensures forall aid :: aid in p.apps && aid != s.selected ==> r.apps[aid] == p.apps[aid]
    ensures s.selected != 0 ==> r.masterKey == p.masterKey
  {
    if s.selected == 0 then p.(masterKey := k)
    else p.(apps := p.apps[s.selected := p.apps[s.selected].(masterKey := k)])
  }

  /** The selected application with `f` for its files. */
  function WithFiles(p: Picc, aid: nat, files: map<nat, DataFile>): (r: Picc)
    requires aid in p.apps
    ensures r.masterKey == p.masterKey && r.apps.Keys == p.apps.Keys
    ensures r.apps[aid] == p.apps[aid].(files := files)
    ensures forall a :: a in p.apps && a != aid ==> r.apps[a] == p.apps[a]
  {
    p.(apps := p.apps[aid := p.apps[aid].(files := files)])
  }

  /** `data` written over `bytes` from `offset` on. */
  function Splice(bytes: seq<byte>, offset: nat, data: seq<byte>): (r: seq<byte>)
    requires offset + |data| <= |bytes|
    ensures |r| == |bytes| && r[offset..offset + |data|] == data
    ensures r[..offset] == bytes[..offset] && r[offset + |data|..] == bytes[offset + |data|..]
  {
    bytes[..offset] + data + bytes[offset + |data|..]
  }

  /** `memcpy(buf, src, |src|)`: the rest of the buffer keeps its bytes. */
  method CopyPrefix(buf: array<byte>, src: seq<byte>)
    requires |src| <= buf.Length
    modifies buf
    ensures buf[..] == src + old(buf[|src|..])
  {
    var i := 0;
    while i < |src|
      invariant 0 <= i <= |src|
      invariant buf[..i] == src[..i] && buf[i..] == old(buf[i..])
    {
      buf[i] := src[i];
      assert buf[i+1..] == old(buf[i+1..]);
      i := i + 1;
    }
    assert buf[..] == buf[..i] + buf[i..];
  }

  /** `gi_PN532`: the reader and the card in (or out of) its field. */
  class Desfire {
    var present: bool
    var tag: Tag
    var picc: Picc
    var session: Session
    var lastError: byte
    var clock: nat
    const faults: map<nat, byte>

    predicate Valid()
      reads this
    {
      ValidTag(tag) && ValidPicc(picc) && SessionFits(picc, session)
      && (session.authenticated ==> IsDesfire(tag.cardType))
      && 0 !in faults.Values
    }

    /** The next exchange reaches the card. */
    predicate Reaches()
      reads this
    {
      present && clock !in faults
    }

    /** The error code the next exchange fails with when it does not reach the card. */
    function FailureCode(): byte
      reads this
    {
      if clock in faults then faults[clock] else PN532_TIMEOUT
    }

    /** No link fault lies ahead. */
    predicate Reliable()
      reads this
    {
      forall k :: k in faults ==> k < clock
    }

    constructor (t: Tag, p: Picc, inField: bool, linkFaults: map<nat, byte>)
      requires ValidTag(t) && ValidPicc(p) && 0 !in linkFaults.Values
      ensures Valid()
      ensures tag == t && picc == p && present == inField && faults == linkFaults
      ensures session == Session(0, false) && lastError == 0 && clock == 0
    {
      tag, picc, present, faults := t, p, inField, linkFaults;
      session, lastError, clock := Session(0, false), 0, 0;
    }

    /**
     * The card enters or leaves the field (an input of the environment, not a
     * firmware step); a card that moves loses its session.
     */
    method MoveCard(inField: bool)
      requires Valid()
      modifies this
      ensures Valid() && present == inField
      ensures tag == old(tag) && picc == old(picc) && clock == old(clock) && lastError == old(lastError)
      ensures session == if inField == old(present) then old(session) else Session(0, false)
    {
      if inField != present {
        session := Session(0, false);
      }
      present := inField;
    }

    /** One exchange over the link; shared by every card command. */
    method Exchange() returns (reached: bool)
      requires Valid()
      modifies this
      ensures Valid()
      ensures reached == old(Reaches())
      ensures clock == old(clock) + 1 && present == old(present) && tag == old(tag) && picc == old(picc)
      ensures lastError == if reached then 0 else old(FailureCode())
      ensures session == if reached then old(session) else old(session).(authenticated := false)
    {
      reached := Reaches();
      if reached {
        lastError := 0;
      } else {
        lastError := FailureCode();
        session := session.(authenticated := false);
      }
      clock := clock + 1;
    }

    /** The card refuses a command: the session loses its authentication. */
    method Refuse()
      requires Valid()
      modifies this`session
      ensures Valid() && session == old(session).(authenticated := false)
    {
      session := session.(authenticated := false);
    }

    /**
     * `ReadPassiveTargetID`: fails only when the PN532 itself fails. With no
     * card in the field it succeeds with UID length 0; otherwise it writes
     * the UID the card presents into the eight-byte buffer and the card
     * starts a new session at the PICC level.
     */
    method ReadPassiveTargetID(uidBuf: array<byte>) returns (ok: bool, uidLength: nat, cardType: CardType)
      requires Valid() && uidBuf.Length == 8
      modifies this, uidBuf
      ensures Valid()
      ensures clock == old(clock) + 1 && present == old(present) && tag == old(tag) && picc == old(picc)
      ensures ok == (old(clock) !in faults)
      ensures !ok ==> lastError == faults[old(clock)] && uidLength == 0 && cardType == CardUnknown
      ensures !ok ==> uidBuf[..] == old(uidBuf[..]) && session == old(session).(authenticated := false)
      ensures ok ==> lastError == 0 && session == Session(0, false)
      ensures ok && !present ==> uidLength == 0 && cardType == CardUnknown && uidBuf[..] == old(uidBuf[..])
      ensures ok && present ==> uidLength == |PresentedUid(tag)| && cardType == tag.cardType
      ensures ok && present ==> uidBuf[..] == PadUid(PresentedUid(tag))
    {
      if clock in faults {
        lastError := faults[clock];
        session := session.(authenticated := false);
        clock := clock + 1;
        return false, 0, CardUnknown;
      }
      lastError := 0;
      session := Session(0, false);
      clock := clock + 1;
      if !present {
        return true, 0, CardUnknown;
      }
      CopyPrefix(uidBuf, PadUid(PresentedUid(tag)));
      return true, |PresentedUid(tag)|, tag.cardType;
    }

    /** `GetRealCardID`: the card's real seven-byte UID, after PICC authentication. */
    method GetRealCardID(uidBuf: array<byte>) returns (ok: bool)
      requires Valid() && uidBuf.Length == 8
      modifies this, uidBuf
      ensures Valid()
      ensures clock == old(clock) + 1 && present == old(present) && tag == old(tag) && picc == old(picc)
      ensures lastError == if old(Reaches()) then 0 else old(FailureCode())
      ensures ok <==> old(Reaches()) && old(session) == Session(0, true)
      ensures ok ==> session == old(session) && uidBuf[..] == tag.uid + old(uidBuf[7..])
      ensures !ok ==> session == old(session).(authenticated := false) && uidBuf[..] == old(uidBuf[..])
    {
      var reached := Exchange();
      if !reached || session != Session(0, true) {
        Refuse();
        return false;
      }
      CopyPrefix(uidBuf, tag.uid);
      return true;
    }

    /** `SelectApplication`: 0 selects the PICC level; selecting ends any authentication. */
    method SelectApplication(aid: nat) returns (ok: bool)
      requires Valid()
      modifies this
      ensures Valid()
      ensures clock == old(clock) + 1 && present == old(present) && tag == old(tag) && picc == old(picc)
      ensures lastError == if old(Reaches()) then 0 else old(FailureCode())
      ensures ok <==> old(Reaches()) && IsDesfire(tag.cardType) && (aid == 0 || aid in picc.apps)
      ensures ok ==> session == Session(aid, false)
      ensures !ok ==> session == old(session).(authenticated := false)
    {
      var reached := Exchange();
      if !reached || !IsDesfire(tag.cardType) || (aid != 0 && aid !in picc.apps) {
        Refuse();
        return false;
      }
      session := Session(aid, false);
      return true;
    }

    /** `GetKeyVersion(0, &v)`: the version of key 0 at the selected level. */
    method GetKeyVersion() returns (ok: bool, version: byte)
      requires Valid()
      modifies this
      ensures Valid()
      ensures clock == old(clock) + 1 && present == old(present) && tag == old(tag) && picc == old(picc)
      ensures lastError == if old(Reaches()) then 0 else old(FailureCode())
      ensures ok <==> old(Reaches()) && IsDesfire(tag.cardType)
      ensures ok ==> session == old(session) && version == ContextKey(picc, session).version
      ensures !ok ==> session == old(session).(authenticated := false) && version == 0
    {
      var reached := Exchange();
      if !reached || !IsDesfire(tag.cardType) {
        Refuse();
        return false, 0;
      }
      return true, ContextKey(picc, session).version;
    }

    /** `Authenticate(0, key)`: succeeds when `key` is key 0 of the selected level. */
    method Authenticate(key: DesfireKey) returns (ok: bool)
      requires Valid()
      modifies this
      ensures Valid()
      ensures clock == old(clock) + 1 && present == old(present) && tag == old(tag) && picc == old(picc)
      ensures lastError == if old(Reaches()) then 0 else old(FailureCode())
      ensures ok <==> old(Reaches()) && IsDesfire(tag.cardType) && SameKey(key, ContextKey(picc, old(session)))
      ensures ok ==> session == old(session).(authenticated := true)
      ensures !ok ==> session == old(session).(authenticated := false)
    {
      var reached := Exchange();
      if !reached || !IsDesfire(tag.cardType) || !SameKey(key, ContextKey(picc, session)) {
        Refuse();
        return false;
      }
      session := session.(authenticated := true);
      return true;
    }

    /**
     * `ChangeKey(0, newKey, NULL)`: replaces key 0 of the selected level; it
     * needs that key's authentication and, in an application, unfrozen key
     * settings. A changed key always has to be authenticated anew.
     */
    method ChangeKey(newKey: DesfireKey) returns (ok: bool)
      requires Valid()
      modifies this
      ensures Valid()
      ensures clock == old(clock) + 1 && present == old(present) && tag == old(tag)
      ensures lastError == if old(Reaches()) then 0 else old(FailureCode())
      ensures ok <==> (old(Reaches()) && old(session).authenticated
        && (old(session).selected == 0 || old(picc).apps[old(session).selected].settings == KsFactoryDefault))
      ensures ok ==> picc == WithContextKey(old(picc), old(session), newKey)
      ensures !ok ==> picc == old(picc)
      ensures session == old(session).(authenticated := false)
    {
      var reached := Exchange();
      if !reached || !session.authenticated
        || (session.selected != 0 && picc.apps[session.selected].settings != KsFactoryDefault)
      {
        Refuse();
        return false;
      }
      picc := WithContextKey(picc, session, newKey);
      session := session.(authenticated := false);
      return true;
    }

    /**
     * `DeleteApplicationIfExists(aid)`: at the PICC level; deleting an
     * existing application needs the PICC master key's authentication.
     */
    method DeleteApplicationIfExists(aid: nat) returns (ok: bool)
      requires Valid()
      modifies this
      ensures Valid()
      ensures clock == old(clock) + 1 && present == old(present) && tag == old(tag)
      ensures lastError == if old(Reaches()) then 0 else old(FailureCode())
      ensures ok <==> (old(Reaches()) && IsDesfire(tag.cardType) && old(session).selected == 0
        && (aid !in old(picc).apps || old(session).authenticated))
      ensures ok ==> picc == old(picc).(apps := old(picc).apps - {aid}) && session == old(session)
      ensures !ok ==> picc == old(picc) && session == old(session).(authenticated := false)
    {
      var reached := Exchange();
      if !reached || !IsDesfire(tag.cardType) || session.selected != 0
        || (aid in picc.apps && !session.authenticated)
      {
        Refuse();
        return false;
      }
      picc := picc.(apps := picc.apps - {aid});
      return true;
    }

    /**
     * `CreateApplication(aid, settings, 1, keyType)`: a new application with
     * one key, the default key of `keyType`; needs the PICC master key's
     * authentication and an unused id.
     */
    method CreateApplication(aid: nat, settings: KeySettings, keyType: KeyType) returns (ok: bool)
      requires Valid()
      modifies this
      ensures Valid()
      ensures clock == old(clock) + 1 && present == old(present) && tag == old(tag)
      ensures lastError == if old(Reaches()) then 0 else old(FailureCode())
      ensures ok <==> (old(Reaches()) && old(session) == Session(0, true)
        && 0 < aid <= MAX_APPLICATION_ID && aid !in old(picc).apps)
      ensures ok ==> (session == old(session)
        && picc == old(picc).(apps := old(picc).apps[aid := Application(DefaultKey(keyType), settings, map[])]))
      ensures !ok ==> picc == old(picc) && session == old(session).(authenticated := false)
    {
      var reached := Exchange();
      if !reached || session != Session(0, true) || aid == 0 || aid > MAX_APPLICATION_ID || aid in picc.apps {
        Refuse();
        return false;
      }
      picc := picc.(apps := picc.apps[aid := Application(DefaultKey(keyType), settings, map[])]);
      return true;
    }

    /** `ChangeKeySettings(settings)` of the selected, authenticated application. */
    method ChangeKeySettings(settings: KeySettings) returns (ok: bool)
      requires Valid()
      modifies this
      ensures Valid()
      ensures clock == old(clock) + 1 && present == old(present) && tag == old(tag)
      ensures lastError == if old(Reaches()) then 0 else old(FailureCode())
      ensures ok <==> old(Reaches()) && old(session).selected != 0 && old(session).authenticated
      ensures ok ==> (session == old(session)
        && picc == old(picc).(apps := old(picc).apps[session.selected :=
                                        old(picc).apps[session.selected].(settings := settings)]))
      ensures !ok ==> picc == old(picc) && session == old(session).(authenticated := false)
    {
      var reached := Exchange();
      if !reached || session.selected == 0 || !session.authenticated {
        Refuse();
        return false;
      }
      picc := picc.(apps := picc.apps[session.selected := picc.apps[session.selected].(settings := settings)]);
      return true;
    }

    /** `CreateStdDataFile(fid, &perms, size)`: a new zero-filled file in the authenticated application. */
    method CreateStdDataFile(fid: nat, perms: FilePermissions, size: nat) returns (ok: bool)
      requires Valid()
      modifies this
      ensures Valid()
      ensures clock == old(clock) + 1 && present == old(present) && tag == old(tag)
      ensures lastError == if old(Reaches()) then 0 else old(FailureCode())
      ensures ok <==> (old(Reaches()) && old(session).selected != 0 && old(session).authenticated
        && fid !in old(picc).apps[old(session).selected].files)
      ensures ok ==> (session == old(session)
        && picc == WithFiles(old(picc), session.selected,
                             old(picc).apps[session.selected].files[fid := DataFile(perms, Zeros(size))]))
      ensures !ok ==> picc == old(picc) && session == old(session).(authenticated := false)
    {
      var reached := Exchange();
      if !reached || session.selected == 0 || !session.authenticated || fid in picc.apps[session.selected].files {
        Refuse();
        return false;
      }
      var app := picc.apps[session.selected];
      picc := WithFiles(picc, session.selected, app.files[fid := DataFile(perms, Zeros(size))]);
      return true;
    }

    /** `WriteFileData(fid, offset, |data|, data)`: within the file and as its write rights allow. */
    method WriteFileData(fid: nat, offset: nat, data: seq<byte>) returns (ok: bool)
      requires Valid()
      modifies this
      ensures Valid()
      ensures clock == old(clock) + 1 && present == old(present) && tag == old(tag)
      ensures lastError == if old(Reaches()) then 0 else old(FailureCode())
      ensures ok <==> (old(Reaches()) && old(session).selected != 0
        && fid in old(picc).apps[old(session).selected].files
        && MayWrite(old(picc).apps[old(session).selected].files[fid].permissions, old(session).authenticated)
        && offset + |data| <= |old(picc).apps[old(session).selected].files[fid].data|)
      ensures ok ==> (session == old(session)
        && var f := old(picc).apps[session.selected].files[fid];
           picc == WithFiles(old(picc), session.selected,
                             old(picc).apps[session.selected].files[fid := f.(data := Splice(f.data, offset, data))]))
      ensures !ok ==> picc == old(picc) && session == old(session).(authenticated := false)
    {
      var reached := Exchange();
      if !reached || session.selected == 0 || fid !in picc.apps[session.selected].files {
        Refuse();
        return false;
      }
      var app := picc.apps[session.selected];
      var f := app.files[fid];
      if !MayWrite(f.permissions, session.authenticated) || offset + |data| > |f.data| {
        Refuse();
        return false;
      }
      picc := WithFiles(picc, session.selected, app.files[fid := f.(data := Splice(f.data, offset, data))]);
      return true;
    }

    /** `ReadFileData(fid, offset, length, buf)`: within the file and as its read rights allow. */
    method ReadFileData(fid: nat, offset: nat, length: nat) returns (ok: bool, data: seq<byte>)
      requires Valid()
      modifies this
      ensures Valid()
      ensures clock == old(clock) + 1 && present == old(present) && tag == old(tag) && picc == old(picc)
      ensures lastError == if old(Reaches()) then 0 else old(FailureCode())
      ensures ok <==> (old(Reaches()) && old(session).selected != 0
        && fid in picc.apps[old(session).selected].files
        && MayRead(picc.apps[old(session).selected].files[fid].permissions, old(session).authenticated)
        && offset + length <= |picc.apps[old(session).selected].files[fid].data|)
      ensures ok ==> (session == old(session)
        && data == picc.apps[session.selected].files[fid].data[offset..offset + length])
      ensures !ok ==> session == old(session).(authenticated := false) && data == []
    {
      var reached := Exchange();
      if !reached || session.selected == 0 || fid !in picc.apps[session.selected].files {
        Refuse();
        return false, [];
      }
      var f := picc.apps[session.selected].files[fid];
      if !MayRead(f.permissions, session.authenticated) || offset + length > |f.data| {
        Refuse();
        return false, [];
      }
      return true, f.data[offset..offset + length];
    }
  }
}
