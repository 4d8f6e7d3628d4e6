// The card secrets of card.cpp as values: the constants of Secrets.h, the
// derivation of the per-card application key and StoreValue from the card UID
// and a 24-byte name block (GenerateDesfireSecrets), and what a personalised
// card holds (StoreDesfireSecret) and what checking it accepts
// (CheckDesfireSecret).
//
// Secrets.h is not part of this model: its constants are the fields of a
// `Secrets` record. 3DES-CBC encryption is a parameter `encipher` of that
// record, known only to keep the length of its data and to be injective for a
// fixed key (a block cipher in CBC mode with a fixed IV is a bijection).

module CardSecrets {
  import opened Common
  import opened DesfireDriver

  /** `NAME_BUF_SIZE`: the name block `kUser::s8_Name`. */
  const NAME_BUF_SIZE: nat := 24

  /** `enc_key_length`: the user's encryption key stored behind the StoreValue. */
  const ENC_KEY_LENGTH: nat := 16

  /** The StoreValue fills the first sixteen bytes of the secret file. */
  const STORE_VALUE_LENGTH: nat := 16

  /** The derivation buffer `u8_Data`. */
  const SEED_LENGTH: nat := 24

  /** The card UID bytes that enter the derivation. */
  const UID_LENGTH: nat := 7

  ghost predicate CipherLaws(f: (seq<byte>, seq<byte>) -> seq<byte>)
  {
    (forall k, d :: |f(k, d)| == |d|)
    && (forall k, d1, d2 :: f(k, d1) == f(k, d2) ==> d1 == d2)
  }

  /** Encryption under a key: length preserving and injective. */
  type Cipher = f: (seq<byte>, seq<byte>) -> seq<byte> | CipherLaws(f)
    witness (k: seq<byte>, d: seq<byte>) => d

  /** The constants of Secrets.h and the cipher they are used with. */
  datatype Secrets = Secrets(
    piccMasterKey: seq<byte>,   // SECRET_PICC_MASTER_KEY
    applicationKey: seq<byte>,  // SECRET_APPLICATION_KEY
    storeValueKey: seq<byte>,   // SECRET_STORE_VALUE_KEY
    applicationId: nat,         // CARD_APPLICATION_ID
    fileId: nat,               // CARD_FILE_ID
    keyVersion: byte,           // CARD_KEY_VERSION
    encipher: Cipher)           // DES::CryptDataCBC(CBC_SEND, KEY_ENCIPHER, ...)

  /** `SetKeyData` accepts both derivation keys. */
  predicate KeysUsable(s: Secrets)
  {
    ValidKeySize(|s.applicationKey|) && ValidKeySize(|s.storeValueKey|)
  }

  /** `gi_PiccMasterKey`, set from `SECRET_PICC_MASTER_KEY` with version `CARD_KEY_VERSION`. */
  function PiccMasterKey(s: Secrets): DesfireKey
  {
    DesfireKey(s.piccMasterKey, s.keyVersion)
  }

  // ------------------------------------------------------------- derivation

  /**
   * `u8_Data` after the first `n` passes of the fold: the seven UID bytes over
   * a zero buffer, then name byte `N` XORed into byte `N % 16`.
   */
  function Fold(uid: seq<byte>, name: seq<byte>, n: nat): (r: seq<byte>)
    requires |uid| >= UID_LENGTH && n <= |name|
    ensures |r| == SEED_LENGTH && r[16..] == Zeros(SEED_LENGTH - 16)
    decreases n
  {
    if n == 0 then uid[..UID_LENGTH] + Zeros(SEED_LENGTH - UID_LENGTH)
    else
      var prev := Fold(uid, name, n - 1);
      prev[(n - 1) % 16 := prev[(n - 1) % 16] ^ name[n - 1]]
  }

  /** The derivation buffer of `GenerateDesfireSecrets`. */
  function DerivationSeed(uid: seq<byte>, name: seq<byte>): (r: seq<byte>)
    requires |uid| >= UID_LENGTH && |name| == NAME_BUF_SIZE
    ensures |r| == SEED_LENGTH && r[16..] == Zeros(SEED_LENGTH - 16)
  {
    Fold(uid, name, |name|)
  }

  /** The starting value of byte `j` of the buffer. */
  function UidByte(uid: seq<byte>, j: nat): byte
    requires |uid| >= UID_LENGTH
  {
    if j < UID_LENGTH then uid[j] else 0
  }

  /** Byte `j` of the buffer after `n` passes, in closed form. */
  function PartialSeedByte(uid: seq<byte>, name: seq<byte>, n: nat, j: nat): byte
    requires |uid| >= UID_LENGTH && n <= |name| <= 32
  {
    if j >= 16 then 0
    else UidByte(uid, j) ^ (if j < n then name[j] else 0) ^ (if 16 + j < n then name[16 + j] else 0)
  }

  lemma {:induction false} FoldClosedForm(uid: seq<byte>, name: seq<byte>, n: nat)
    requires |uid| >= UID_LENGTH && n <= |name| <= 32
    ensures forall j :: 0 <= j < SEED_LENGTH ==> Fold(uid, name, n)[j] == PartialSeedByte(uid, name, n, j)
  {
    if n > 0 {
      FoldClosedForm(uid, name, n - 1);
      var b := (n - 1) % 16;
      forall j | 0 <= j < SEED_LENGTH
        ensures Fold(uid, name, n)[j] == PartialSeedByte(uid, name, n, j)
      {
        if j == b {
          if n - 1 < 16 {
            assert j == n - 1;
          } else {
            assert 16 + j == n - 1;
          }
        }
      }
    }
  }

  /**
   * The fold wraps at sixteen: bytes 16..23 of the buffer stay zero, byte `j`
   * below sixteen is its UID byte (none after the seventh) XOR name byte `j`
   * XOR, for `j` below eight, name byte `16 + j`.
   */
  lemma DerivationSeedClosedForm(uid: seq<byte>, name: seq<byte>)
    requires |uid| >= UID_LENGTH && |name| == NAME_BUF_SIZE
    ensures forall j :: 16 <= j < SEED_LENGTH ==> DerivationSeed(uid, name)[j] == 0
    ensures forall j :: 0 <= j < 8 ==> DerivationSeed(uid, name)[j] == UidByte(uid, j) ^ name[j] ^ name[16 + j]
    ensures forall j :: 8 <= j < 16 ==> DerivationSeed(uid, name)[j] == UidByte(uid, j) ^ name[j]
  {
    FoldClosedForm(uid, name, |name|);
  }

  /** The application master key of a card: version `CARD_KEY_VERSION`, 24 key bytes. */
  function AppKeyFor(s: Secrets, uid: seq<byte>, name: seq<byte>): (k: DesfireKey)
    requires |uid| >= UID_LENGTH && |name| == NAME_BUF_SIZE
    ensures k.version == s.keyVersion && |k.material| == SEED_LENGTH && KeyTypeOf(k) == ThreeKeyDes
  {
    DesfireKey(s.encipher(s.applicationKey, DerivationSeed(uid, name)), s.keyVersion)
  }

  /** The sixteen-byte StoreValue of a card: the first sixteen buffer bytes, enciphered. */
  function StoreValueFor(s: Secrets, uid: seq<byte>, name: seq<byte>): (v: seq<byte>)
    requires |uid| >= UID_LENGTH && |name| == NAME_BUF_SIZE
    ensures |v| == STORE_VALUE_LENGTH
  {
    s.encipher(s.storeValueKey, DerivationSeed(uid, name)[..16])
  }

  /** Only the first seven UID bytes enter the derivation. */
  lemma SeedIgnoresUidTail(uid1: seq<byte>, uid2: seq<byte>, name: seq<byte>)
    requires |uid1| >= UID_LENGTH && |uid2| >= UID_LENGTH && |name| == NAME_BUF_SIZE
    requires uid1[..UID_LENGTH] == uid2[..UID_LENGTH]
    ensures DerivationSeed(uid1, name) == DerivationSeed(uid2, name)
  {
    FoldIgnoresUidTail(uid1, uid2, name, |name|);
  }

  lemma {:induction false} FoldIgnoresUidTail(uid1: seq<byte>, uid2: seq<byte>, name: seq<byte>, n: nat)
    requires |uid1| >= UID_LENGTH && |uid2| >= UID_LENGTH && n <= |name|
    requires uid1[..UID_LENGTH] == uid2[..UID_LENGTH]
    ensures Fold(uid1, name, n) == Fold(uid2, name, n)
  {
    if n > 0 {
      FoldIgnoresUidTail(uid1, uid2, name, n - 1);
    }
  }

  /** Byte `j` of the derivation buffer, in closed form. */
  lemma SeedByte(uid: seq<byte>, name: seq<byte>, j: nat)
    requires |uid| >= UID_LENGTH && |name| == NAME_BUF_SIZE && j < SEED_LENGTH
    ensures DerivationSeed(uid, name)[j] == PartialSeedByte(uid, name, NAME_BUF_SIZE, j)
  {
    FoldClosedForm(uid, name, |name|);
  }

  /** Two cards whose UIDs differ never share an application key or a StoreValue. */
  lemma DistinctCardsDistinctSecrets(s: Secrets, uid1: seq<byte>, uid2: seq<byte>, name: seq<byte>)
    requires |uid1| >= UID_LENGTH && |uid2| >= UID_LENGTH && |name| == NAME_BUF_SIZE
    requires uid1[..UID_LENGTH] != uid2[..UID_LENGTH]
    ensures AppKeyFor(s, uid1, name).material != AppKeyFor(s, uid2, name).material
    ensures StoreValueFor(s, uid1, name) != StoreValueFor(s, uid2, name)
  {
    var j :| 0 <= j < UID_LENGTH && uid1[j] != uid2[j];
    SeedByte(uid1, name, j);
    SeedByte(uid2, name, j);
    var d1, d2 := DerivationSeed(uid1, name), DerivationSeed(uid2, name);
    assert d1[j] != d2[j];
    assert d1[..16][j] != d2[..16][j];
  }

  /**
   * Two name blocks that differ in exactly one byte never share an
   * application key or a StoreValue: byte `i` lands, alone among the
   * differing bytes, in buffer byte `i % 16`.
   */
  lemma OneByteNameChangesSecrets(s: Secrets, uid: seq<byte>, name1: seq<byte>, name2: seq<byte>, i: nat)
    requires |uid| >= UID_LENGTH && |name1| == NAME_BUF_SIZE && |name2| == NAME_BUF_SIZE
    requires i < NAME_BUF_SIZE && name1[i] != name2[i]
    requires forall k :: 0 <= k < NAME_BUF_SIZE && k != i ==> name1[k] == name2[k]
    ensures AppKeyFor(s, uid, name1).material != AppKeyFor(s, uid, name2).material
    ensures StoreValueFor(s, uid, name1) != StoreValueFor(s, uid, name2)
  {
    var j := i % 16;
    OneByteNameChangesSeedByte(uid, name1, name2, i);
    SeedByte(uid, name1, j);
    SeedByte(uid, name2, j);
    var d1, d2 := DerivationSeed(uid, name1), DerivationSeed(uid, name2);
    assert d1[j] != d2[j];
    assert d1[..16][j] != d2[..16][j];
  }

  /** The closed-form byte `i % 16` of the fold tells apart two names differing only at `i`. */
  lemma OneByteNameChangesSeedByte(uid: seq<byte>, name1: seq<byte>, name2: seq<byte>, i: nat)
    requires |uid| >= UID_LENGTH && |name1| == NAME_BUF_SIZE && |name2| == NAME_BUF_SIZE
    requires i < NAME_BUF_SIZE && name1[i] != name2[i]
    requires forall k :: 0 <= k < NAME_BUF_SIZE && k != i ==> name1[k] == name2[k]
    ensures PartialSeedByte(uid, name1, NAME_BUF_SIZE, i % 16) != PartialSeedByte(uid, name2, NAME_BUF_SIZE, i % 16)
  {
    if i < 16 {
      assert i % 16 == i;
      var c1 := if 16 + i < NAME_BUF_SIZE then name1[16 + i] else 0;
      var c2 := if 16 + i < NAME_BUF_SIZE then name2[16 + i] else 0;
      assert c1 == c2;
      XorCancels(UidByte(uid, i), name1[i], name2[i], c1);
    } else {
      var j := i - 16;
      assert i % 16 == j;
      assert name1[j] == name2[j];
      XorCancels(UidByte(uid, j) ^ name1[j], name1[i], name2[i], 0);
    }
  }

  /** XOR with the same bytes on both sides keeps two different bytes apart. */
  lemma XorCancels(u: byte, x: byte, y: byte, c: byte)
    requires x != y
    ensures u ^ x ^ c != u ^ y ^ c
  {
  }

  /**
   * The name block is folded to sixteen bytes: name byte `16 + j` only
   * counts XORed with name byte `j`, so two name blocks that agree on those
   * sixteen combinations give the same secrets.
   */
  lemma FoldedNamesCollide(uid: seq<byte>, name1: seq<byte>, name2: seq<byte>)
    requires |uid| >= UID_LENGTH && |name1| == NAME_BUF_SIZE && |name2| == NAME_BUF_SIZE
    requires forall j :: 0 <= j < 8 ==> name1[j] ^ name1[16 + j] == name2[j] ^ name2[16 + j]
    requires name1[8..16] == name2[8..16]
    ensures DerivationSeed(uid, name1) == DerivationSeed(uid, name2)
  {
    forall j | 0 <= j < SEED_LENGTH
      ensures DerivationSeed(uid, name1)[j] == DerivationSeed(uid, name2)[j]
    {
      if 8 <= j < 16 {
        assert name1[j] == name1[8..16][j - 8];
        assert name2[j] == name2[8..16][j - 8];
      }
      FoldedNameByte(uid, name1, name2, j);
    }
  }

  lemma FoldedNameByte(uid: seq<byte>, name1: seq<byte>, name2: seq<byte>, j: nat)
    requires |uid| >= UID_LENGTH && |name1| == NAME_BUF_SIZE && |name2| == NAME_BUF_SIZE && j < SEED_LENGTH
    requires j < 8 ==> name1[j] ^ name1[16 + j] == name2[j] ^ name2[16 + j]
    requires 8 <= j < 16 ==> name1[j] == name2[j]
    ensures DerivationSeed(uid, name1)[j] == DerivationSeed(uid, name2)[j]
  {
    SeedByte(uid, name1, j);
    SeedByte(uid, name2, j);
  }

  /**
   * `GenerateDesfireSecrets`: fails only when `SetKeyData` rejects a secret
   * key; otherwise returns the card's application master key and StoreValue.
   */
  method GenerateDesfireSecrets(s: Secrets, uid: seq<byte>, name: seq<byte>)
    returns (ok: bool, appMasterKey: DesfireKey, storeValue: seq<byte>)
    requires |uid| >= UID_LENGTH && |name| == NAME_BUF_SIZE
    ensures ok == KeysUsable(s)
    ensures ok ==> appMasterKey == AppKeyFor(s, uid, name) && storeValue == StoreValueFor(s, uid, name)
  {
    var data := NewSeedBuffer(uid);
    FoldNameInto(data, uid, name);
    if !ValidKeySize(|s.applicationKey|) {
      return false, DesfireKey([], 0), [];
    }
    var appKeyBytes := s.encipher(s.applicationKey, data[..]);
    if !ValidKeySize(|s.storeValueKey|) {
      return false, DesfireKey([], 0), [];
    }
    storeValue := s.encipher(s.storeValueKey, data[..16]);
    appMasterKey := DesfireKey(appKeyBytes, s.keyVersion);
    return true, appMasterKey, storeValue;
  }

  /** The zeroed 24-byte `u8_Data` with the seven UID bytes copied to its head. */
  method NewSeedBuffer(uid: seq<byte>) returns (data: array<byte>)
    requires |uid| >= UID_LENGTH
    ensures fresh(data) && data.Length == SEED_LENGTH
    ensures forall j :: 0 <= j < SEED_LENGTH ==> data[j] == UidByte(uid, j)
  {
    data := new byte[SEED_LENGTH](_ => 0);
    var i := 0;
    while i < UID_LENGTH
      invariant 0 <= i <= UID_LENGTH
      invariant forall j :: 0 <= j < i ==> data[j] == uid[j]
      invariant forall j :: i <= j < SEED_LENGTH ==> data[j] == 0
    {
      data[i] := uid[i];
      i := i + 1;
    }
  }

  /** The buffer index of `FoldNameInto` wraps from 15 back to 0. */
  lemma CyclicStep(n: nat)
    ensures (n + 1) % 16 == if n % 16 == 15 then 0 else n % 16 + 1
  {
  }

  /** One pass of the fold changes byte `n % 16` only, by XOR with name byte `n`. */
  lemma PartialSeedStep(uid: seq<byte>, name: seq<byte>, n: nat, j: nat)
    requires |uid| >= UID_LENGTH && n < |name| <= 32 && j < SEED_LENGTH
    ensures PartialSeedByte(uid, name, n + 1, j)
            == if j == n % 16 then PartialSeedByte(uid, name, n, j) ^ name[n] else PartialSeedByte(uid, name, n, j)
  {
    var u := UidByte(uid, j);
    if j < 16 && j == n % 16 {
      if n < 16 {
        assert j == n;
        assert (u ^ 0 ^ 0) ^ name[n] == u ^ name[n] ^ 0;
      } else {
        assert 16 + j == n;
        assert (u ^ name[j] ^ 0) ^ name[n] == u ^ name[j] ^ name[n];
      }
    }
  }

  /** XORs the name bytes into the buffer, cycling over its first sixteen bytes. */
  method FoldNameInto(data: array<byte>, uid: seq<byte>, name: seq<byte>)
    requires |uid| >= UID_LENGTH && |name| == NAME_BUF_SIZE
    requires data.Length == SEED_LENGTH
    requires forall j :: 0 <= j < SEED_LENGTH ==> data[j] == UidByte(uid, j)
    modifies data
    ensures data[..] == DerivationSeed(uid, name)
  {
    var b := 0;
    var n := 0;
    while n < |name|
      invariant 0 <= n <= |name| && b == n % 16
      invariant forall j :: 0 <= j < SEED_LENGTH ==> data[j] == PartialSeedByte(uid, name, n, j)
    {
      forall j | 0 <= j < SEED_LENGTH {
        PartialSeedStep(uid, name, n, j);
      }
      data[b] := data[b] ^ name[n];
      CyclicStep(n);
      b := if b == 15 then 0 else b + 1;
      n := n + 1;
    }
    FoldClosedForm(uid, name, n);
  }

  // ------------------------------------------------------- personalised card

  /** `k_Permis`: every access right needs key 0 of the application. */
  const KEY0_ONLY: FilePermissions := FilePermissions(ArKey0, ArKey0, ArKey0, ArKey0)

  /** The application `StoreDesfireSecret` leaves on a card. */
  function PersonalizedApp(s: Secrets, uid: seq<byte>, name: seq<byte>, encKey: seq<byte>): Application
    requires |uid| >= UID_LENGTH && |name| == NAME_BUF_SIZE
  {
    Application(AppKeyFor(s, uid, name), KsChangeKeyFrozen,
                map[s.fileId := DataFile(KEY0_ONLY, StoreValueFor(s, uid, name) + encKey)])
  }

  /** A card after `StoreDesfireSecret`: its one application replaced, nothing else touched. */
  function Personalized(p: Picc, s: Secrets, uid: seq<byte>, name: seq<byte>, encKey: seq<byte>): Picc
    requires |uid| >= UID_LENGTH && |name| == NAME_BUF_SIZE
  {
    p.(apps := p.apps[s.applicationId := PersonalizedApp(s, uid, name, encKey)])
  }

  /** The PICC master key `AuthenticatePICC` tries: the secret one at version `CARD_KEY_VERSION`, else the default. */
  function PiccKeyTried(s: Secrets, version: byte): DesfireKey
  {
    if version == s.keyVersion then PiccMasterKey(s) else DES2_DEFAULT_KEY
  }

  /** `AuthenticatePICC` gets through on a card with this PICC master key. */
  predicate PiccAuthAccepts(s: Secrets, p: Picc)
  {
    SameKey(PiccKeyTried(s, p.masterKey.version), p.masterKey)
  }

  /**
   * What `CheckDesfireSecret` accepts: a PICC key at version
   * `CARD_KEY_VERSION`, the application keyed with the card's derived key,
   * and a readable file of at least 32 bytes that starts with the card's
   * StoreValue.
   */
  predicate CheckAccepts(s: Secrets, p: Picc, uid: seq<byte>, name: seq<byte>)
    requires |uid| >= UID_LENGTH && |name| == NAME_BUF_SIZE
  {
    KeysUsable(s)
    && p.masterKey.version == s.keyVersion
    && s.applicationId in p.apps
    && SameKey(AppKeyFor(s, uid, name), p.apps[s.applicationId].masterKey)
    && s.fileId in p.apps[s.applicationId].files
    && MayRead(p.apps[s.applicationId].files[s.fileId].permissions, true)
    && |p.apps[s.applicationId].files[s.fileId].data| >= STORE_VALUE_LENGTH + ENC_KEY_LENGTH
    && p.apps[s.applicationId].files[s.fileId].data[..STORE_VALUE_LENGTH] == StoreValueFor(s, uid, name)
  }

  /** The encryption key `CheckDesfireSecret` hands back: file bytes 16..31. */
  function CheckedKey(s: Secrets, p: Picc, uid: seq<byte>, name: seq<byte>): (k: seq<byte>)
    requires |uid| >= UID_LENGTH && |name| == NAME_BUF_SIZE && CheckAccepts(s, p, uid, name)
    ensures |k| == ENC_KEY_LENGTH
  {
    p.apps[s.applicationId].files[s.fileId].data[STORE_VALUE_LENGTH..STORE_VALUE_LENGTH + ENC_KEY_LENGTH]
  }

  /**
   * Storing the secret and then checking it with the same UID and name block
   * accepts and returns exactly the stored encryption key.
   */
  lemma StoreThenCheck(s: Secrets, p: Picc, uid: seq<byte>, name: seq<byte>, encKey: seq<byte>)
    requires |uid| >= UID_LENGTH && |name| == NAME_BUF_SIZE && |encKey| == ENC_KEY_LENGTH
    requires KeysUsable(s) && p.masterKey.version == s.keyVersion
    ensures CheckAccepts(s, Personalized(p, s, uid, name, encKey), uid, name)
    ensures CheckedKey(s, Personalized(p, s, uid, name, encKey), uid, name) == encKey
  {
    var data := StoreValueFor(s, uid, name) + encKey;
    var q := Personalized(p, s, uid, name, encKey);
    var app := PersonalizedApp(s, uid, name, encKey);
    assert q.apps[s.applicationId] == app;
    assert app.files == map[s.fileId := DataFile(KEY0_ONLY, data)];
    assert app.files[s.fileId] == DataFile(KEY0_ONLY, data);
    assert data[..STORE_VALUE_LENGTH] == StoreValueFor(s, uid, name);
    assert data[STORE_VALUE_LENGTH..STORE_VALUE_LENGTH + ENC_KEY_LENGTH] == encKey;
  }

  /** A card personalised for one UID is refused when presented with another. */
  lemma CheckRejectsOtherCard(s: Secrets, p: Picc, uid1: seq<byte>, uid2: seq<byte>, name: seq<byte>, encKey: seq<byte>)
    requires |uid1| >= UID_LENGTH && |uid2| >= UID_LENGTH && |name| == NAME_BUF_SIZE
    requires uid1[..UID_LENGTH] != uid2[..UID_LENGTH]
    ensures !CheckAccepts(s, Personalized(p, s, uid1, name, encKey), uid2, name)
  {
    DistinctCardsDistinctSecrets(s, uid1, uid2, name);
  }

  /**
   * A card personalised for one name block is refused when checked with a
   * name block that differs from it in one byte.
   */
  lemma CheckRejectsOtherName(s: Secrets, p: Picc, uid: seq<byte>, name1: seq<byte>, name2: seq<byte>, i: nat,
                              encKey: seq<byte>)
    requires |uid| >= UID_LENGTH && |name1| == NAME_BUF_SIZE && |name2| == NAME_BUF_SIZE
    requires i < NAME_BUF_SIZE && name1[i] != name2[i]
    requires forall k :: 0 <= k < NAME_BUF_SIZE && k != i ==> name1[k] == name2[k]
    ensures !CheckAccepts(s, Personalized(p, s, uid, name1, encKey), uid, name2)
  {
    OneByteNameChangesSecrets(s, uid, name1, name2, i);
  }

  /** Personalising a card again with the same inputs leaves it as it was. */
  lemma PersonalizedIdempotent(p: Picc, s: Secrets, uid: seq<byte>, name: seq<byte>, encKey: seq<byte>)
    requires |uid| >= UID_LENGTH && |name| == NAME_BUF_SIZE
    ensures Personalized(Personalized(p, s, uid, name, encKey), s, uid, name, encKey)
         == Personalized(p, s, uid, name, encKey)
  {
  }
}
