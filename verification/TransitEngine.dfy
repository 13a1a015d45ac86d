/** The Transit engine: src/transit/service.py. */
module TransitEngine {
  import opened Text
  import opened Base64
  import opened Crypto
  import opened TransitToken
  import opened Aad
  import opened Names
  import opened VersionedTables
  import opened World
  import KeyStore
  import KvEngine

  const ENCRYPT_DECRYPT: string := "ENCRYPT_DECRYPT"
  const SIGN_VERIFY: string := "SIGN_VERIFY"
  const ED25519: string := "ED25519"

  /** The one signing algorithm, in any case. */
  lemma AlgorithmMeans(algorithm: string)
    ensures IsUppered(algorithm, "ED25519") <==> Upper(algorithm) == ED25519
  {
    LowerMeans(algorithm, "ED25519");
  }

  datatype Try<+T> = Ok(value: T) | Err(error: Error)

  // ------------------------------------------------------------------- helpers

  /** `_owned_key`: None when the caller owns a key of that name. */
  function OwnedError(s: Sys, user: string, name: string): Option<Error> {
    if !ValidName(name) then Some(InvalidKeyName)
    else if (user, name) !in s.keys.parents then Some(KeyUnavailable)
    else None
  }

  /** Only the missing or foreign key is written to the audit log. */
  function Refuse(p: Prims, s: Sys, user: string, name: string, now: string, error: Error): (Sys, Resp) {
    (if error == KeyUnavailable then KvEngine.Denied(p, s, user, "named_key", name, now) else s, Failed(error))
  }

  function InfoOf(t: KeyStore.KeyTables, key: Key): Info
    requires key in t.parents
  {
    var row := t.parents[key];
    Info(key.1, row.meta.usage, row.meta.algorithm, row.latest, ListVersions(t, key), row.meta.created,
         row.meta.updated)
  }

  /** `_key_version` and `_unwrap`. */
  function Unwrap(s: Sys, key: Key, version: int): Try<Bytes>
    requires key in s.keys.parents && s.vault.dek.Some?
  {
    var row := s.keys.parents[key];
    if (row.id, version) !in s.keys.rows then Err(KeyVersionUnavailable)
    else
      var aad := KeyAad(key.0, key.1, row.meta.usage, row.meta.algorithm, version);
      match OpenColumns(s.ledger, s.vault.dek.value, s.keys.rows[(row.id, version)].material.columns, aad)
      case Plain(material) => Ok(material)
      case _ => Err(TransitTampered)
  }

  function AlgorithmOf(usage: string): Option<string> {
    if usage == SIGN_VERIFY then Some(ED25519) else None
  }

  /** `_wrap_aes` and `_wrap_ed25519` for one version; None is the ValueError of a
      DEK of the wrong length. */
  function WrapFor(p: Prims, ledger: Ledger, dek: Bytes, key: Key, usage: string, mint: Mint, version: int)
    : Option<(Ledger, KeyStore.Material)>
  {
    match Encrypt(ledger, dek, mint.material, KeyAad(key.0, key.1, usage, AlgorithmOf(usage), version), mint.draw)
    case None => None
    case Some((ledger', blob)) =>
      var public := if usage == SIGN_VERIFY then Some(Encode(p.publicKey(mint.material))) else None;
      Some((ledger', KeyStore.Material(ToColumns(blob), public)))
  }

  /** The state once new material was wrapped. */
  function Wrap(p: Prims, s: Sys, key: Key, usage: string, version: int, mint: Mint)
    : Option<(Sys, KeyStore.Material)>
    requires s.vault.dek.Some?
  {
    match WrapFor(p, s.ledger, s.vault.dek.value, key, usage, mint, version)
    case None => None
    case Some((ledger, material)) =>
      Some((s.(ledger := ledger, minted := s.minted[mint.material := Holder(key.0, usage)]), material))
  }

  function DecodePayload(text: string): Try<Bytes> {
    match Decode(text) case None => Err(InvalidBase64Payload) case Some(b) => Ok(b)
  }

  function MessageDigest(p: Prims, message: string, messageType: string): Try<Bytes> {
    match DecodePayload(message)
    case Err(e) => Err(e)
    case Ok(bytes) =>
      if Upper(messageType) == "RAW" then Ok(p.sha256(bytes))
      else if Upper(messageType) == "DIGEST" then
        if |bytes| != 32 then Err(InvalidDigestLength) else Ok(bytes)
      else Err(InvalidMessageType)
  }

  // ------------------------------------------------------------- key lifecycle

  function Install(p: Prims, s: Sys, user: string, name: string, usage: string, now: string, mint: Mint): (Sys, Resp)
    requires s.vault.dek.Some?
  {
    if (user, name) in s.keys.parents then (s, Failed(KeyAlreadyExists))
    else
      match Wrap(p, s, (user, name), usage, 1, mint)
      case None => (s, Failed(Internal))
      case Some((s', material)) =>
        match KeyStore.Create(s.keys, (user, name), usage, AlgorithmOf(usage), now, material)
        case None => (s', Failed(KeyAlreadyExists))
        case Some(t) =>
          if (user, name) in t.parents then (s'.(keys := t), KeyInfo(InfoOf(t, (user, name))))
          else (s', Failed(Internal))
  }

  function Create(p: Prims, s: Sys, user: string, name: string, now: string, mint: Mint): (Sys, Resp) {
    if !ValidName(name) then (s, Failed(InvalidKeyName))
    else if s.vault.dek.None? then (s, Failed(VaultLocked))
    else Install(p, s, user, name, ENCRYPT_DECRYPT, now, mint)
  }

  function CreateSigning(p: Prims, s: Sys, user: string, name: string, algorithm: string, now: string, mint: Mint)
    : (Sys, Resp)
  {
    if !ValidName(name) then (s, Failed(InvalidKeyName))
    else if Upper(algorithm) != ED25519 then (s, Failed(InvalidSigningAlgorithm))
    else if s.vault.dek.None? then (s, Failed(VaultLocked))
    else Install(p, s, user, name, SIGN_VERIFY, now, mint)
  }

  /** A rotated key keeps its usage. */
  function RotatedUsage(t: KeyStore.KeyTables, key: Key): string {
    if key in t.parents && t.parents[key].meta.usage != ENCRYPT_DECRYPT then SIGN_VERIFY else ENCRYPT_DECRYPT
  }

  function Rotate(p: Prims, s: Sys, user: string, name: string, now: string, mint: Mint): (Sys, Resp) {
    if OwnedError(s, user, name).Some? then Refuse(p, s, user, name, now, OwnedError(s, user, name).value)
    else if s.vault.dek.None? then (s, Failed(VaultLocked))
    else
      var usage := RotatedUsage(s.keys, (user, name));
      match Wrap(p, s, (user, name), usage, NextVersion(s.keys, (user, name)), mint)
      case None => (s, Failed(Internal))
      case Some((s', material)) =>
        match KeyStore.Rotate(s.keys, (user, name), now, material)
        case Rotated(t) =>
          if (user, name) in t.parents then (s'.(keys := t), KeyInfo(InfoOf(t, (user, name))))
          else (s', Failed(Internal))
        case _ => (s', Failed(Internal))
  }

  function List(s: Sys, user: string): (Sys, Resp) {
    if s.vault.dek.None? then (s, Failed(VaultLocked))
    else (s, KeyList(InfosOf(s.keys, user)))
  }

  /** One user's keys in the order of their names. */
  function InfosOf(t: KeyStore.KeyTables, user: string): (infos: seq<Info>)
    ensures var names := NamesOf(t.parents, user);
            |infos| == |names| && forall k :: 0 <= k < |names| ==> infos[k] == InfoOf(t, (user, names[k]))
  {
    var names := NamesOf(t.parents, user);
    seq(|names|, k requires 0 <= k < |names| => assert names[k] in names; InfoOf(t, (user, names[k])))
  }

  function Delete(p: Prims, s: Sys, user: string, name: string, now: string): (Sys, Resp) {
    if OwnedError(s, user, name).Some? then Refuse(p, s, user, name, now, OwnedError(s, user, name).value)
    else if s.vault.dek.None? then (s, Failed(VaultLocked))
    else (s.(keys := KeyStore.DeleteOwned(s.keys, (user, name)).0), Deleted)
  }

  // ------------------------------------------------------------ encrypt/decrypt

  function EncryptData(p: Prims, s: Sys, user: string, name: string, text: string, now: string, draw: Draw)
    : (Sys, Resp)
  {
    if OwnedError(s, user, name).Some? then Refuse(p, s, user, name, now, OwnedError(s, user, name).value)
    else
      var row := s.keys.parents[(user, name)];
      if row.meta.usage != ENCRYPT_DECRYPT then (s, Failed(InvalidKeyUsage))
      else if s.vault.dek.None? then (s, Failed(VaultLocked))
      else if DecodePayload(text).Err? then (s, Failed(InvalidBase64Payload))
      else
        match Unwrap(s, (user, name), row.latest)
        case Err(e) => (s, Failed(e))
        case Ok(material) =>
          if |material| != 32 then (s, Failed(TransitTampered))
          else
            match Encrypt(s.ledger, material, DecodePayload(text).value, DataAad(user, name, row.latest), draw)
            case None => (s, Failed(TransitTampered))
            case Some((ledger, blob)) =>
              match Format(name, row.latest, blob)
              case None => (s.(ledger := ledger), Failed(Internal))
              case Some(token) => (s.(ledger := ledger), Encrypted(name, row.latest, token))
  }

  function DecryptData(p: Prims, s: Sys, user: string, text: string, now: string): (Sys, Resp) {
    match Parse(text)
    case None => (s, Failed(MalformedCiphertext))
    case Some(token) =>
      if OwnedError(s, user, token.name).Some? then
        Refuse(p, s, user, token.name, now, OwnedError(s, user, token.name).value)
      else if s.keys.parents[(user, token.name)].meta.usage != ENCRYPT_DECRYPT then (s, Failed(InvalidKeyUsage))
      else if s.vault.dek.None? then (s, Failed(VaultLocked))
      else
        match Unwrap(s, (user, token.name), token.version)
        case Err(e) => (s, Failed(e))
        case Ok(material) =>
          match Decrypt(s.ledger, material, token.blob, DataAad(user, token.name, token.version))
          case Plain(plaintext) => (s, Decrypted(token.name, token.version, Encode(plaintext)))
          case _ => (s, Failed(TransitTampered))
  }

  // ---------------------------------------------------------------- sign/verify

  /** The checks `sign` and `verify` share, up to the digest. */
  function SigningError(p: Prims, s: Sys, user: string, name: string, message: string, messageType: string,
                        algorithm: string) : Option<Error>
    requires (user, name) in s.keys.parents
  {
    var row := s.keys.parents[(user, name)];
    if row.meta.usage != SIGN_VERIFY then Some(InvalidKeyUsage)
    else if Some(Upper(algorithm)) != row.meta.algorithm then Some(InvalidSigningAlgorithm)
    else if s.vault.dek.None? then Some(VaultLocked)
    else if MessageDigest(p, message, messageType).Err? then Some(MessageDigest(p, message, messageType).error)
    else None
  }

  function Sign(p: Prims, s: Sys, user: string, name: string, message: string, messageType: string,
                algorithm: string, now: string, signed: Bytes) : (Sys, Resp)
  {
    if OwnedError(s, user, name).Some? then Refuse(p, s, user, name, now, OwnedError(s, user, name).value)
    else
      var error := SigningError(p, s, user, name, message, messageType, algorithm);
      if error.Some? then (s, Failed(error.value))
      else
        var row := s.keys.parents[(user, name)];
        match Unwrap(s, (user, name), row.latest)
        case Err(e) => (s, Failed(e))
        case Ok(private) =>
          if |private| != 32 then (s, Failed(TransitTampered))
          else
            var digest := MessageDigest(p, message, messageType).value;
            (s.(signatures := s.signatures + {Signature(p.publicKey(private), digest, signed)}),
             Signed(name, row.latest, row.meta.algorithm.value, Encode(signed)))
  }

  /** One pass of the loop of `verify`: does this version's stored public key accept? */
  predicate Accepts(s: Sys, key: Key, digest: Bytes, signature: Bytes, version: int)
    requires key in s.keys.parents
  {
    var row := (s.keys.parents[key].id, version);
    && row in s.keys.rows
    && var public := s.keys.rows[row].material.publicKey;
    && public.Some? && public.value != "" && Decode(public.value).Some? && |Decode(public.value).value| == 32
    && Signature(Decode(public.value).value, digest, signature) in s.signatures
  }

  /** The candidate the loop stops at, trying the last one first. */
  function MatchLast(s: Sys, key: Key, digest: Bytes, signature: Bytes, candidates: seq<int>): Option<int>
    requires key in s.keys.parents
  {
    if candidates == [] then None
    else if Accepts(s, key, digest, signature, candidates[|candidates| - 1]) then Some(candidates[|candidates| - 1])
    else MatchLast(s, key, digest, signature, candidates[..|candidates| - 1])
  }

  function Verify(p: Prims, s: Sys, user: string, name: string, message: string, messageType: string,
                  signature: string, algorithm: string, version: Option<int>, now: string) : (Sys, Resp)
  {
    if OwnedError(s, user, name).Some? then Refuse(p, s, user, name, now, OwnedError(s, user, name).value)
    else
      var error := SigningError(p, s, user, name, message, messageType, algorithm);
      if error.Some? then (s, Failed(error.value))
      else
        var row := s.keys.parents[(user, name)];
        if version.Some? && (row.id, version.value) !in s.keys.rows then (s, Failed(KeyVersionUnavailable))
        else
          var candidates := if version.Some? then [version.value] else ListVersions(s.keys, (user, name));
          var digest := MessageDigest(p, message, messageType).value;
          var matched := if Decode(signature).None? then None
                         else MatchLast(s, (user, name), digest, Decode(signature).value, candidates);
          (s, Verified(name, matched, row.meta.algorithm.value, matched.Some?))
  }
}
