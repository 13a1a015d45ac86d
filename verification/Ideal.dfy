/** What MiniVault is for, without tables, ids, wrapping or encoding: plain maps
    from (owner, name) to the sequence of everything stored there.  Requests and
    answers are those of the real machine. */
module Ideal {
  import opened Passphrase
  import opened Text
  import opened Base64
  import opened Crypto
  import opened Sorting
  import opened TransitToken
  import opened KvPaths
  import opened Names
  import opened VersionedTables
  import opened KvStore
  import opened World
  import VaultEngine
  import T = TransitEngine

  /** `open` says whether the DEK is in memory. */
  datatype IVault = Fresh | Made(salt: Bytes, params: KdfParams, wrappingKey: Bytes, dek: Bytes, open: bool)

  datatype Entry = Entry(data: Bytes, created: string)

  datatype Record = Record(created: string, entries: seq<Entry>)

  datatype KeyRecord = KeyRecord(usage: string, created: string, updated: string, entries: seq<Entry>)

  /** A ciphertext a user was given: whose, under which version and material. */
  datatype IBox = IBox(owner: string, name: string, version: int, material: Bytes, nonce: Bytes, body: Bytes)

  datatype ISigned = ISigned(owner: string, material: Bytes, digest: Bytes, signature: Bytes)

  datatype State = State(
    vault: IVault,
    kv: map<Key, Record>,
    keys: map<Key, KeyRecord>,
    sealed: map<IBox, Bytes>,
    signed: set<ISigned>)

  const START := State(Fresh, map[], map[], map[], {})

  predicate IsOpen(s: State) {
    s.vault.Made? && s.vault.open
  }

  // ----------------------------------------------------------------- the vault

  function Initialize(p: Prims, v: IVault, passphrase: string, params: KdfParams, salt: Bytes, dek: Bytes)
    : (IVault, Resp)
  {
    if v.Made? then (v, Failed(VaultAlreadyInitialized))
    else if !Strong(passphrase) then (v, Failed(PassphrasePolicy))
    else
      var key := VaultEngine.WrappingKey(p, passphrase, salt, params);
      if key.None? || |key.value| != 32 then (v, Failed(Internal))
      else (Made(salt, params, key.value, dek, false), Status(true, false))
  }

  /** Whether a passphrase opens the vault depends on what was stored when it was
      made, and on nothing later. */
  function Unlock(p: Prims, v: IVault, passphrase: string): (IVault, Resp) {
    if v.Fresh? then (v, Failed(VaultNotInitialized))
    else
      var key := VaultEngine.WrappingKey(p, passphrase, v.salt, v.params);
      if key.None? || |key.value| != 32 then (v.(open := false), Failed(VaultConfigCorrupted))
      else if key.value != v.wrappingKey then (v.(open := false), Failed(InvalidMasterPassphrase))
      else (v.(open := true), Status(true, true))
  }

  function Lock(v: IVault): (IVault, Resp) {
    if v.Fresh? then (v, Status(false, false)) else (v.(open := false), Status(true, false))
  }

  // -------------------------------------------------------------------- records

  function Write(s: State, user: string, path: string, data: Bytes, now: string): (State, Resp) {
    if !Authorized(user, path) then (s, Failed(PermissionDenied))
    else if !IsOpen(s) then (s, Failed(VaultLocked))
    else
      var before := if (user, path) in s.kv then s.kv[(user, path)] else Record(now, []);
      var after := before.(entries := before.entries + [Entry(data, now)]);
      (s.(kv := s.kv[(user, path) := after]), Written(after.created, now, |after.entries|))
  }

  function Read(s: State, user: string, path: string, version: Option<int>): Resp {
    if !Authorized(user, path) then Failed(PermissionDenied)
    else if version.Some? && version.value < 1 then Failed(InvalidVersion)
    else if !IsOpen(s) then Failed(VaultLocked)
    else if (user, path) !in s.kv then Failed(RecordNotFound)
    else
      var entries := s.kv[(user, path)].entries;
      var wanted := if version.Some? then version.value else |entries|;
      if 1 <= wanted <= |entries| then Value(entries[wanted - 1].data, wanted, |entries|, entries[wanted - 1].created)
      else Failed(RecordNotFound)
  }

  function ListHistory(s: State, user: string, path: string): Resp {
    if !Authorized(user, path) then Failed(PermissionDenied)
    else if !IsOpen(s) then Failed(VaultLocked)
    else if (user, path) !in s.kv then Failed(RecordNotFound)
    else
      var entries := s.kv[(user, path)].entries;
      Versions(|entries|, Listing(entries))
  }

  /** Version numbers 1..n with their creation times. */
  function Listing(entries: seq<Entry>): seq<Listed> {
    seq(|entries|, k requires 0 <= k < |entries| => Listed(k + 1, entries[k].created))
  }

  function Delete(s: State, user: string, path: string): (State, Resp) {
    if !Authorized(user, path) then (s, Failed(PermissionDenied))
    else if !IsOpen(s) then (s, Failed(VaultLocked))
    else if (user, path) !in s.kv then (s, Failed(RecordNotFound))
    else (s.(kv := s.kv - {(user, path)}), Deleted)
  }

  // ----------------------------------------------------------------------- keys

  function OwnedError(s: State, user: string, name: string): Option<Error> {
    if !ValidName(name) then Some(InvalidKeyName)
    else if (user, name) !in s.keys then Some(KeyUnavailable)
    else None
  }

  function InfoOf(name: string, r: KeyRecord): Info {
    Info(name, r.usage, T.AlgorithmOf(r.usage), |r.entries|, Count(|r.entries|), r.created, r.updated)
  }

  function Install(s: State, user: string, name: string, usage: string, now: string, material: Bytes): (State, Resp) {
    if (user, name) in s.keys then (s, Failed(KeyAlreadyExists))
    else
      var r := KeyRecord(usage, now, now, [Entry(material, now)]);
      (s.(keys := s.keys[(user, name) := r]), KeyInfo(InfoOf(name, r)))
  }

  function CreateKey(s: State, user: string, name: string, now: string, material: Bytes): (State, Resp) {
    if !ValidName(name) then (s, Failed(InvalidKeyName))
    else if !IsOpen(s) then (s, Failed(VaultLocked))
    else Install(s, user, name, T.ENCRYPT_DECRYPT, now, material)
  }

  function CreateSigning(s: State, user: string, name: string, algorithm: string, now: string, material: Bytes)
    : (State, Resp)
  {
    if !ValidName(name) then (s, Failed(InvalidKeyName))
    else if Upper(algorithm) != T.ED25519 then (s, Failed(InvalidSigningAlgorithm))
    else if !IsOpen(s) then (s, Failed(VaultLocked))
    else Install(s, user, name, T.SIGN_VERIFY, now, material)
  }

  function RotateKey(s: State, user: string, name: string, now: string, material: Bytes): (State, Resp) {
    if OwnedError(s, user, name).Some? then (s, Failed(OwnedError(s, user, name).value))
    else if !IsOpen(s) then (s, Failed(VaultLocked))
    else
      var before := s.keys[(user, name)];
      var r := before.(updated := now, entries := before.entries + [Entry(material, now)]);
      (s.(keys := s.keys[(user, name) := r]), KeyInfo(InfoOf(name, r)))
  }

  function ListKeys(s: State, user: string): Resp {
    if !IsOpen(s) then Failed(VaultLocked)
    else KeyList(InfosOf(s.keys, user))
  }

  function InfosOf(keys: map<Key, KeyRecord>, user: string): (infos: seq<Info>)
    ensures var names := NamesOf(keys, user);
            |infos| == |names| && forall k :: 0 <= k < |names| ==> infos[k] == InfoOf(names[k], keys[(user, names[k])])
  {
    var names := NamesOf(keys, user);
    seq(|names|, k requires 0 <= k < |names| => assert names[k] in names; InfoOf(names[k], keys[(user, names[k])]))
  }

  function DeleteKey(s: State, user: string, name: string): (State, Resp) {
    if OwnedError(s, user, name).Some? then (s, Failed(OwnedError(s, user, name).value))
    else if !IsOpen(s) then (s, Failed(VaultLocked))
    else (s.(keys := s.keys - {(user, name)}), Deleted)
  }

  // ------------------------------------------------------------ encrypt/decrypt

  function EncryptData(s: State, user: string, name: string, text: string, draw: Draw): (State, Resp) {
    if OwnedError(s, user, name).Some? then (s, Failed(OwnedError(s, user, name).value))
    else
      var r := s.keys[(user, name)];
      var n := |r.entries|;
      if r.usage != T.ENCRYPT_DECRYPT then (s, Failed(InvalidKeyUsage))
      else if !IsOpen(s) then (s, Failed(VaultLocked))
      else if Decode(text).None? then (s, Failed(InvalidBase64Payload))
      else if n == 0 then (s, Failed(KeyVersionUnavailable))
      else
        var box := IBox(user, name, n, r.entries[n - 1].data, draw.nonce, draw.body);
        match Format(name, n, Pack(draw))
        case None => (s, Failed(Internal))
        case Some(token) => (s.(sealed := s.sealed[box := Decode(text).value]), Encrypted(name, n, token))
  }

  function DecryptData(s: State, user: string, text: string): Resp {
    match Parse(text)
    case None => Failed(MalformedCiphertext)
    case Some(token) =>
      if OwnedError(s, user, token.name).Some? then Failed(OwnedError(s, user, token.name).value)
      else
        var r := s.keys[(user, token.name)];
        if r.usage != T.ENCRYPT_DECRYPT then Failed(InvalidKeyUsage)
        else if !IsOpen(s) then Failed(VaultLocked)
        else if !(1 <= token.version <= |r.entries|) then Failed(KeyVersionUnavailable)
        else
          var box := BoxFor(user, token, r.entries[token.version - 1].data);
          if box in s.sealed then Decrypted(token.name, token.version, Encode(s.sealed[box]))
          else Failed(TransitTampered)
  }

  function BoxFor(user: string, token: Token, material: Bytes): IBox {
    IBox(user, token.name, token.version, material, token.blob.nonce, token.blob.ciphertext + token.blob.tag)
  }

  // ---------------------------------------------------------------- sign/verify

  function SigningError(p: Prims, s: State, user: string, name: string, message: string, messageType: string,
                        algorithm: string) : Option<Error>
    requires (user, name) in s.keys
  {
    var r := s.keys[(user, name)];
    if r.usage != T.SIGN_VERIFY then Some(InvalidKeyUsage)
    else if Some(Upper(algorithm)) != T.AlgorithmOf(r.usage) then Some(InvalidSigningAlgorithm)
    else if !IsOpen(s) then Some(VaultLocked)
    else if T.MessageDigest(p, message, messageType).Err? then Some(T.MessageDigest(p, message, messageType).error)
    else None
  }

  function Sign(p: Prims, s: State, user: string, name: string, message: string, messageType: string,
                algorithm: string, signature: Bytes) : (State, Resp)
  {
    if OwnedError(s, user, name).Some? then (s, Failed(OwnedError(s, user, name).value))
    else
      var r := s.keys[(user, name)];
      var error := SigningError(p, s, user, name, message, messageType, algorithm);
      var n := |r.entries|;
      if error.Some? then (s, Failed(error.value))
      else if n == 0 then (s, Failed(KeyVersionUnavailable))
      else
        var digest := T.MessageDigest(p, message, messageType).value;
        (s.(signed := s.signed + {ISigned(user, r.entries[n - 1].data, digest, signature)}),
         Signed(name, n, T.ED25519, Encode(signature)))
  }

  predicate Accepts(s: State, key: Key, digest: Bytes, signature: Bytes, version: int) {
    && key in s.keys && 1 <= version <= |s.keys[key].entries|
    && ISigned(key.0, s.keys[key].entries[version - 1].data, digest, signature) in s.signed
  }

  /** The greatest accepting version up to `upTo`. */
  function Newest(s: State, key: Key, digest: Bytes, signature: Bytes, upTo: nat): (v: Option<int>)
    ensures v.Some? ==> 1 <= v.value <= upTo && Accepts(s, key, digest, signature, v.value)
    ensures forall w :: (if v.Some? then v.value else 0) < w <= upTo ==> !Accepts(s, key, digest, signature, w)
  {
    if upTo == 0 then None
    else if Accepts(s, key, digest, signature, upTo) then Some(upTo)
    else Newest(s, key, digest, signature, upTo - 1)
  }

  function Verify(p: Prims, s: State, user: string, name: string, message: string, messageType: string,
                  signature: string, algorithm: string, version: Option<int>) : Resp
  {
    if OwnedError(s, user, name).Some? then Failed(OwnedError(s, user, name).value)
    else
      var error := SigningError(p, s, user, name, message, messageType, algorithm);
      var n := |s.keys[(user, name)].entries|;
      if error.Some? then Failed(error.value)
      else if version.Some? && !(1 <= version.value <= n) then Failed(KeyVersionUnavailable)
      else
        var digest := T.MessageDigest(p, message, messageType).value;
        var matched :=
          if Decode(signature).None? then None
          else if version.Some? then
            if Accepts(s, (user, name), digest, Decode(signature).value, version.value) then version else None
          else Newest(s, (user, name), digest, Decode(signature).value, n);
        Verified(name, matched, T.ED25519, matched.Some?)
  }

  // -------------------------------------------------------------------- machine

  function Step(p: Prims, s: State, op: Op): (State, Resp) {
    match op
    case Initialize(passphrase, params, salt, dek, draw) =>
      var (v, resp) := Initialize(p, s.vault, passphrase, params, salt, dek);
      (s.(vault := v), resp)
    case Unlock(passphrase) => var (v, resp) := Unlock(p, s.vault, passphrase); (s.(vault := v), resp)
    case Lock | Restart => var (v, resp) := Lock(s.vault); (s.(vault := v), resp)
    case KvWrite(user, path, data, now, draw) => Write(s, user, path, data, now)
    case KvRead(user, path, version, now) => (s, Read(s, user, path, version))
    case KvVersions(user, path, now) => (s, ListHistory(s, user, path))
    case KvDelete(user, path, now) => Delete(s, user, path)
    case CreateKey(user, name, now, mint) => CreateKey(s, user, name, now, mint.material)
    case CreateSigningKey(user, name, algorithm, now, mint) =>
      CreateSigning(s, user, name, algorithm, now, mint.material)
    case RotateKey(user, name, now, mint) => RotateKey(s, user, name, now, mint.material)
    case ListKeys(user) => (s, ListKeys(s, user))
    case DeleteKey(user, name, now) => DeleteKey(s, user, name)
    case EncryptData(user, name, text, now, draw) => EncryptData(s, user, name, text, draw)
    case DecryptData(user, token, now) => (s, DecryptData(s, user, token))
    case Sign(user, name, message, kind, algorithm, now, signature) =>
      Sign(p, s, user, name, message, kind, algorithm, signature)
    case VerifySignature(user, name, message, kind, signature, algorithm, version, now) =>
      (s, Verify(p, s, user, name, message, kind, signature, algorithm, version))
  }

  function Run(p: Prims, ops: seq<Op>): State {
    if ops == [] then START else Step(p, Run(p, ops[..|ops| - 1]), ops[|ops| - 1]).0
  }

  function Answer(p: Prims, ops: seq<Op>, i: nat): Resp
    requires i < |ops|
  {
    Step(p, Run(p, ops[..i]), ops[i]).1
  }
}
