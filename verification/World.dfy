/** The state of a running MiniVault, its requests and its answers. */
module World {
  import opened Text
  import opened Base64
  import opened Crypto
  import opened KvStore
  import KeyStore
  import AuditChain

  /** The four Argon2id cost parameters a vault stores. */
  datatype KdfParams = KdfParams(timeCost: int, memoryCost: int, parallelism: int, hashLen: int)

  /** One-way functions the program calls; nothing is assumed about them. */
  datatype Prims = Prims(
    entryHash: AuditChain.Hash,
    sha256: Bytes -> Bytes,
    publicKey: Bytes -> Bytes,
    deriveKey: (string, Bytes, KdfParams) -> Bytes,
    isObject: Bytes -> bool)  // whether bytes decode as a JSON object

  /** data/vault_config.json. */
  datatype Config = Config(version: int, kdf: string, salt: string, params: KdfParams, wrapped: Columns)

  /** The stored configuration, and the DEK while it is in memory. */
  datatype Vault = Vault(config: Option<Config>, dek: Option<Bytes>)

  /** One accepted (public key, digest, signature). */
  datatype Signature = Signature(publicKey: Bytes, digest: Bytes, signature: Bytes)

  /** Who was given some key material, and for which usage. */
  datatype Holder = Holder(owner: string, usage: string)

  /** `minted` is history: all key material ever given out. */
  datatype Sys = Sys(
    vault: Vault,
    ledger: Ledger,
    signatures: set<Signature>,
    minted: map<Bytes, Holder>,
    kv: KvTables,
    keys: KeyStore.KeyTables,
    audit: AuditChain.Log)

  const START := Sys(Vault(None, None), map[], {}, map[], KvStore.EMPTY, KeyStore.EMPTY, AuditChain.EMPTY)

  datatype Error =
    | VaultAlreadyInitialized | PassphrasePolicy | VaultNotInitialized | VaultLocked
    | InvalidMasterPassphrase | VaultConfigCorrupted
    | PermissionDenied | InvalidVersion | RecordNotFound | RecordTampered
    | InvalidKeyName | KeyAlreadyExists | KeyUnavailable | KeyVersionUnavailable | InvalidKeyUsage
    | InvalidSigningAlgorithm | InvalidMessageType | InvalidDigestLength | InvalidBase64Payload
    | TransitTampered | MalformedCiphertext
    | Internal  // an exception no handler of the services names

  /** Fresh key material and the draw that wraps it. */
  datatype Mint = Mint(material: Bytes, draw: Draw)

  /** A request, with the clock reading and the randomness its handling uses. */
  datatype Op =
    | Initialize(passphrase: string, params: KdfParams, salt: Bytes, dek: Bytes, draw: Draw)
    | Unlock(passphrase: string)
    | Lock
    | Restart
    | KvWrite(user: string, path: string, data: Bytes, now: string, draw: Draw)
    | KvRead(user: string, path: string, version: Option<int>, now: string)
    | KvVersions(user: string, path: string, now: string)
    | KvDelete(user: string, path: string, now: string)
    | CreateKey(user: string, name: string, now: string, mint: Mint)
    | CreateSigningKey(user: string, name: string, algorithm: string, now: string, mint: Mint)
    | RotateKey(user: string, name: string, now: string, mint: Mint)
    | ListKeys(user: string)
    | DeleteKey(user: string, name: string, now: string)
    | EncryptData(user: string, name: string, plaintext: string, now: string, draw: Draw)
    | DecryptData(user: string, token: string, now: string)
    | Sign(user: string, name: string, message: string, messageType: string, algorithm: string,
           now: string, signed: Bytes)
    | VerifySignature(user: string, name: string, message: string, messageType: string,
                      signature: string, algorithm: string, version: Option<int>, now: string)

  predicate IsVaultOp(op: Op) {
    op.Initialize? || op.Unlock? || op.Lock? || op.Restart?
  }

  predicate IsKvOp(op: Op) {
    op.KvWrite? || op.KvRead? || op.KvVersions? || op.KvDelete?
  }

  predicate MintsKey(op: Op) {
    op.CreateKey? || op.CreateSigningKey? || op.RotateKey?
  }

  /** The draw a request carries. */
  function DrawOf(op: Op): Option<Draw> {
    match op
    case Initialize(_, _, _, _, draw) => Some(draw)
    case KvWrite(_, _, _, _, draw) => Some(draw)
    case EncryptData(_, _, _, _, draw) => Some(draw)
    case CreateKey(_, _, _, mint) => Some(mint.draw)
    case CreateSigningKey(_, _, _, _, mint) => Some(mint.draw)
    case RotateKey(_, _, _, mint) => Some(mint.draw)
    case _ => None
  }

  /** `TransitService._metadata`. */
  datatype Info = Info(name: string, usage: string, algorithm: Option<string>, latest: int,
                       versions: seq<int>, created: string, updated: string)

  datatype Resp =
    | Failed(error: Error)
    | Status(initialized: bool, unlocked: bool)
    | Written(created: string, updated: string, version: int)
    | Value(data: Bytes, version: int, latest: int, created: string)
    | Versions(latest: int, list: seq<Listed>)
    | Deleted
    | KeyInfo(info: Info)
    | KeyList(infos: seq<Info>)
    | Encrypted(name: string, version: int, token: string)
    | Decrypted(name: string, version: int, plaintext: string)
    | Signed(name: string, version: int, algorithm: string, signature: string)
    | Verified(name: string, matched: Option<int>, algorithm: string, valid: bool)
}
