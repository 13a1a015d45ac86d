/** The KV engine: src/kv/service.py. */
module KvEngine {
  import opened Text
  import opened Base64
  import opened Crypto
  import opened KvPaths
  import opened Aad
  import opened VersionedTables
  import opened KvStore
  import opened World
  import AuditChain

  /** The entry a refused path leaves in the audit log. */
  function Denied(p: Prims, s: Sys, user: string, kind: string, identifier: string, now: string): Sys {
    s.(audit := AuditChain.Append(p.entryHash, s.audit, AuditChain.DeniedCall(user, kind, identifier, now)))
  }

  /** `encrypt_for`: the blob of one version, as columns. */
  function EncryptFor(ledger: Ledger, dek: Bytes, user: string, path: string, data: Bytes, draw: Draw, version: int)
    : Option<(Ledger, Columns)>
  {
    match Encrypt(ledger, dek, data, KvAad(user, path, version), draw)
    case None => None
    case Some((ledger', blob)) => Some((ledger', ToColumns(blob)))
  }

  function Write(p: Prims, s: Sys, user: string, path: string, data: Bytes, now: string, draw: Draw): (Sys, Resp) {
    if !Authorized(user, path) then (Denied(p, s, user, "kv_path", path, now), Failed(PermissionDenied))
    else if s.vault.dek.None? then (s, Failed(VaultLocked))
    else
      match EncryptFor(s.ledger, s.vault.dek.value, user, path, data, draw, NextVersion(s.kv, (user, path)))
      case None => (s, Failed(Internal))
      case Some((ledger, columns)) =>
        match Append(s.kv, (user, path), now, columns)
        case (kv, Appended(created, updated, version)) =>
          (s.(ledger := ledger, kv := kv), Written(created, updated, version))
        case (_, IntegrityError) => (s.(ledger := ledger), Failed(Internal))
  }

  function Read(p: Prims, s: Sys, user: string, path: string, version: Option<int>, now: string): (Sys, Resp) {
    if !Authorized(user, path) then (Denied(p, s, user, "kv_path", path, now), Failed(PermissionDenied))
    else if version.Some? && version.value < 1 then (s, Failed(InvalidVersion))
    else if s.vault.dek.None? then (s, Failed(VaultLocked))
    else
      match GetVersion(s.kv, (user, path), version)
      case None => (s, Failed(RecordNotFound))
      case Some(found) =>
        match OpenColumns(s.ledger, s.vault.dek.value, found.row.columns, KvAad(user, path, found.version))
        case Plain(data) =>
          if p.isObject(data) then (s, Value(data, found.version, found.latest, found.row.created))
          else (s, Failed(RecordTampered))
        case _ => (s, Failed(RecordTampered))
  }

  function ListHistory(p: Prims, s: Sys, user: string, path: string, now: string): (Sys, Resp) {
    if !Authorized(user, path) then (Denied(p, s, user, "kv_path", path, now), Failed(PermissionDenied))
    else if s.vault.dek.None? then (s, Failed(VaultLocked))
    else
      var list := History(s.kv, (user, path));
      if list == [] || (user, path) !in s.kv.parents then (s, Failed(RecordNotFound))
      else (s, Versions(s.kv.parents[(user, path)].latest, list))
  }

  function Delete(p: Prims, s: Sys, user: string, path: string, now: string): (Sys, Resp) {
    if !Authorized(user, path) then (Denied(p, s, user, "kv_path", path, now), Failed(PermissionDenied))
    else if s.vault.dek.None? then (s, Failed(VaultLocked))
    else
      var (kv, deleted) := KvStore.Delete(s.kv, (user, path));
      if deleted then (s.(kv := kv), Deleted) else (s, Failed(RecordNotFound))
  }
}
