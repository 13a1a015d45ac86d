/** The key-value service as the object it is: src/kv/service.py over its vault,
    repository and audit log. */
module KvService {
  import opened Text
  import opened Base64
  import opened Crypto
  import opened KvPaths
  import opened Aad
  import opened VersionedTables
  import opened KvStore
  import opened World
  import AuditChain
  import AuditRepository
  import KvEngine
  import VaultState

  class Service {
    const p: Prims
    const vault: VaultState.Service
    const records: KvRepository
    const audit: AuditRepository.Repository

    ghost predicate Valid()
      reads vault, vault.state, vault.state.buffers, vault.state.handed.Keys
    {
      vault.Valid() && audit.h == p.entryHash
    }

    /** A server state with this service's own objects in their places; `s` supplies what
        they do not hold. */
    ghost function View(s: Sys): Sys
      reads vault, vault.state, vault.state.dek, records, audit
    {
      s.(vault := vault.View(), kv := records.State(), audit := audit.State())
    }

    constructor (vault: VaultState.Service, records: KvRepository, audit: AuditRepository.Repository)
      requires vault.Valid() && audit.h == vault.p.entryHash
      ensures Valid() && this.vault == vault && this.records == records && this.audit == audit && p == vault.p
    {
      this.p, this.vault, this.records, this.audit := vault.p, vault, records, audit;
    }

    /** `_authorize`: a refusal is written to the audit log. */
    method Authorize(requester: string, path: string, now: string) returns (allowed: bool)
      requires Valid()
      modifies audit
      ensures Valid() && (allowed <==> Owns(requester, path)) && allowed == Authorized(requester, path)
      ensures audit.State() == if allowed then old(audit.State())
                               else AuditChain.Append(p.entryHash, old(audit.State()),
                                                      AuditChain.Call(Some(requester), "ACCESS_DENIED", "kv_path",
                                                                      path, "DENIED", now))
    {
      hide ExtractOwner, AuditChain.Append, Owns;
      AuthorizedMeans(requester, path);
      var owner := ExtractOwner(path);
      allowed := owner.Some? && owner.value == requester;
      if !allowed {
        audit.DeniedAccess(requester, "kv_path", path, now);
      }
    }

    method Write(ledger: Ledger, ghost s: Sys, user: string, path: string, data: Bytes, now: string, draw: Draw)
      returns (after: Ledger, resp: Resp)
      requires Valid() && s.ledger == ledger
      modifies vault.state`handed, records, audit
      ensures Valid()
      ensures (View(s.(ledger := after)), resp) == KvEngine.Write(p, old(View(s)), user, path, data, now, draw)
    {
      AuditChain.DeniedIs(user, "kv_path", path, now);
      hide Authorized, AuditChain.Append, AuditChain.DeniedCall, Owns, Put, KvEngine.EncryptFor;
      after := ledger;
      assert s.(ledger := ledger) == s;
      var allowed := Authorize(user, path, now);
      if !allowed {
        return after, Failed(PermissionDenied);
      }
      var copy := vault.state.GetDek();
      if copy == null {
        return after, Failed(VaultLocked);
      }
      var dek := copy[..];
      var done := records.AppendVersion((user, path), now,
                                        version => KvEngine.EncryptFor(ledger, dek, user, path, data, draw, version));
      if done.None? {
        return after, Failed(Internal);
      }
      after := done.value.0;
      match done.value.1
      case Appended(created, updated, version) => return after, Written(created, updated, version);
      case IntegrityError => return after, Failed(Internal);
    }

    method Read(ledger: Ledger, ghost s: Sys, user: string, path: string, version: Option<int>, now: string)
      returns (resp: Resp)
      requires Valid() && s.ledger == ledger
      modifies vault.state`handed, audit
      ensures Valid()
      ensures (View(s), resp) == KvEngine.Read(p, old(View(s)), user, path, version, now)
    {
      AuditChain.DeniedIs(user, "kv_path", path, now);
      hide Authorized, KvAad, AuditChain.Append, AuditChain.DeniedCall, Owns, OpenColumns, GetVersion;
      var allowed := Authorize(user, path, now);
      if !allowed {
        return Failed(PermissionDenied);
      }
      if version.Some? && version.value < 1 {
        return Failed(InvalidVersion);
      }
      var dek := vault.state.GetDek();
      if dek == null {
        return Failed(VaultLocked);
      }
      var found := GetVersion(records.State(), (user, path), version);
      if found.None? {
        return Failed(RecordNotFound);
      }
      var plain := OpenColumns(ledger, dek[..], found.value.row.columns, KvAad(user, path, found.value.version));
      if !plain.Plain? || !p.isObject(plain.plaintext) {
        return Failed(RecordTampered);
      }
      return Value(plain.plaintext, found.value.version, found.value.latest, found.value.row.created);
    }

    method Versions(ghost s: Sys, user: string, path: string, now: string) returns (resp: Resp)
      requires Valid()
      modifies vault.state`handed, audit
      ensures Valid()
      ensures (View(s), resp) == KvEngine.ListHistory(p, old(View(s)), user, path, now)
    {
      AuditChain.DeniedIs(user, "kv_path", path, now);
      hide Authorized, AuditChain.Append, AuditChain.DeniedCall, Owns, History;
      var allowed := Authorize(user, path, now);
      if !allowed {
        return Failed(PermissionDenied);
      }
      var dek := vault.state.GetDek();
      if dek == null {
        return Failed(VaultLocked);
      }
      var rows := History(records.State(), (user, path));
      if rows == [] || (user, path) !in records.records {
        return Failed(RecordNotFound);
      }
      return World.Versions(records.records[(user, path)].latest, rows);
    }

    method Delete(ghost s: Sys, user: string, path: string, now: string) returns (resp: Resp)
      requires Valid()
      modifies vault.state`handed, records, audit
      ensures Valid()
      ensures (View(s), resp) == KvEngine.Delete(p, old(View(s)), user, path, now)
    {
      AuditChain.DeniedIs(user, "kv_path", path, now);
      hide Authorized, AuditChain.Append, AuditChain.DeniedCall, Owns, Remove;
      var allowed := Authorize(user, path, now);
      if !allowed {
        return Failed(PermissionDenied);
      }
      var dek := vault.state.GetDek();
      if dek == null {
        return Failed(VaultLocked);
      }
      var deleted := records.DeleteRecord((user, path));
      if !deleted {
        return Failed(RecordNotFound);
      }
      return Deleted;
    }
  }
}
