/** What the audit log of a running server holds: every refused access, and nothing else. */
module AuditTrail {
  import opened Text
  import opened Base64
  import opened TransitToken
  import opened AuditChain
  import opened World
  import Crypto
  import KvPaths
  import VersionedTables
  import VaultEngine
  import Machine
  import T = TransitEngine

  /** The key name a request is about; a ciphertext names its own. */
  function NameOf(op: Op): string {
    match op
    case RotateKey(_, name, _, _) => name
    case DeleteKey(_, name, _) => name
    case EncryptData(_, name, _, _, _) => name
    case DecryptData(_, token, _) => if Parse(token).Some? then Parse(token).value.name else ""
    case Sign(_, name, _, _, _, _, _) => name
    case VerifySignature(_, name, _, _, _, _, _, _) => name
    case _ => ""
  }

  predicate IsOwnedKeyOp(op: Op) {
    op.RotateKey? || op.DeleteKey? || op.EncryptData? || op.DecryptData? || op.Sign? || op.VerifySignature?
  }

  /** The entry an answer should leave, if any. */
  function Denial(op: Op, answer: Resp): Option<Call> {
    if IsKvOp(op) && answer == Failed(PermissionDenied) then
      Some(Call(Some(op.user), "ACCESS_DENIED", "kv_path", op.path, "DENIED", op.now))
    else if IsOwnedKeyOp(op) && answer == Failed(KeyUnavailable) then
      Some(Call(Some(op.user), "ACCESS_DENIED", "named_key", NameOf(op), "DENIED", op.now))
    else None
  }

  /** The same by the function that makes the entries. */
  function Entered(op: Op, answer: Resp): Option<Call> {
    if IsKvOp(op) && answer == Failed(PermissionDenied) then Some(DeniedCall(op.user, "kv_path", op.path, op.now))
    else if IsOwnedKeyOp(op) && answer == Failed(KeyUnavailable) then
      Some(DeniedCall(op.user, "named_key", NameOf(op), op.now))
    else None
  }

  lemma EnteredIsDenial(op: Op, answer: Resp)
    ensures Entered(op, answer) == Denial(op, answer)
  {
    hide NameOf;
    if IsKvOp(op) {
      DeniedIs(op.user, "kv_path", op.path, op.now);
    } else if IsOwnedKeyOp(op) {
      DeniedIs(op.user, "named_key", NameOf(op), op.now);
    }
  }

  function Logged(h: Hash, log: Log, call: Option<Call>): Log {
    if call.Some? then Append(h, log, call.value) else log
  }

  /** The request leaves exactly the entry its answer calls for. */
  ghost predicate Audited(p: Prims, s: Sys, op: Op, after: (Sys, Resp)) {
    after.0.audit == Logged(p.entryHash, s.audit, Entered(op, after.1))
  }

  lemma KvAudited(p: Prims, s: Sys, op: Op)
    requires IsKvOp(op)
    ensures Audited(p, s, op, Machine.Step(p, s, op))
  {
    hide Append, DeniedCall, KvPaths.Authorized, Crypto.OpenColumns, Crypto.Encrypt, VersionedTables.Put;
  }

  lemma UnwrapErrors(s: Sys, key: VersionedTables.Key, version: int)
    requires key in s.keys.parents && s.vault.dek.Some?
    ensures T.Unwrap(s, key, version) != T.Err(KeyUnavailable)
  {
  }

  lemma KeyAudited(p: Prims, s: Sys, op: Op)
    requires op.RotateKey? || op.DeleteKey?
    ensures Audited(p, s, op, Machine.Step(p, s, op))
  {
    hide Append, DeniedCall, ValidName, T.Wrap, VersionedTables.Put, T.InfoOf;
    WrapLeavesAudit(p, s);
  }

  lemma WrapLeavesAudit(p: Prims, s: Sys)
    ensures s.vault.dek.Some? ==> forall key, usage, version, mint ::
              var r := T.Wrap(p, s, key, usage, version, mint);
              r.Some? ==> r.value.0.audit == s.audit
  {
  }

  lemma DataAudited(p: Prims, s: Sys, op: Op)
    requires op.EncryptData? || op.DecryptData?
    ensures Audited(p, s, op, Machine.Step(p, s, op))
  {
    hide Append, DeniedCall, ValidName, T.Unwrap, Decode, Encode, Format, Parse, Crypto.Decrypt;
    if op.EncryptData? {
      if T.OwnedError(s, op.user, op.name).None? && s.vault.dek.Some? {
        UnwrapErrors(s, (op.user, op.name), s.keys.parents[(op.user, op.name)].latest);
      }
    } else if Parse(op.token).Some? {
      var t := Parse(op.token).value;
      if T.OwnedError(s, op.user, t.name).None? && s.vault.dek.Some? {
        UnwrapErrors(s, (op.user, t.name), t.version);
      }
    }
  }

  lemma SigningErrors(p: Prims, s: Sys, user: string, name: string, message: string, kind: string, algorithm: string)
    requires (user, name) in s.keys.parents
    ensures T.SigningError(p, s, user, name, message, kind, algorithm) != Some(KeyUnavailable)
  {
    hide Decode, Upper;
  }

  lemma SignAudited(p: Prims, s: Sys, op: Op)
    requires op.Sign? || op.VerifySignature?
    ensures Audited(p, s, op, Machine.Step(p, s, op))
  {
    hide Append, DeniedCall, ValidName, T.Unwrap, T.SigningError, T.MessageDigest, Decode, Encode, T.MatchLast,
      VersionedTables.ListVersions;
    if T.OwnedError(s, op.user, op.name).None? {
      SigningErrors(p, s, op.user, op.name, op.message, op.messageType, op.algorithm);
      SigningNeedsDek(p, s, op.user, op.name, op.message, op.messageType, op.algorithm);
      if s.vault.dek.Some? {
        UnwrapErrors(s, (op.user, op.name), s.keys.parents[(op.user, op.name)].latest);
      }
    }
  }

  lemma SigningNeedsDek(p: Prims, s: Sys, user: string, name: string, message: string, kind: string, algorithm: string)
    requires (user, name) in s.keys.parents
    ensures T.SigningError(p, s, user, name, message, kind, algorithm).None? ==> s.vault.dek.Some?
  {
    hide Decode, Upper;
  }

  lemma OthersAudited(p: Prims, s: Sys, op: Op)
    requires !IsKvOp(op) && !IsOwnedKeyOp(op)
    ensures Audited(p, s, op, Machine.Step(p, s, op))
  {
    hide Append, VaultEngine.Initialize, VaultEngine.Unlock, VaultEngine.Lock, ValidName, Upper, VersionedTables.Put,
      T.InfoOf,
      T.Wrap, T.InfosOf;
    WrapLeavesAudit(p, s);
  }

  lemma StepAudited(p: Prims, s: Sys, op: Op)
    ensures Audited(p, s, op, Machine.Step(p, s, op))
  {
    hide Machine.Step, Audited;
    if IsKvOp(op) {
      KvAudited(p, s, op);
    } else if op.RotateKey? || op.DeleteKey? {
      KeyAudited(p, s, op);
    } else if op.EncryptData? || op.DecryptData? {
      DataAudited(p, s, op);
    } else if op.Sign? || op.VerifySignature? {
      SignAudited(p, s, op);
    } else {
      OthersAudited(p, s, op);
    }
  }

  /** The refusals of a run, in order, going by requests and answers. */
  function Denials(p: Prims, ops: seq<Op>): seq<Call> {
    if ops == [] then []
    else
      var n := |ops| - 1;
      var call := Denial(ops[n], Machine.Answer(p, ops, n));
      if call.Some? then Denials(p, ops[..n]) + [call.value] else Denials(p, ops[..n])
  }

  /** The trail is complete and exact.  After every run the audit log holds one entry for
      each access refused to its caller, in order, and nothing else; the chain and its
      head verify. */
  lemma {:induction false} TrailIsExact(p: Prims, ops: seq<Op>)
    ensures Machine.Run(p, ops).audit == AppendAll(p.entryHash, EMPTY, Denials(p, ops))
    ensures RecordsAll(p.entryHash, Machine.Run(p, ops).audit, Denials(p, ops))
    ensures Verify(p.entryHash, Machine.Run(p, ops).audit).valid
  {
    hide Machine.Step, Append, Denial, Entered, Verify, RecordsAll;
    if ops != [] {
      var n := |ops| - 1;
      TrailIsExact(p, ops[..n]);
      StepAudited(p, Machine.Run(p, ops[..n]), ops[n]);
      EnteredIsDenial(ops[n], Machine.Answer(p, ops, n));
      var before := Denials(p, ops[..n]);
      if Denial(ops[n], Machine.Answer(p, ops, n)).Some? {
        assert Denials(p, ops)[..|before|] == before;
      }
    }
    LogMeans(p.entryHash, Denials(p, ops));
    GenuineChains(p.entryHash, Denials(p, ops));
    VerifyAccepts(p.entryHash, Machine.Run(p, ops).audit);
  }

  /** The log went on by one row, recording this call. */
  ghost predicate OneMore(h: Hash, before: Log, after: Log, call: Call) {
    var n := |before.rows|;
    && |after.rows| == n + 1 && after.rows[..n] == before.rows
    && Records(h, after.rows, n, call) && after.head == Some(after.rows[n].entryHash)
  }

  lemma GoesOn(h: Hash, log: Log, calls: seq<Call>, call: Call)
    requires RecordsAll(h, log, calls)
    ensures OneMore(h, log, Append(h, log, call), call)
  {
    hide RecordsAll, Records;
    AppendRecords(h, log, calls, call);
  }

  lemma KvAnswered(p: Prims, s: Sys, op: Op)
    requires IsKvOp(op)
    ensures var (s', answer) := Machine.Step(p, s, op);
            && (KvPaths.Authorized(op.user, op.path) ==> answer != Failed(PermissionDenied))
            && (!KvPaths.Authorized(op.user, op.path) ==>
                  answer == Failed(PermissionDenied)
                  && s' == s.(audit := Append(p.entryHash, s.audit,
                                              DeniedCall(op.user, "kv_path", op.path, op.now))))
  {
    hide Append, DeniedCall, KvPaths.Authorized, Crypto.OpenColumns, Crypto.Encrypt, VersionedTables.Put;
  }

  lemma EnteredNone(op: Op, answer: Resp)
    requires IsKvOp(op) && answer != Failed(PermissionDenied)
    ensures Entered(op, answer) == None
  {
    hide DeniedCall;
  }

  /** Nobody but its owner gets at a path.  In every run, whether the vault is open or the
      path in use, a key-value request of anybody else is refused and leaves one more audit
      entry, with the caller and the path, and nothing else; the owner's is never refused so
      and leaves none. */
  lemma StrangersAreRefused(p: Prims, ops: seq<Op>, k: nat)
    requires k < |ops| && IsKvOp(ops[k])
    ensures var op, before, after := ops[k], Machine.Run(p, ops[..k]), Machine.Run(p, ops[..k + 1]);
            if KvPaths.Owns(op.user, op.path) then
              Machine.Answer(p, ops, k) != Failed(PermissionDenied) && after.audit == before.audit
            else
              && Machine.Answer(p, ops, k) == Failed(PermissionDenied)
              && after == before.(audit := after.audit)
              && OneMore(p.entryHash, before.audit, after.audit,
                         Call(Some(op.user), "ACCESS_DENIED", "kv_path", op.path, "DENIED", op.now))
  {
    hide Machine.Step, Append, Denial, Entered, Verify, RecordsAll, OneMore, KvPaths.Owns, KvPaths.Authorized;
    var op, before := ops[k], Machine.Run(p, ops[..k]);
    assert ops[..k + 1][..k] == ops[..k];
    KvPaths.AuthorizedMeans(op.user, op.path);
    KvAnswered(p, before, op);
    StepAudited(p, before, op);
    if KvPaths.Owns(op.user, op.path) {
      EnteredNone(op, Machine.Answer(p, ops, k));
    }
    TrailIsExact(p, ops[..k]);
    DeniedIs(op.user, "kv_path", op.path, op.now);
    GoesOn(p.entryHash, before.audit, Denials(p, ops[..k]), DeniedCall(op.user, "kv_path", op.path, op.now));
  }
}
