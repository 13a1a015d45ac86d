/** The server as one object: the services over one vault, one audit log and one
    cipher, as main.py wires them, with what whole runs of it guarantee. */
module Server {
  import opened Base64
  import opened Crypto
  import opened World
  import AuditChain
  import AuditRepository
  import AuditTrail
  import DekForLife
  import KeyStore
  import KvEngine
  import KvHistory
  import KvService
  import KvStore
  import Machine
  import Refinement
  import TransitService
  import VaultEngine
  import VaultState
  import T = TransitEngine

  class Server {
    const p: Prims
    const vault: VaultState.Service
    const kv: KvService.Service
    const transit: TransitService.Service
    const audit: AuditRepository.Repository
    var ledger: Ledger
    var signatures: set<Signature>
    ghost var minted: map<Bytes, Holder>

    /** The services share the vault and the audit log. */
    ghost predicate Valid()
      reads vault, vault.state, vault.state.buffers, vault.state.handed.Keys
    {
      && kv.vault == vault && transit.vault == vault && kv.audit == audit && transit.audit == audit
      && vault.p == p && kv.p == p && transit.p == p
      && vault.Valid() && kv.Valid() && transit.Valid()
    }

    ghost function View(): Sys
      reads this, vault, vault.state, vault.state.dek, kv.records, transit.keys, audit
    {
      Sys(vault.View(), ledger, signatures, minted, kv.records.State(), transit.keys.State(), audit.State())
    }

    constructor (p: Prims)
      ensures Valid() && View() == START && this.p == p
      ensures fresh(vault) && fresh(vault.state) && fresh(kv) && fresh(kv.records)
      ensures fresh(transit) && fresh(transit.keys) && fresh(audit)
    {
      var vault := new VaultState.Service(p);
      var audit := new AuditRepository.Repository(p.entryHash);
      var records := new KvStore.KvRepository();
      var keys := new KeyStore.NamedKeyRepository();
      var kv := new KvService.Service(vault, records, audit);
      var transit := new TransitService.Service(vault, keys, audit);
      this.p, this.vault, this.kv, this.transit, this.audit := p, vault, kv, transit, audit;
      this.ledger, this.signatures, this.minted := map[], {}, map[];
    }

    /** The vault's own requests. */
    method HandleVault(op: Op) returns (resp: Resp)
      requires Valid() && IsVaultOp(op)
      modifies this`ledger, vault`config, vault.state, vault.state.dek
      ensures Valid()
      ensures vault.state.dek == null || fresh(vault.state.dek) || vault.state.dek == old(vault.state.dek)
      ensures (View(), resp) == Machine.Step(p, old(View()), op)
    {
      hide VaultEngine.Initialize, VaultEngine.Unlock, VaultEngine.Lock;
      match op
      case Initialize(passphrase, params, salt, dek, draw) =>
        var after;
        after, resp := vault.Initialize(ledger, passphrase, params, salt, dek, draw);
        ledger := after;
      case Unlock(passphrase) => resp := vault.Unlock(ledger, passphrase);
      case Lock => resp := vault.Lock();
      case Restart => resp := vault.Lock();
    }

    method HandleWrite(op: Op) returns (resp: Resp)
      requires Valid() && op.KvWrite?
      modifies this`ledger, vault.state`handed, kv.records, audit
      ensures Valid()
      ensures (View(), resp) == Machine.Step(p, old(View()), op)
    {
      hide KvEngine.Write;
      var after;
      after, resp := kv.Write(ledger, View(), op.user, op.path, op.data, op.now, op.draw);
      ledger := after;
    }

    method HandleKv(op: Op) returns (resp: Resp)
      requires Valid() && IsKvOp(op) && !op.KvWrite?
      modifies vault.state`handed, kv.records, audit
      ensures Valid()
      ensures (View(), resp) == Machine.Step(p, old(View()), op)
    {
      hide KvEngine.Read, KvEngine.ListHistory, KvEngine.Delete;
      ghost var s := View();
      match op
      case KvRead(user, path, version, now) => resp := kv.Read(ledger, s, user, path, version, now);
      case KvVersions(user, path, now) => resp := kv.Versions(s, user, path, now);
      case KvDelete(user, path, now) => resp := kv.Delete(s, user, path, now);
    }

    method HandleCreate(op: Op) returns (resp: Resp)
      requires Valid() && (op.CreateKey? || op.CreateSigningKey?)
      modifies this`ledger, this`minted, vault.state`handed, transit.keys
      ensures Valid()
      ensures (View(), resp) == Machine.Step(p, old(View()), op)
    {
      hide T.Create, T.CreateSigning;
      ghost var s := View();
      var after;
      ghost var given;
      match op {
        case CreateKey(user, name, now, mint) => after, given,
          resp := transit.CreateKey(ledger, s, user, name, now, mint);
        case CreateSigningKey(user, name, algorithm, now, mint) =>
          after, given, resp := transit.CreateSigningKey(ledger, s, user, name, algorithm, now, mint);
      }
      ledger := after;
      minted := given;
    }

    method HandleRotate(op: Op) returns (resp: Resp)
      requires Valid() && op.RotateKey?
      modifies this`ledger, this`minted, vault.state`handed, transit.keys, audit
      ensures Valid()
      ensures (View(), resp) == Machine.Step(p, old(View()), op)
    {
      hide T.Rotate;
      ghost var s := View();
      var after;
      ghost var given;
      after, given, resp := transit.RotateKey(ledger, s, op.user, op.name, op.now, op.mint);
      ledger := after;
      minted := given;
    }

    method HandleKey(op: Op) returns (resp: Resp)
      requires Valid() && (op.ListKeys? || op.DeleteKey?)
      modifies vault.state`handed, transit.keys, audit
      ensures Valid()
      ensures (View(), resp) == Machine.Step(p, old(View()), op)
    {
      hide T.List, T.Delete;
      ghost var s := View();
      match op
      case ListKeys(user) => resp := transit.ListKeys(s, user);
      case DeleteKey(user, name, now) => resp := transit.DeleteKey(s, user, name, now);
    }

    method HandleEncrypt(op: Op) returns (resp: Resp)
      requires Valid() && op.EncryptData?
      modifies this`ledger, vault.state`handed, audit
      ensures Valid()
      ensures (View(), resp) == Machine.Step(p, old(View()), op)
    {
      hide T.EncryptData;
      var after;
      after, resp := transit.EncryptData(ledger, View(), op.user, op.name, op.plaintext, op.now, op.draw);
      ledger := after;
    }

    method HandleDecrypt(op: Op) returns (resp: Resp)
      requires Valid() && op.DecryptData?
      modifies vault.state`handed, audit
      ensures Valid()
      ensures (View(), resp) == Machine.Step(p, old(View()), op)
    {
      hide T.DecryptData;
      resp := transit.DecryptData(ledger, View(), op.user, op.token, op.now);
    }

    method HandleSign(op: Op) returns (resp: Resp)
      requires Valid() && op.Sign?
      modifies this`signatures, vault.state`handed, audit
      ensures Valid()
      ensures (View(), resp) == Machine.Step(p, old(View()), op)
    {
      hide T.Sign;
      var after;
      after, resp := transit.Sign(ledger, signatures, View(), op.user, op.name, op.message, op.messageType,
                                  op.algorithm,
                                  op.now, op.signed);
      signatures := after;
    }

    method HandleVerify(op: Op) returns (resp: Resp)
      requires Valid() && op.VerifySignature?
      modifies vault.state`handed, audit
      ensures Valid()
      ensures (View(), resp) == Machine.Step(p, old(View()), op)
    {
      hide T.Verify;
      resp := transit.VerifySignature(ledger, signatures, View(), op.user, op.name, op.message, op.messageType,
                                      op.signature,
                                      op.algorithm, op.version, op.now);
    }

    /** One request: the objects go where the state machine goes and answer what it answers. */
    method Handle(op: Op) returns (resp: Resp)
      requires Valid()
      modifies this, vault`config, vault.state, vault.state.dek, kv.records, transit.keys, audit
      ensures Valid()
      ensures vault.state.dek == null || fresh(vault.state.dek) || vault.state.dek == old(vault.state.dek)
      ensures (View(), resp) == Machine.Step(p, old(View()), op)
    {
      hide Machine.Step;
      if IsVaultOp(op) {
        resp := HandleVault(op);
      } else if op.KvWrite? {
        resp := HandleWrite(op);
      } else if IsKvOp(op) {
        resp := HandleKv(op);
      } else if op.CreateKey? || op.CreateSigningKey? {
        resp := HandleCreate(op);
      } else if op.RotateKey? {
        resp := HandleRotate(op);
      } else if op.ListKeys? || op.DeleteKey? {
        resp := HandleKey(op);
      } else if op.EncryptData? {
        resp := HandleEncrypt(op);
      } else if op.DecryptData? {
        resp := HandleDecrypt(op);
      } else if op.Sign? {
        resp := HandleSign(op);
      } else {
        resp := HandleVerify(op);
      }
    }
  }

  /** A new server takes these requests one after the other.  Its answers and final state
      are those of the run; its audit log holds exactly the refusals, in order, and
      verifies; its vault is open exactly when the last unlock stands; and when the
      randomness was fresh its key-value answers follow from the values acknowledged. */
  method Serve(p: Prims, ops: seq<Op>) returns (server: Server, answers: seq<Resp>)
    ensures server.Valid() && server.View() == Machine.Run(p, ops) && |answers| == |ops|
    ensures forall k :: 0 <= k < |ops| ==> answers[k] == Machine.Answer(p, ops, k)
    ensures server.audit.State() == AuditChain.AppendAll(p.entryHash, AuditChain.EMPTY, AuditTrail.Denials(p, ops))
    ensures AuditChain.RecordsAll(p.entryHash, server.audit.State(), AuditTrail.Denials(p, ops))
    ensures AuditChain.Verify(p.entryHash, server.audit.State()).valid
    ensures Refinement.LegalRun(p, ops) ==> (server.vault.state.dek != null <==> DekForLife.OpenByAnswers(p, ops))
    ensures Refinement.LegalRun(p, ops) ==> forall k :: 0 <= k < |ops| && IsKvOp(ops[k]) ==>
              answers[k] == KvHistory.Expected(ops[k], DekForLife.OpenByAnswers(p, ops[..k]),
                                               KvHistory.Acknowledged(p, ops[..k], (ops[k].user, ops[k].path)))
  {
    hide Machine.Step, AuditChain.Verify, KvHistory.Expected, KvHistory.Acknowledged, DekForLife.OpenByAnswers,
      Refinement.LegalRun, AuditTrail.Denials, AuditChain.AppendAll, AuditChain.RecordsAll;
    server := new Server(p);
    answers := [];
    assert ops[..0] == [];
    while |answers| < |ops|
      invariant server.Valid() && server.p == p && fresh(server) && fresh(server.vault) && fresh(server.vault.state)
      invariant server.vault.state.dek != null ==> fresh(server.vault.state.dek)
      invariant fresh(server.kv.records) && fresh(server.transit.keys) && fresh(server.audit)
      invariant |answers| <= |ops| && server.View() == Machine.Run(p, ops[..|answers|])
      invariant forall k :: 0 <= k < |answers| ==> answers[k] == Machine.Answer(p, ops, k)
      decreases |ops| - |answers|
    {
      var n := |answers|;
      assert ops[..n + 1][..n] == ops[..n];
      var resp := server.Handle(ops[n]);
      answers := answers + [resp];
    }
    assert ops[..|ops|] == ops;
    AuditTrail.TrailIsExact(p, ops);
    if Refinement.LegalRun(p, ops) {
      DekForLife.OpenExactlyWhenUnlocked(p, ops);
      forall k | 0 <= k < |ops| && IsKvOp(ops[k])
        ensures answers[k] == KvHistory.Expected(ops[k], DekForLife.OpenByAnswers(p, ops[..k]),
                                                 KvHistory.Acknowledged(p, ops[..k], (ops[k].user, ops[k].path)))
      {
        KvHistory.KvAnswersFromHistory(p, ops, k);
      }
    }
  }
}
