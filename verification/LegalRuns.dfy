/** What the whole-run theorems ask of chance, in terms of the requests alone. */
module LegalRuns {
  import opened Text
  import opened Base64
  import opened Crypto
  import opened World
  import opened Simulation
  import opened Refinement
  import AuditChain
  import Aad
  import KvPaths
  import KvStore
  import KeyStore
  import TransitToken
  import VersionedTables
  import VaultEngine
  import Machine
  import T = TransitEngine

  /** In this state the request mints a signing key: it creates or rotates one. */
  predicate SignsIn(s: Sys, op: Op): (signs: bool)
    ensures signs ==> MintsKey(op)
  {
    || op.CreateSigningKey?
    || (op.RotateKey? && T.RotatedUsage(s.keys, (op.user, op.name)) == T.SIGN_VERIFY)
  }

  predicate SignerAt(p: Prims, ops: seq<Op>, k: nat)
    requires k < |ops|
  {
    SignsIn(Machine.Run(p, ops[..k]), ops[k])
  }

  /** Nonces, tags, DEKs and key material have the lengths their generators give them, and
      a value written is the JSON text of an object. */
  predicate WellDrawn(p: Prims, op: Op) {
    && (DrawOf(op).Some? ==> |DrawOf(op).value.nonce| == NONCE_LENGTH && |DrawOf(op).value.body| >= TAG_LENGTH)
    && (op.Initialize? ==> |op.dek| == 32)
    && (op.KvWrite? ==> p.isObject(op.data))
    && (MintsKey(op) ==> |op.mint.material| == 32)
  }

  /** The two requests draw no nonce and mint no material in common. */
  predicate Apart(a: Op, b: Op) {
    && (DrawOf(a).Some? && DrawOf(b).Some? ==> DrawOf(a).value.nonce != DrawOf(b).value.nonce)
    && (MintsKey(a) && MintsKey(b) ==> a.mint.material != b.mint.material)
  }

  /** All draws of the run differ, and so do the public keys of its signing keys. */
  ghost predicate DistinctDraws(p: Prims, ops: seq<Op>) {
    && (forall k :: 0 <= k < |ops| ==> WellDrawn(p, ops[k]))
    && (forall j, k :: 0 <= j < k < |ops| ==> Apart(ops[j], ops[k]))
    && (forall k :: 0 <= k < |ops| && SignerAt(p, ops, k) ==> |p.publicKey(ops[k].mint.material)| == 32)
    && (forall j, k :: 0 <= j < k < |ops| && SignerAt(p, ops, j) && SignerAt(p, ops, k) ==>
          p.publicKey(ops[j].mint.material) != p.publicKey(ops[k].mint.material))
  }

  // --------------------------------------------- one request uses only its own draws

  ghost predicate OwnDraws(s: Sys, op: Op, s': Sys) {
    && (forall box :: box in s'.ledger ==>
          box in s.ledger || (DrawOf(op).Some? && box.nonce == DrawOf(op).value.nonce))
    && (forall m :: m in s'.minted ==>
          || (m in s.minted && s'.minted[m] == s.minted[m])
          || (MintsKey(op) && m == op.mint.material && (s'.minted[m].usage == T.SIGN_VERIFY ==> SignsIn(s, op))))
  }

  lemma WrapOwn(p: Prims, s: Sys, op: Op, key: VersionedTables.Key, usage: string, version: int)
    requires MintsKey(op) && s.vault.dek.Some? && (usage == T.SIGN_VERIFY ==> SignsIn(s, op))
    ensures var r := T.Wrap(p, s, key, usage, version, op.mint);
            r.Some? ==> OwnDraws(s, op, r.value.0) && r.value.0.keys == s.keys
  {
    hide Aad.KeyAad, Encode;
  }

  lemma InstallOwn(p: Prims, s: Sys, op: Op, usage: string)
    requires op.CreateKey? || op.CreateSigningKey?
    requires s.vault.dek.Some? && (usage == T.SIGN_VERIFY ==> SignsIn(s, op))
    ensures OwnDraws(s, op, T.Install(p, s, op.user, op.name, usage, op.now, op.mint).0)
  {
    hide T.Wrap, KeyStore.Create, T.InfoOf;
    WrapOwn(p, s, op, (op.user, op.name), usage, 1);
  }

  lemma CreateOwn(p: Prims, s: Sys, op: Op)
    requires op.CreateKey? || op.CreateSigningKey?
    ensures OwnDraws(s, op, Machine.Step(p, s, op).0)
  {
    hide T.Install, TransitToken.ValidName, Upper;
    if s.vault.dek.Some? {
      InstallOwn(p, s, op, if op.CreateKey? then T.ENCRYPT_DECRYPT else T.SIGN_VERIFY);
    }
  }

  lemma RotateOwn(p: Prims, s: Sys, op: Op)
    requires op.RotateKey?
    ensures OwnDraws(s, op, Machine.Step(p, s, op).0)
  {
    hide T.Wrap, KeyStore.Rotate, T.InfoOf, TransitToken.ValidName, T.RotatedUsage, AuditChain.Append,
      AuditChain.DeniedCall;
    var key := (op.user, op.name);
    if s.vault.dek.Some? {
      WrapOwn(p, s, op, key, T.RotatedUsage(s.keys, key), VersionedTables.NextVersion(s.keys, key));
    }
  }

  lemma WriteOwn(p: Prims, s: Sys, op: Op)
    requires op.KvWrite? || op.Initialize?
    ensures OwnDraws(s, op, Machine.Step(p, s, op).0)
  {
    hide Aad.KvAad, KvPaths.Authorized, KvStore.Append, Encode, VaultEngine.WrappingKey, AuditChain.Append,
      AuditChain.DeniedCall;
  }

  lemma EncryptOwn(p: Prims, s: Sys, op: Op)
    requires op.EncryptData?
    ensures OwnDraws(s, op, Machine.Step(p, s, op).0)
  {
    hide Aad.DataAad, TransitToken.ValidName, T.Unwrap, Decode, TransitToken.Format, AuditChain.Append,
      AuditChain.DeniedCall;
  }

  lemma OtherOwn(p: Prims, s: Sys, op: Op)
    requires DrawOf(op).None?
    ensures OwnDraws(s, op, Machine.Step(p, s, op).0)
  {
    hide VaultEngine.Unlock, VaultEngine.Lock, AuditChain.Append, AuditChain.DeniedCall, T.OwnedError, T.SigningError,
      T.Unwrap, T.MessageDigest, Decrypt, OpenColumns, Decode, Encode, TransitToken.Parse, Upper, KvPaths.Authorized;
  }

  lemma StepOwn(p: Prims, s: Sys, op: Op)
    ensures OwnDraws(s, op, Machine.Step(p, s, op).0)
  {
    hide Machine.Step, OwnDraws;
    if op.CreateKey? || op.CreateSigningKey? {
      CreateOwn(p, s, op);
    } else if op.RotateKey? {
      RotateOwn(p, s, op);
    } else if op.KvWrite? || op.Initialize? {
      WriteOwn(p, s, op);
    } else if op.EncryptData? {
      EncryptOwn(p, s, op);
    } else {
      OtherOwn(p, s, op);
    }
  }

  // ----------------------------------------------------------------- over whole runs

  ghost predicate DrewNonce(ops: seq<Op>, j: nat, nonce: Bytes) {
    j < |ops| && DrawOf(ops[j]).Some? && DrawOf(ops[j]).value.nonce == nonce
  }

  /** Request `j` minted this material, and for signing only if it minted a signing key. */
  ghost predicate MintedIt(p: Prims, ops: seq<Op>, j: nat, material: Bytes, usage: string) {
    && j < |ops| && MintsKey(ops[j]) && ops[j].mint.material == material
    && (usage == T.SIGN_VERIFY ==> SignerAt(p, ops, j))
  }

  ghost predicate Sourced(p: Prims, ops: seq<Op>, s: Sys) {
    && (forall box :: box in s.ledger ==> exists j: nat :: DrewNonce(ops, j, box.nonce))
    && (forall m :: m in s.minted ==> exists j: nat :: MintedIt(p, ops, j, m, s.minted[m].usage))
  }

  lemma SourcedStep(p: Prims, ops: seq<Op>, s: Sys, s': Sys)
    requires ops != [] && Sourced(p, ops[..|ops| - 1], s) && OwnDraws(s, ops[|ops| - 1], s')
    requires s == Machine.Run(p, ops[..|ops| - 1])
    ensures Sourced(p, ops, s')
  {
    hide Machine.Run, SignsIn;
    var n := |ops| - 1;
    forall box | box in s'.ledger ensures exists j: nat :: DrewNonce(ops, j, box.nonce) {
      if box in s.ledger {
        var j: nat :| DrewNonce(ops[..n], j, box.nonce);
        assert DrewNonce(ops, j, box.nonce);
      } else {
        assert DrewNonce(ops, n, box.nonce);
      }
    }
    forall m | m in s'.minted ensures exists j: nat :: MintedIt(p, ops, j, m, s'.minted[m].usage) {
      if m in s.minted && s'.minted[m] == s.minted[m] {
        var j: nat :| MintedIt(p, ops[..n], j, m, s.minted[m].usage);
        assert ops[..n][..j] == ops[..j];
        assert MintedIt(p, ops, j, m, s'.minted[m].usage);
      } else {
        assert MintedIt(p, ops, n, m, s'.minted[m].usage);
      }
    }
  }

  lemma {:induction false} RunSourced(p: Prims, ops: seq<Op>)
    ensures Sourced(p, ops, Machine.Run(p, ops))
  {
    hide Machine.Step, OwnDraws;
    if ops != [] {
      var n := |ops| - 1;
      RunSourced(p, ops[..n]);
      StepOwn(p, Machine.Run(p, ops[..n]), ops[n]);
      hide Sourced;
      SourcedStep(p, ops, Machine.Run(p, ops[..n]), Machine.Run(p, ops));
    }
  }

  lemma LegalHere(p: Prims, s: Sys, op: Op)
    requires WellDrawn(p, op)
    requires DrawOf(op).Some? ==> forall box :: box in s.ledger ==> box.nonce != DrawOf(op).value.nonce
    requires MintsKey(op) ==> op.mint.material !in s.minted
    requires SignsIn(s, op) ==> |p.publicKey(op.mint.material)| == 32
    requires SignsIn(s, op) ==> forall m :: Signer(s.minted, m) ==> p.publicKey(m) != p.publicKey(op.mint.material)
    ensures Legal(p, s, op)
  {
  }

  /** The assumption of the whole-run theorems is met by every run whose requests draw
      pairwise different nonces and key material, when its signing keys have pairwise
      different public keys. */
  lemma DistinctDrawsAreLegal(p: Prims, ops: seq<Op>)
    requires DistinctDraws(p, ops)
    ensures LegalRun(p, ops)
  {
    hide Legal, Machine.Run, DrawOf, WellDrawn, SignsIn;
    forall k | 0 <= k < |ops| ensures Legal(p, Machine.Run(p, ops[..k]), ops[k]) {
      var s := Machine.Run(p, ops[..k]);
      RunSourced(p, ops[..k]);
      forall box | box in s.ledger && DrawOf(ops[k]).Some? ensures box.nonce != DrawOf(ops[k]).value.nonce {
        var j: nat :| DrewNonce(ops[..k], j, box.nonce);
        assert Apart(ops[j], ops[k]);
      }
      forall m | m in s.minted && MintsKey(ops[k]) ensures m != ops[k].mint.material {
        var j: nat :| MintedIt(p, ops[..k], j, m, s.minted[m].usage);
        assert Apart(ops[j], ops[k]);
      }
      forall m | Signer(s.minted, m) && SignsIn(s, ops[k]) ensures p.publicKey(m) != p.publicKey(ops[k].mint.material) {
        var j: nat :| MintedIt(p, ops[..k], j, m, s.minted[m].usage);
        assert ops[..k][..j] == ops[..j];
        assert SignerAt(p, ops, j) && SignerAt(p, ops, k);
      }
      LegalHere(p, s, ops[k]);
    }
  }
}
