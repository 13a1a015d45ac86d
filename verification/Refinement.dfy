/** The real machine answers every request of every run as the ideal one does. */
module Refinement {
  import opened World
  import opened Simulation
  import opened RefineVault
  import RefineKv
  import RefineKeys
  import RefineData
  import VaultEngine
  import KvEngine
  import Machine
  import T = TransitEngine
  import I = Ideal

  /** Every request of the run draws unused nonces and new key material. */
  ghost predicate LegalRun(p: Prims, ops: seq<Op>) {
    forall k :: 0 <= k < |ops| ==> Legal(p, Machine.Run(p, ops[..k]), ops[k])
  }

  ghost predicate Agree(p: Prims, s: Sys, i: I.State, op: Op) {
    && Machine.Step(p, s, op).1 == I.Step(p, i, op).1
    && Sim(p, Machine.Step(p, s, op).0, I.Step(p, i, op).0)
  }

  lemma VaultStep(p: Prims, s: Sys, i: I.State, op: Op)
    requires Sim(p, s, i) && Legal(p, s, op) && IsVaultOp(op)
    ensures Agree(p, s, i, op)
  {
    hide Sim, VaultEngine.Initialize, VaultEngine.Unlock, VaultEngine.Lock, I.Initialize, I.Unlock, I.Lock;
    match op
    case Initialize(passphrase, params, salt, dek, draw) =>
      RefineInitialize(p, s, i, passphrase, params, salt, dek, draw);
    case Unlock(passphrase) =>
      RefineUnlock(p, s, i, passphrase);
      assert s.(vault := s.vault) == s;
    case Lock => RefineLock(p, s, i);
    case Restart => RefineLock(p, s, i);
  }

  lemma KvStep(p: Prims, s: Sys, i: I.State, op: Op)
    requires Sim(p, s, i) && Legal(p, s, op) && IsKvOp(op)
    ensures Agree(p, s, i, op)
  {
    hide Sim, KvEngine.Write, KvEngine.Read, KvEngine.ListHistory, KvEngine.Delete, I.Write, I.Read, I.ListHistory,
      I.Delete;
    match op
    case KvWrite(user, path, data, now, draw) => RefineKv.RefineWrite(p, s, i, user, path, data, now, draw);
    case KvRead(user, path, version, now) => RefineKv.RefineRead(p, s, i, user, path, version, now);
    case KvVersions(user, path, now) => RefineKv.RefineHistory(p, s, i, user, path, now);
    case KvDelete(user, path, now) => RefineKv.RefineDelete(p, s, i, user, path, now);
  }

  predicate IsKeyOp(op: Op) {
    op.CreateKey? || op.CreateSigningKey? || op.RotateKey? || op.ListKeys? || op.DeleteKey?
  }

  lemma KeyStep(p: Prims, s: Sys, i: I.State, op: Op)
    requires Sim(p, s, i) && Legal(p, s, op) && IsKeyOp(op)
    ensures Agree(p, s, i, op)
  {
    hide Sim, FreshMint, T.Create, T.CreateSigning, T.Rotate, T.List, T.Delete,
      I.CreateKey, I.CreateSigning, I.RotateKey, I.ListKeys, I.DeleteKey;
    match op
    case CreateKey(user, name, now, mint) => RefineKeys.RefineCreate(p, s, i, user, name, now, mint);
    case CreateSigningKey(user, name, algorithm, now, mint) =>
      RefineKeys.RefineCreateSigning(p, s, i, user, name, algorithm, now, mint);
    case RotateKey(user, name, now, mint) => RefineKeys.RefineRotate(p, s, i, user, name, now, mint);
    case ListKeys(user) => RefineKeys.RefineList(p, s, i, user);
    case DeleteKey(user, name, now) => RefineKeys.RefineDelete(p, s, i, user, name, now);
  }

  lemma DataStep(p: Prims, s: Sys, i: I.State, op: Op)
    requires Sim(p, s, i) && Legal(p, s, op)
    requires op.EncryptData? || op.DecryptData? || op.Sign? || op.VerifySignature?
    ensures Agree(p, s, i, op)
  {
    hide Sim, T.EncryptData, T.DecryptData, T.Sign, T.Verify, I.EncryptData, I.DecryptData, I.Sign, I.Verify;
    match op
    case EncryptData(user, name, text, now, draw) => RefineData.RefineEncrypt(p, s, i, user, name, text, now, draw);
    case DecryptData(user, token, now) => RefineData.RefineDecrypt(p, s, i, user, token, now);
    case Sign(user, name, message, kind, algorithm, now, signature) =>
      RefineData.RefineSign(p, s, i, user, name, message, kind, algorithm, now, signature);
    case VerifySignature(user, name, message, kind, signature, algorithm, version, now) =>
      RefineData.RefineVerify(p, s, i, user, name, message, kind, signature, algorithm, version, now);
  }

  lemma StepRefines(p: Prims, s: Sys, i: I.State, op: Op)
    requires Sim(p, s, i) && Legal(p, s, op)
    ensures Agree(p, s, i, op)
  {
    hide Sim, Legal, Agree;
    if IsVaultOp(op) {
      VaultStep(p, s, i, op);
    } else if IsKeyOp(op) {
      KeyStep(p, s, i, op);
    } else if IsKvOp(op) {
      KvStep(p, s, i, op);
    } else {
      DataStep(p, s, i, op);
    }
  }

  lemma StartSim(p: Prims)
    ensures Sim(p, START, I.START)
  {
  }

  lemma {:induction false} RunRefines(p: Prims, ops: seq<Op>)
    requires LegalRun(p, ops)
    ensures Sim(p, Machine.Run(p, ops), I.Run(p, ops))
  {
    hide Sim, Legal, LegalRun, Machine.Step, I.Step;
    if ops == [] {
      StartSim(p);
    } else {
      var before, op := ops[..|ops| - 1], ops[|ops| - 1];
      PrefixLegal(p, ops, |ops| - 1);
      RunRefines(p, before);
      StepRefines(p, Machine.Run(p, before), I.Run(p, before), op);
    }
  }

  lemma PrefixLegal(p: Prims, ops: seq<Op>, n: nat)
    requires LegalRun(p, ops) && n <= |ops|
    ensures LegalRun(p, ops[..n])
    ensures n < |ops| ==> Legal(p, Machine.Run(p, ops[..n]), ops[n])
  {
    hide Legal, Machine.Run;
    forall k | 0 <= k < n ensures Legal(p, Machine.Run(p, ops[..n][..k]), ops[..n][k]) {
      assert ops[..n][..k] == ops[..k];
    }
  }

  /** Refinement.  Over every run, whatever its users do and whenever the vault is
      locked, unlocked or restarted, each answer is the ideal one: a key-value
      history per (owner, path) and a version history per (owner, key name). */
  lemma AnswersAreIdeal(p: Prims, ops: seq<Op>, k: nat)
    requires LegalRun(p, ops) && k < |ops|
    ensures Machine.Answer(p, ops, k) == I.Answer(p, ops, k)
  {
    PrefixLegal(p, ops, k);
    RunRefines(p, ops[..k]);
    hide Sim, Legal, Machine.Run, I.Run, Machine.Step, I.Step;
    StepRefines(p, Machine.Run(p, ops[..k]), I.Run(p, ops[..k]), ops[k]);
  }

  /** All that is known around request `n` of a run. */
  lemma RequestFacts(p: Prims, ops: seq<Op>, n: nat)
    requires LegalRun(p, ops) && n < |ops|
    ensures Sim(p, Machine.Run(p, ops[..n]), I.Run(p, ops[..n]))
    ensures Sim(p, Machine.Run(p, ops[..n + 1]), I.Run(p, ops[..n + 1]))
    ensures Legal(p, Machine.Run(p, ops[..n]), ops[n])
    ensures Machine.Answer(p, ops, n) == I.Step(p, I.Run(p, ops[..n]), ops[n]).1
    ensures I.Run(p, ops[..n + 1]) == I.Step(p, I.Run(p, ops[..n]), ops[n]).0
    ensures Machine.Run(p, ops[..n + 1]) == Machine.Step(p, Machine.Run(p, ops[..n]), ops[n]).0
  {
    hide Sim, Legal, I.Step, Machine.Step, LegalRun;
    PrefixLegal(p, ops, n);
    PrefixLegal(p, ops, n + 1);
    RunRefines(p, ops[..n]);
    RunRefines(p, ops[..n + 1]);
    AnswersAreIdeal(p, ops, n);
    assert ops[..n + 1][..n] == ops[..n];
  }
}
