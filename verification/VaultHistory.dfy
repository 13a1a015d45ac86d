/** The vault's own requests answered from the requests and answers of a run alone. */
module VaultHistory {
  import opened Text
  import opened Base64
  import opened World
  import opened IdealFrames
  import opened Simulation
  import opened Refinement
  import opened DekForLife
  import Passphrase
  import Machine
  import I = Ideal

  /** Some request so far made the vault. */
  ghost predicate Initialized(p: Prims, ops: seq<Op>) {
    exists j: nat :: MadeAt(p, ops, j)
  }

  lemma AnswerEarlier(p: Prims, ops: seq<Op>, n: nat, j: nat)
    requires j < n <= |ops|
    ensures Machine.Answer(p, ops[..n], j) == Machine.Answer(p, ops, j)
  {
    hide Machine.Step, Machine.Run;
    assert ops[..n][..j] == ops[..j];
  }

  lemma MadeStep(p: Prims, s: I.State, op: Op)
    ensures I.Step(p, s, op).0.vault.Made?
       <==> s.vault.Made? || (op.Initialize? && I.Step(p, s, op).1.Status?)
  {
    if !IsVaultOp(op) {
      hide I.Step;
      StepFrame(p, s, op);
    }
  }

  lemma {:induction false} MadeMeans(p: Prims, ops: seq<Op>)
    requires LegalRun(p, ops)
    ensures I.Run(p, ops).vault.Made? <==> Initialized(p, ops)
  {
    hide I.Step, Machine.Answer, LegalRun;
    if ops != [] {
      var n := |ops| - 1;
      PrefixLegal(p, ops, n);
      MadeMeans(p, ops[..n]);
      AnswersAreIdeal(p, ops, n);
      MadeStep(p, I.Run(p, ops[..n]), ops[n]);
      forall j: nat | j < n ensures MadeAt(p, ops, j) <==> MadeAt(p, ops[..n], j) {
        AnswerEarlier(p, ops, n, j);
      }
      assert MadeAt(p, ops, n) <==> ops[n].Initialize? && Machine.Answer(p, ops, n).Status?;
    }
  }

  /** The answer an initialisation should get. */
  ghost function InitializeAnswer(p: Prims, op: Op, initialized: bool): Resp
    requires op.Initialize?
  {
    if initialized then Failed(VaultAlreadyInitialized)
    else if !Passphrase.Strong(op.passphrase) then Failed(PassphrasePolicy)
    else if |op.salt| < 16 || |p.deriveKey(op.passphrase, op.salt, op.params)| != 32 then Failed(Internal)
    else Status(true, false)
  }

  lemma IdealInitializes(p: Prims, s: I.State, op: Op)
    requires op.Initialize?
    ensures I.Step(p, s, op).1 == InitializeAnswer(p, op, s.vault.Made?)
  {
    Passphrase.StrongMeans(op.passphrase);
    hide Passphrase.Strong, Passphrase.Classes, Passphrase.Contains, Lower, Passphrase.FORBIDDEN;
  }

  /** Initialisation, exactly: refused once the vault is made, then for a weak passphrase,
      then when no key can be derived, and otherwise it leaves a made and locked vault. */
  lemma InitializeIsAnswered(p: Prims, ops: seq<Op>, k: nat)
    requires LegalRun(p, ops) && k < |ops| && ops[k].Initialize?
    ensures Machine.Answer(p, ops, k) == InitializeAnswer(p, ops[k], Initialized(p, ops[..k]))
  {
    hide Machine.Answer, LegalRun, I.Run, I.Step, InitializeAnswer, Initialized;
    AnswersAreIdeal(p, ops, k);
    PrefixLegal(p, ops, k);
    MadeMeans(p, ops[..k]);
    IdealInitializes(p, I.Run(p, ops[..k]), ops[k]);
  }

  lemma IdealLocks(p: Prims, s: I.State, op: Op)
    requires op.Lock? || op.Restart?
    ensures I.Step(p, s, op).1 == Status(s.vault.Made?, false)
  {
  }

  /** Locking, exactly: it tells whether there is a vault, and leaves it locked. */
  lemma LockIsAnswered(p: Prims, ops: seq<Op>, k: nat)
    requires LegalRun(p, ops) && k < |ops| && (ops[k].Lock? || ops[k].Restart?)
    ensures Machine.Answer(p, ops, k) == Status(Initialized(p, ops[..k]), false)
    ensures var before, after := Machine.Run(p, ops[..k]), Machine.Run(p, ops[..k + 1]);
            after == before.(vault := before.vault.(dek := None))
  {
    hide LegalRun, I.Run, I.Step, Initialized;
    AnswersAreIdeal(p, ops, k);
    PrefixLegal(p, ops, k);
    MadeMeans(p, ops[..k]);
    IdealLocks(p, I.Run(p, ops[..k]), ops[k]);
    assert ops[..k + 1][..k] == ops[..k];
  }

  lemma IdealRefuses(p: Prims, s: I.State, op: Op)
    requires op.Unlock? && s.vault.Fresh?
    ensures I.Step(p, s, op).1 == Failed(VaultNotInitialized)
  {
  }

  /** Unlocking, exactly: refused while there is no vault, and otherwise decided by the one
      initialisation that made it. */
  lemma UnlockIsAnswered(p: Prims, ops: seq<Op>, k: nat)
    requires LegalRun(p, ops) && k < |ops| && ops[k].Unlock?
    ensures !Initialized(p, ops[..k]) ==> Machine.Answer(p, ops, k) == Failed(VaultNotInitialized)
    ensures forall j: nat :: MadeAt(p, ops[..k], j) ==>
              Machine.Answer(p, ops, k) == UnlockAnswer(p, ops[j], ops[k].passphrase)
  {
    hide Machine.Answer, LegalRun, I.Run, I.Step, UnlockAnswer;
    AnswersAreIdeal(p, ops, k);
    PrefixLegal(p, ops, k);
    MadeMeans(p, ops[..k]);
    if !Initialized(p, ops[..k]) {
      IdealRefuses(p, I.Run(p, ops[..k]), ops[k]);
    }
    forall j: nat | MadeAt(p, ops[..k], j)
      ensures Machine.Answer(p, ops, k) == UnlockAnswer(p, ops[j], ops[k].passphrase)
    {
      AnswerEarlier(p, ops, k, j);
      UnlockRestoresTheDek(p, ops, j, k);
    }
  }

  /** What a fresh vault keeps on disk. */
  ghost predicate Keeps(config: Config, op: Op)
    requires op.Initialize?
  {
    && config.version == 1 && config.kdf == "argon2id" && Decode(config.salt) == Some(op.salt)
    && config.params == op.params
  }

  lemma ConfigHolds(s: Sys, v: I.IVault)
    requires SimVault(s, v) && v.Made?
    ensures s.vault.config.Some? && s.vault.config.value.version == 1 && s.vault.config.value.kdf == "argon2id"
    ensures Decode(s.vault.config.value.salt) == Some(v.salt) && s.vault.config.value.params == v.params
  {
    hide Decode, Encode;
    DecodeEncode(v.salt);
  }

  /** The stored configuration is that of the initialisation, in every continuation. */
  lemma ConfigForLife(p: Prims, ops: seq<Op>, j: nat, m: nat)
    requires LegalRun(p, ops) && MadeAt(p, ops, j) && j < m <= |ops|
    ensures Machine.Run(p, ops[..m]).vault.config.Some?
    ensures Keeps(Machine.Run(p, ops[..m]).vault.config.value, ops[j])
  {
    hide LegalRun, Machine.Run, I.Run, MadeAt, SimVault, SimKv, SimKeys, SimSealed, SimSigned, Objects;
    MadeForLife(p, ops, j, m);
    PrefixLegal(p, ops, m);
    RunRefines(p, ops[..m]);
    ConfigHolds(Machine.Run(p, ops[..m]), I.Run(p, ops[..m]).vault);
  }
}
