/** The vault over whole runs: one data-encryption key for life, and when it is in memory. */
module DekForLife {
  import opened Text
  import opened World
  import opened IdealFrames
  import opened Simulation
  import opened Refinement
  import Machine
  import I = Ideal

  /** Request `j` made the vault: the first, and only, initialisation to succeed. */
  predicate MadeAt(p: Prims, ops: seq<Op>, j: nat) {
    j < |ops| && ops[j].Initialize? && Machine.Answer(p, ops, j).Status?
  }

  /** Whether the vault should be open, going by requests and answers alone. */
  function OpenByAnswers(p: Prims, ops: seq<Op>): bool {
    if ops == [] then false
    else
      var n := |ops| - 1;
      match ops[n]
      case Initialize(_, _, _, _, _) => OpenByAnswers(p, ops[..n])
      case Unlock(_) => Machine.Answer(p, ops, n).Status?
      case Lock => false
      case Restart => false
      case _ => OpenByAnswers(p, ops[..n])
  }

  /** Which answer a passphrase gets, and whether the vault is open after it. */
  function UnlockAnswer(p: Prims, made: Op, passphrase: string): Resp
    requires made.Initialize?
  {
    var key := p.deriveKey(passphrase, made.salt, made.params);
    if passphrase == "" || |key| != 32 then Failed(VaultConfigCorrupted)
    else if key != p.deriveKey(made.passphrase, made.salt, made.params) then Failed(InvalidMasterPassphrase)
    else Status(true, true)
  }

  ghost predicate MadeBy(p: Prims, v: I.IVault, made: Op)
    requires made.Initialize?
  {
    && v.Made? && v.salt == made.salt && v.params == made.params && v.dek == made.dek
    && v.wrappingKey == p.deriveKey(made.passphrase, made.salt, made.params)
    && |v.wrappingKey| == 32 && |made.salt| >= 16 && made.passphrase != ""
  }

  lemma MadeStays(p: Prims, s: I.State, op: Op, made: Op)
    requires made.Initialize? && MadeBy(p, s.vault, made)
    ensures MadeBy(p, I.Step(p, s, op).0.vault, made)
  {
    if !IsVaultOp(op) {
      hide I.Step, MadeBy;
      StepFrame(p, s, op);
    }
  }

  lemma MadeFirst(p: Prims, s: I.State, op: Op)
    requires op.Initialize? && I.Step(p, s, op).1.Status?
    ensures MadeBy(p, I.Step(p, s, op).0.vault, op)
  {
  }

  lemma MadeThere(p: Prims, ops: seq<Op>, j: nat)
    requires LegalRun(p, ops) && MadeAt(p, ops, j)
    ensures MadeBy(p, I.Run(p, ops[..j + 1]).vault, ops[j])
  {
    hide I.Step, Machine.Answer, LegalRun, MadeBy;
    AnswersAreIdeal(p, ops, j);
    assert ops[..j + 1][..j] == ops[..j];
    MadeFirst(p, I.Run(p, ops[..j]), ops[j]);
  }

  lemma {:induction false} MadeForLife(p: Prims, ops: seq<Op>, j: nat, m: nat)
    requires LegalRun(p, ops) && MadeAt(p, ops, j) && j < m <= |ops|
    ensures MadeBy(p, I.Run(p, ops[..m]).vault, ops[j])
  {
    hide I.Step, MadeBy, LegalRun, Machine.Answer;
    if m == j + 1 {
      MadeThere(p, ops, j);
    } else {
      var before := ops[..m - 1];
      assert ops[..m][..m - 1] == before;
      MadeForLife(p, ops, j, m - 1);
      MadeStays(p, I.Run(p, before), ops[m - 1], ops[j]);
    }
  }

  lemma VaultAgrees(p: Prims, s: Sys, i: I.State)
    requires Sim(p, s, i)
    ensures s.vault.config.Some? <==> i.vault.Made?
    ensures s.vault.dek == if I.IsOpen(i) then Some(i.vault.dek) else None
  {
    hide SimKv, SimKeys, SimSealed, SimSigned, Crypto.OpenColumns;
  }

  /** One DEK for life.  From the initialisation on, in every continuation, the DEK in
      memory is the one generated then or none. */
  lemma OneDekForLife(p: Prims, ops: seq<Op>, j: nat, m: nat)
    requires LegalRun(p, ops) && MadeAt(p, ops, j) && j < m <= |ops|
    ensures Machine.Run(p, ops[..m]).vault.dek in {None, Some(ops[j].dek)}
    ensures Machine.Run(p, ops[..m]).vault.config.Some?
  {
    MadeForLife(p, ops, j, m);
    PrefixLegal(p, ops, m);
    RunRefines(p, ops[..m]);
    hide Sim, LegalRun, Machine.Run, I.Run, MadeAt;
    VaultAgrees(p, Machine.Run(p, ops[..m]), I.Run(p, ops[..m]));
  }

  /** Unlocking.  Every later unlock is decided by the passphrase, salt and parameters
      of the initialisation, whatever the settings have become: it loads exactly that
      DEK, or it fails and the vault is locked, even if it was open before. */
  lemma UnlockRestoresTheDek(p: Prims, ops: seq<Op>, j: nat, k: nat)
    requires LegalRun(p, ops) && MadeAt(p, ops, j) && j < k < |ops| && ops[k].Unlock?
    ensures Machine.Answer(p, ops, k) == UnlockAnswer(p, ops[j], ops[k].passphrase)
    ensures Machine.Run(p, ops[..k + 1]).vault.dek
         == if UnlockAnswer(p, ops[j], ops[k].passphrase).Status? then Some(ops[j].dek) else None
  {
    hide Sim, Legal, LegalRun, Machine.Run, Machine.Step, Machine.Answer, I.Run, UnlockAnswer, I.Unlock, MadeBy;
    MadeForLife(p, ops, j, k);
    RequestFacts(p, ops, k);
    IdealUnlock(p, I.Run(p, ops[..k]), ops[j], ops[k].passphrase);
    VaultAgrees(p, Machine.Run(p, ops[..k + 1]), I.Run(p, ops[..k + 1]));
  }

  lemma IdealUnlock(p: Prims, s: I.State, made: Op, passphrase: string)
    requires made.Initialize? && MadeBy(p, s.vault, made)
    ensures I.Unlock(p, s.vault, passphrase).1 == UnlockAnswer(p, made, passphrase)
    ensures var v := I.Unlock(p, s.vault, passphrase).0;
            v == s.vault.(open := UnlockAnswer(p, made, passphrase).Status?) && v.dek == made.dek
  {
  }

  /** The right passphrase always opens the vault again. */
  lemma RightPassphraseUnlocks(p: Prims, ops: seq<Op>, j: nat, k: nat)
    requires LegalRun(p, ops) && MadeAt(p, ops, j) && j < k < |ops| && ops[k] == Unlock(ops[j].passphrase)
    ensures Machine.Run(p, ops[..k + 1]).vault.dek == Some(ops[j].dek)
  {
    UnlockRestoresTheDek(p, ops, j, k);
    MadeForLife(p, ops, j, k);
    hide Machine.Run, I.Run, LegalRun, MadeAt;
  }

  /** A vault is made once. */
  lemma SecondInitializeRefused(p: Prims, ops: seq<Op>, j: nat, k: nat)
    requires LegalRun(p, ops) && MadeAt(p, ops, j) && j < k < |ops| && ops[k].Initialize?
    ensures Machine.Answer(p, ops, k) == Failed(VaultAlreadyInitialized)
    ensures Machine.Run(p, ops[..k + 1]) == Machine.Run(p, ops[..k])
  {
    hide LegalRun, MadeAt, Machine.Step;
    assert ops[..k + 1][..k] == ops[..k];
    OneDekForLife(p, ops, j, k);
    InitializeRefused(p, Machine.Run(p, ops[..k]), ops[k]);
  }

  lemma InitializeRefused(p: Prims, s: Sys, op: Op)
    requires op.Initialize? && s.vault.config.Some?
    ensures Machine.Step(p, s, op) == (s, Failed(VaultAlreadyInitialized))
  {
    assert s.(vault := s.vault, ledger := s.ledger) == s;
  }

  /** The DEK is in memory exactly when the last unlock succeeded and nothing locked or
      restarted the vault since. */
  lemma {:induction false} OpenExactlyWhenUnlocked(p: Prims, ops: seq<Op>)
    requires LegalRun(p, ops)
    ensures I.IsOpen(I.Run(p, ops)) == OpenByAnswers(p, ops)
    ensures Machine.Run(p, ops).vault.dek.Some? == OpenByAnswers(p, ops)
  {
    RunRefines(p, ops);
    if ops == [] {
    } else {
      var n := |ops| - 1;
      var before := ops[..n];
      PrefixLegal(p, ops, n);
      OpenExactlyWhenUnlocked(p, before);
      AnswersAreIdeal(p, ops, n);
      VaultAgrees(p, Machine.Run(p, ops), I.Run(p, ops));
      hide Sim, LegalRun, Machine.Run, Machine.Answer;
      OpenStep(p, I.Run(p, before), ops[n]);
      hide I.Step;
    }
  }

  lemma OpenStep(p: Prims, s: I.State, op: Op)
    ensures I.IsOpen(I.Step(p, s, op).0)
        <==> (if op.Unlock? then I.Step(p, s, op).1.Status?
              else !op.Lock? && !op.Restart? && I.IsOpen(s))
  {
    if !IsVaultOp(op) {
      hide I.Step;
      StepFrame(p, s, op);
    }
  }
}
