/** Which requests of the ideal machine change which part of its state. */
module IdealFrames {
  import opened Text
  import opened Base64
  import opened World
  import KvPaths
  import TransitToken
  import T = TransitEngine
  import I = Ideal

  /** Only the vault requests touch the vault, only key requests the keys, and so on. */
  lemma StepFrame(p: Prims, s: I.State, op: Op)
    ensures var s' := I.Step(p, s, op).0;
            && (IsVaultOp(op) || s'.vault == s.vault)
            && (op.KvWrite? || op.KvDelete? || s'.kv == s.kv)
            && (MintsKey(op) || op.DeleteKey? || s'.keys == s.keys)
            && (op.EncryptData? || s'.sealed == s.sealed)
            && (op.Sign? || s'.signed == s.signed)
  {
    hide I.Initialize, I.Unlock, I.Lock, I.Read, I.ListHistory, I.ListKeys, I.DecryptData, I.Verify,
      I.OwnedError, I.SigningError, I.InfoOf, T.MessageDigest, TransitToken.Format, TransitToken.ValidName,
      Decode, Upper, Encode, KvPaths.Authorized;
  }
}
