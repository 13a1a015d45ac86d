/** The whole server as a state machine, one request a step. */
module Machine {
  import opened World
  import VaultEngine
  import KvEngine
  import TransitEngine

  function Step(p: Prims, s: Sys, op: Op): (Sys, Resp) {
    match op
    case Initialize(passphrase, params, salt, dek, draw) =>
      var (vault, ledger, resp) :=
        VaultEngine.Initialize(p, s.ledger, s.vault, passphrase, params, salt, dek, draw);
      (s.(vault := vault, ledger := ledger), resp)
    case Unlock(passphrase) =>
      var (vault, resp) := VaultEngine.Unlock(p, s.ledger, s.vault, passphrase);
      (s.(vault := vault), resp)
    case Lock | Restart =>
      var (vault, resp) := VaultEngine.Lock(s.vault);
      (s.(vault := vault), resp)
    case KvWrite(user, path, data, now, draw) => KvEngine.Write(p, s, user, path, data, now, draw)
    case KvRead(user, path, version, now) => KvEngine.Read(p, s, user, path, version, now)
    case KvVersions(user, path, now) => KvEngine.ListHistory(p, s, user, path, now)
    case KvDelete(user, path, now) => KvEngine.Delete(p, s, user, path, now)
    case CreateKey(user, name, now, mint) => TransitEngine.Create(p, s, user, name, now, mint)
    case CreateSigningKey(user, name, algorithm, now, mint) =>
      TransitEngine.CreateSigning(p, s, user, name, algorithm, now, mint)
    case RotateKey(user, name, now, mint) => TransitEngine.Rotate(p, s, user, name, now, mint)
    case ListKeys(user) => TransitEngine.List(s, user)
    case DeleteKey(user, name, now) => TransitEngine.Delete(p, s, user, name, now)
    case EncryptData(user, name, text, now, draw) => TransitEngine.EncryptData(p, s, user, name, text, now, draw)
    case DecryptData(user, token, now) => TransitEngine.DecryptData(p, s, user, token, now)
    case Sign(user, name, message, kind, algorithm, now, signed) =>
      TransitEngine.Sign(p, s, user, name, message, kind, algorithm, now, signed)
    case VerifySignature(user, name, message, kind, signature, algorithm, version, now) =>
      TransitEngine.Verify(p, s, user, name, message, kind, signature, algorithm, version, now)
  }

  /** The state after a run from a fresh installation. */
  function Run(p: Prims, ops: seq<Op>): Sys {
    if ops == [] then START else Step(p, Run(p, ops[..|ops| - 1]), ops[|ops| - 1]).0
  }

  /** The answer to request `i` of a run. */
  function Answer(p: Prims, ops: seq<Op>, i: nat): Resp
    requires i < |ops|
  {
    Step(p, Run(p, ops[..i]), ops[i]).1
  }
}
