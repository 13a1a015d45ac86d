/** Initialisation, unlocking and locking: src/core/vault.py. */
module VaultEngine {
  import opened Text
  import opened Base64
  import opened Crypto
  import opened Aad
  import opened Passphrase
  import opened World

  const CONFIG_VERSION := 1

  function StatusOf(vault: Vault): Resp {
    Status(vault.config.Some?, vault.config.Some? && vault.dek.Some?)
  }

  /** `derive_wrapping_key`; None stands for its ValueErrors. */
  function WrappingKey(p: Prims, passphrase: string, salt: Bytes, params: KdfParams): Option<Bytes> {
    if passphrase == "" || |salt| < 16 then None else Some(p.deriveKey(passphrase, salt, params))
  }

  /** `initialize`: wrap a new DEK under the passphrase, store it, stay locked. */
  function Initialize(p: Prims, ledger: Ledger, vault: Vault, passphrase: string,
                      params: KdfParams, salt: Bytes, dek: Bytes, draw: Draw) : (Vault, Ledger, Resp)
  {
    if vault.config.Some? then (vault, ledger, Failed(VaultAlreadyInitialized))
    else if !Strong(passphrase) then (vault, ledger, Failed(PassphrasePolicy))
    else
      var key := WrappingKey(p, passphrase, salt, params);
      if key.None? then (vault, ledger, Failed(Internal))
      else
        match Encrypt(ledger, key.value, dek, DEK_WRAP_AAD, draw)
        case None => (vault, ledger, Failed(Internal))
        case Some((ledger', blob)) =>
          var config := Config(CONFIG_VERSION, "argon2id", Encode(salt), params, ToColumns(blob));
          (Vault(Some(config), None), ledger', StatusOf(Vault(Some(config), None)))
  }

  /** The DEK a configuration opens to, with the error unlock would raise. */
  function LoadDek(p: Prims, ledger: Ledger, config: Config, passphrase: string): (Option<Bytes>, Error) {
    if config.version != CONFIG_VERSION || config.kdf != "argon2id" then (None, VaultConfigCorrupted)
    else
      var salt := Decode(config.salt);
      var key := if salt.None? then None else WrappingKey(p, passphrase, salt.value, config.params);
      if key.None? then (None, VaultConfigCorrupted)
      else
        match OpenColumns(ledger, key.value, config.wrapped, DEK_WRAP_AAD)
        case InvalidTag => (None, InvalidMasterPassphrase)
        case ValueError => (None, VaultConfigCorrupted)
        case Plain(dek) => if |dek| != 32 then (None, VaultConfigCorrupted) else (Some(dek), Internal)
  }

  /** `unlock`: lock first, then load the DEK with the stored parameters. */
  function Unlock(p: Prims, ledger: Ledger, vault: Vault, passphrase: string): (Vault, Resp) {
    if vault.config.None? then (vault, Failed(VaultNotInitialized))
    else
      var locked := vault.(dek := None);
      var (dek, error) := LoadDek(p, ledger, vault.config.value, passphrase);
      if dek.None? then (locked, Failed(error))
      else (vault.(dek := dek), StatusOf(vault.(dek := dek)))
  }

  function Lock(vault: Vault): (Vault, Resp) {
    (vault.(dek := None), StatusOf(vault.(dek := None)))
  }
}
