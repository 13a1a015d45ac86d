/** The DEK in memory, src/core/state.py, and the service around it, src/core/vault.py,
    as the objects they are. */
module VaultState {
  import opened Passphrase
  import opened Text
  import opened Base64
  import opened Crypto
  import opened Aad
  import opened World
  import VaultEngine

  /** Holds the DEK in a buffer that it overwrites before letting go of it. */
  class State {
    var dek: array?<byte>
    ghost var buffers: set<array<byte>>          // every buffer that ever held a DEK
    ghost var handed: map<array<byte>, Bytes>    // every copy handed out, with what it held

    /** The current buffer has 32 bytes, every earlier one is all zeros, and no copy
        handed out is one of them or has changed. */
    ghost predicate Valid()
      reads this, buffers, handed.Keys
    {
      && (dek != null ==> dek in buffers && dek.Length == 32)
      && (forall b :: b in buffers && b != dek ==> Zeroed(b[..]))
      && buffers !! handed.Keys
      && forall c :: c in handed ==> c[..] == handed[c]
    }

    static predicate Zeroed(bytes: Bytes) {
      forall k :: 0 <= k < |bytes| ==> bytes[k] == 0
    }

    ghost function Held(): Option<Bytes>
      reads this, dek
    {
      if dek == null then None else Some(dek[..])
    }

    constructor ()
      ensures Valid() && Held() == None && buffers == {} && handed == map[]
    {
      dek, buffers, handed := null, {}, map[];
    }

    predicate IsUnlocked()
      reads this
    {
      dek != null
    }

    method SetDek(bytes: Bytes) returns (ok: bool)
      requires Valid()
      modifies this, dek
      ensures Valid() && handed == old(handed) && old(buffers) <= buffers
      ensures ok == (|bytes| == 32)
      ensures Held() == if ok then Some(bytes) else old(Held())
      ensures ok ==> fresh(dek) && buffers == old(buffers) + {dek}
      ensures !ok ==> dek == old(dek) && buffers == old(buffers)
    {
      if |bytes| != 32 {
        return false;
      }
      ClearWithoutLock();
      var buffer := new byte[32](k requires 0 <= k < 32 => bytes[k]);
      dek := buffer;
      buffers := buffers + {buffer};
      assert buffer[..] == bytes;
      return true;
    }

    /** `bytes(self._dek)`: a copy of its own; None is VaultLockedError. */
    method GetDek() returns (copy: array?<byte>)
      requires Valid()
      modifies this`handed
      ensures Valid() && dek == old(dek) && buffers == old(buffers)
      ensures copy == null <==> Held() == None
      ensures copy != null ==> fresh(copy) && copy[..] == Held().value && handed == old(handed)[copy := copy[..]]
      ensures copy == null ==> handed == old(handed)
    {
      if dek == null {
        return null;
      }
      var held := dek[..];
      copy := new byte[32](k requires 0 <= k < 32 => held[k]);
      assert copy[..] == held;
      handed := handed[copy := copy[..]];
    }

    method Lock()
      requires Valid()
      modifies this, dek
      ensures Valid() && Held() == None && buffers == old(buffers) && handed == old(handed)
    {
      ClearWithoutLock();
    }

    /** Overwrite the buffer byte by byte, then drop it. */
    method ClearWithoutLock()
      requires Valid()
      modifies this`dek, dek
      ensures Valid() && dek == null
    {
      if dek != null {
        for index := 0 to dek.Length
          invariant dek == old(dek)
          invariant Zeroed(dek[..index])
        {
          dek[index] := 0;
        }
        assert dek[..dek.Length] == dek[..];
        dek := null;
      }
    }
  }

  /** The vault service over its two mutable parts: the stored configuration and the
      DEK holder.  The ledger stands for the cipher. */
  class Service {
    const p: Prims
    const state: State
    var config: Option<Config>

    ghost predicate Valid()
      reads this, state, state.buffers, state.handed.Keys
    {
      state.Valid()
    }

    /** The stored configuration and the DEK held: what the functional model keeps. */
    ghost function View(): Vault
      reads this, state, state.dek
    {
      Vault(config, state.Held())
    }

    constructor (p: Prims)
      ensures Valid() && View() == Vault(None, None) && fresh(state) && this.p == p
    {
      this.p := p;
      this.state := new State();
      this.config := None;
    }

    method Status() returns (resp: Resp)
      ensures resp == VaultEngine.StatusOf(View())
    {
      if config.None? {
        return World.Status(false, false);
      }
      return World.Status(true, state.IsUnlocked());
    }

    method Initialize(ledger: Ledger, passphrase: string, params: KdfParams, salt: Bytes, dek: Bytes,
                      draw: Draw) returns (after: Ledger, resp: Resp)
      requires Valid()
      modifies this`config, state, state.dek
      ensures Valid() && state.handed == old(state.handed) && state.buffers == old(state.buffers)
      ensures state.dek == null || state.dek == old(state.dek)
      ensures (View(), after, resp)
           == VaultEngine.Initialize(p, ledger, old(View()), passphrase, params, salt, dek, draw)
    {
      after := ledger;
      if config.Some? {
        return after, Failed(VaultAlreadyInitialized);
      }
      if !Strong(passphrase) {
        return after, Failed(PassphrasePolicy);
      }
      var wrappingKey := VaultEngine.WrappingKey(p, passphrase, salt, params);
      if wrappingKey.None? {
        return after, Failed(Internal);
      }
      var wrapped := Encrypt(ledger, wrappingKey.value, dek, DEK_WRAP_AAD, draw);
      if wrapped.None? {
        return after, Failed(Internal);
      }
      after := wrapped.value.0;
      config := Some(Config(VaultEngine.CONFIG_VERSION, "argon2id", Encode(salt), params, ToColumns(wrapped.value.1)));
      state.Lock();
      resp := Status();
    }

    /** Lock first; then load the DEK with the stored parameters. */
    method Unlock(ledger: Ledger, passphrase: string) returns (resp: Resp)
      requires Valid()
      modifies state, state.dek
      ensures Valid() && state.handed == old(state.handed)
      ensures state.dek == null || fresh(state.dek) || state.dek == old(state.dek)
      ensures (View(), resp) == VaultEngine.Unlock(p, ledger, old(View()), passphrase)
    {
      if config.None? {
        return Failed(VaultNotInitialized);
      }
      state.Lock();
      var stored := config.value;
      if stored.version != VaultEngine.CONFIG_VERSION || stored.kdf != "argon2id" {
        return Failed(VaultConfigCorrupted);
      }
      var salt := Decode(stored.salt);
      if salt.None? {
        return Failed(VaultConfigCorrupted);
      }
      var wrappingKey := VaultEngine.WrappingKey(p, passphrase, salt.value, stored.params);
      if wrappingKey.None? {
        return Failed(VaultConfigCorrupted);
      }
      var result := OpenColumns(ledger, wrappingKey.value, stored.wrapped, DEK_WRAP_AAD);
      match result
      case InvalidTag => return Failed(InvalidMasterPassphrase);
      case ValueError => return Failed(VaultConfigCorrupted);
      case Plain(dek) =>
        var ok := state.SetDek(dek);
        if !ok {
          return Failed(VaultConfigCorrupted);
        }
        resp := Status();
    }

    method Lock() returns (resp: Resp)
      requires Valid()
      modifies state, state.dek
      ensures Valid() && state.handed == old(state.handed) && state.dek == null
      ensures (View(), resp) == VaultEngine.Lock(old(View()))
    {
      state.Lock();
      resp := Status();
    }
  }
}
