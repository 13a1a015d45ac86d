/** The vault requests refine the ideal ones. */
module RefineVault {
  import opened Text
  import opened Base64
  import opened Crypto
  import opened Aad
  import opened World
  import opened Simulation
  import VaultEngine
  import VersionedTables
  import I = Ideal

  /** What the answers depend on, without how it is represented. */
  lemma SimFacts(p: Prims, s: Sys, i: I.State)
    requires Sim(p, s, i)
    ensures s.vault.dek == (if I.IsOpen(i) then Some(DekOf(i.vault)) else None)
    ensures |DekOf(i.vault)| == 32 || !I.IsOpen(i)
    ensures s.kv.parents.Keys == i.kv.Keys && VersionedTables.Consistent(s.kv)
    ensures s.keys.parents.Keys == i.keys.Keys && VersionedTables.Consistent(s.keys)
    ensures Objects(p, i.kv)
    ensures forall key :: key in i.kv ==> KvHolds(s.ledger, DekOf(i.vault), s.kv, key, i.kv[key])
    ensures forall key :: key in i.keys ==> KeyHolds(p, s, DekOf(i.vault), key, i.keys[key])
  {
    hide VersionedTables.Consistent, OpenColumns, KvHolds, KeyHolds, SimSealed, SimSigned, Objects;
  }

  /** Neither the audit log nor the lock state matters to what is stored. */
  lemma OtherFrame(p: Prims, s: Sys, s': Sys, i: I.State, v: I.IVault)
    requires Sim(p, s, i)
    requires s' == s.(audit := s'.audit, vault := s'.vault)
    requires SimVault(s', v) && DekOf(v) == DekOf(i.vault) && (v.Fresh? <==> i.vault.Fresh?)
    ensures Sim(p, s', i.(vault := v))
  {
    KeysFrame(p, s, s', DekOf(v), i.keys);
    SignedFrame(p, s, s', i.signed);
    hide SimKv, SimKeys, SimSealed, SimSigned, SimVault;
  }

  lemma AuditFrame(p: Prims, s: Sys, s': Sys, i: I.State)
    requires Sim(p, s, i) && s' == s.(audit := s'.audit)
    ensures Sim(p, s', i)
  {
    assert SimVault(s', i.vault) by {
      hide OpenColumns;
    }
    OtherFrame(p, s, s', i, i.vault);
    assert i.(vault := i.vault) == i;
  }

  lemma RefineLock(p: Prims, s: Sys, i: I.State)
    requires Sim(p, s, i)
    ensures var (vault, resp) := VaultEngine.Lock(s.vault);
            var (v, r) := I.Lock(i.vault);
            resp == r && Sim(p, s.(vault := vault), i.(vault := v))
  {
    var s' := s.(vault := VaultEngine.Lock(s.vault).0);
    var v := I.Lock(i.vault).0;
    assert SimVault(s', v) by {
      hide OpenColumns;
    }
    OtherFrame(p, s, s', i, v);
  }

  /** Under the stored salt and parameters exactly the wrapping key opens the DEK. */
  lemma LoadMatches(p: Prims, s: Sys, v: I.IVault, passphrase: string)
    requires SimVault(s, v) && v.Made?
    ensures var key := VaultEngine.WrappingKey(p, passphrase, v.salt, v.params);
            VaultEngine.LoadDek(p, s.ledger, s.vault.config.value, passphrase)
            == if key.None? || |key.value| != 32 then (None, VaultConfigCorrupted)
               else if key.value != v.wrappingKey then (None, InvalidMasterPassphrase)
               else (Some(v.dek), Internal)
  {
    DecodeEncode(v.salt);
    var key := VaultEngine.WrappingKey(p, passphrase, v.salt, v.params);
    if key.Some? {
      OnlyKeyOpens(s.ledger, v.wrappingKey, s.vault.config.value.wrapped, key.value);
    }
    hide OpenColumns, Encode, Decode;
  }

  lemma OnlyKeyOpens(ledger: Ledger, key: Bytes, columns: Columns, other: Bytes)
    requires |key| == 32 && OpenColumns(ledger, key, columns, DEK_WRAP_AAD).Plain?
    requires forall box :: box in ledger && box.aad == DEK_WRAP_AAD ==> box.key == key
    ensures OpenColumns(ledger, other, columns, DEK_WRAP_AAD)
            == if |other| != 32 then ValueError
               else if other != key then InvalidTag
               else OpenColumns(ledger, key, columns, DEK_WRAP_AAD)
  {
    hide Decode;
  }

  lemma RefineUnlock(p: Prims, s: Sys, i: I.State, passphrase: string)
    requires Sim(p, s, i)
    ensures var (vault, resp) := VaultEngine.Unlock(p, s.ledger, s.vault, passphrase);
            var (v, r) := I.Unlock(p, i.vault, passphrase);
            resp == r && Sim(p, s.(vault := vault), i.(vault := v))
  {
    var s' := s.(vault := VaultEngine.Unlock(p, s.ledger, s.vault, passphrase).0);
    var v := I.Unlock(p, i.vault, passphrase).0;
    if i.vault.Fresh? {
      assert s' == s && i.(vault := v) == i;
    } else {
      LoadMatches(p, s, i.vault, passphrase);
      hide VaultEngine.LoadDek, VaultEngine.WrappingKey;
      assert SimVault(s', v) by {
        hide OpenColumns;
      }
      OtherFrame(p, s, s', i, v);
    }
  }

  lemma EmptyTables(p: Prims, s: Sys, i: I.State)
    requires Sim(p, s, i) && i.vault.Fresh?
    ensures s.kv.parents == map[] && s.keys.parents == map[] && i.kv == map[] && i.keys == map[]
    ensures s.kv.rows == map[] && s.keys.rows == map[]
  {
    hide HasSigner;
    assert s.kv.parents.Keys == {} && s.keys.parents.Keys == {};
    assert forall r :: r in s.kv.rows ==> VersionedTables.HasParent(s.kv, r);
    assert forall r :: r in s.keys.rows ==> VersionedTables.HasParent(s.keys, r);
  }

  lemma RefineInitialize(p: Prims, s: Sys, i: I.State, passphrase: string,
                         params: KdfParams, salt: Bytes, dek: Bytes, draw: Draw)
    requires Sim(p, s, i) && FreshDraw(s.ledger, draw) && |dek| == 32
    ensures var (vault, ledger, resp) :=
              VaultEngine.Initialize(p, s.ledger, s.vault, passphrase, params, salt, dek, draw);
            var (v, r) := I.Initialize(p, i.vault, passphrase, params, salt, dek);
            resp == r && Sim(p, s.(vault := vault, ledger := ledger), i.(vault := v))
  {
    var (vault, ledger, resp) :=
      VaultEngine.Initialize(p, s.ledger, s.vault, passphrase, params, salt, dek, draw);
    var v := I.Initialize(p, i.vault, passphrase, params, salt, dek).0;
    if resp.Failed? {
      assert s.(vault := vault, ledger := ledger) == s && i.(vault := v) == i;
    } else {
      InitializedSim(p, s, i, v, s.(vault := vault, ledger := ledger), draw);
    }
  }

  lemma InitializedSim(p: Prims, s: Sys, i: I.State, v: I.IVault, s': Sys, draw: Draw)
    requires Sim(p, s, i) && i.vault.Fresh? && FreshDraw(s.ledger, draw)
    requires v.Made? && |v.wrappingKey| == 32 && |v.dek| == 32 && |v.salt| >= 16 && !v.open
    requires s' == s.(vault := Vault(Some(Config(VaultEngine.CONFIG_VERSION, "argon2id", Encode(v.salt), v.params,
                                                 ToColumns(Pack(draw)))), None),
                      ledger := s.ledger[Box(v.wrappingKey, DEK_WRAP_AAD, draw) := v.dek])
    ensures Sim(p, s', i.(vault := v))
  {
    hide OpenColumns, ToColumns, Encode, VersionedTables.Consistent, KvHolds, KeyHolds, SimSealed, SimSigned;
    EmptyTables(p, s, i);
    var box := Box(v.wrappingKey, DEK_WRAP_AAD, draw);
    EncryptedOpens(s.ledger, v.wrappingKey, v.dek, DEK_WRAP_AAD, draw, s'.ledger);
    ColumnsOpen(s'.ledger, v.wrappingKey, Pack(draw), DEK_WRAP_AAD);
    WrapAadIsNoData();
    SealedFrame(s.ledger, i.sealed, box, v.dek);
    SignedFrame(p, s, s', i.signed);
    assert SimVault(s', v);
    assert SimKv(s'.ledger, v.dek, s'.kv, i.kv);
    assert SimKeys(p, s', v.dek, i.keys);
  }
}
