/** The key lifecycle requests refine the ideal ones. */
module RefineKeys {
  import opened Text
  import opened Base64
  import opened Crypto
  import opened TransitToken
  import opened Aad
  import opened Names
  import opened VersionedTables
  import opened World
  import opened Simulation
  import opened RefineVault
  import KeyStore
  import T = TransitEngine
  import I = Ideal

  /** A new version row, under its parent's new metadata, opens to its material. */
  ghost predicate RowOpens(p: Prims, s: Sys, dek: Bytes, key: Key, r: I.KeyRecord, row: KeyStore.Version) {
    && r.entries != []
    && var e := r.entries[|r.entries| - 1];
    && row.created == e.created
    && row.material.publicKey == (if r.usage == T.SIGN_VERIFY then Some(Encode(p.publicKey(e.data))) else None)
    && OpenColumns(s.ledger, dek, row.material.columns,
                   KeyAad(key.0, key.1, r.usage, T.AlgorithmOf(r.usage), |r.entries|)) == Plain(e.data)
    && GoodMaterial(p, s.minted, Holder(key.0, r.usage), e.data)
  }

  ghost predicate Extends(keys: map<Key, I.KeyRecord>, key: Key, r: I.KeyRecord) {
    && ValidName(key.1) && (r.usage == T.ENCRYPT_DECRYPT || r.usage == T.SIGN_VERIFY)
    && r.entries != []
    && var earlier := r.entries[..|r.entries| - 1];
    && if key in keys then keys[key].entries == earlier && keys[key].usage == r.usage else earlier == []
  }

  function MetaOf(r: I.KeyRecord): KeyStore.KeyMeta {
    KeyStore.KeyMeta(r.usage, T.AlgorithmOf(r.usage), r.created, r.updated)
  }

  lemma PutSim(p: Prims, s: Sys, dek: Bytes, keys: map<Key, I.KeyRecord>, key: Key, r: I.KeyRecord,
               row: KeyStore.Version)
    requires SimKeys(p, s, dek, keys) && Extends(keys, key, r) && RowOpens(p, s, dek, key, r, row)
    ensures Put(s.keys, key, MetaOf(r), row).Some?
    ensures SimKeys(p, s.(keys := Put(s.keys, key, MetaOf(r), row).value), dek, keys[key := r])
    ensures NextVersion(s.keys, key) == |r.entries|
  {
    hide Consistent, KeyRowHolds, ValidName, RowOpens, HasSigner;
    PutKeepsConsistent(s.keys, key, MetaOf(r), row);
    NewRow(s.keys, key, MetaOf(r), row);
    var s' := s.(keys := Put(s.keys, key, MetaOf(r), row).value);
    assert key in keys ==> KeyHolds(p, s, dek, key, keys[key]);
    NewKeyHolds(p, s, s', dek, keys, key, r, row);
    hide KeyHolds, Put, IdFor, NextVersion, Extends;
    forall other | other in keys && other != key ensures KeyHolds(p, s', dek, other, keys[other]) {
      OtherKeyHolds(p, s, s', dek, key, MetaOf(r), row, other, keys[other]);
    }
  }

  lemma NewKeyHolds(p: Prims, s: Sys, s': Sys, dek: Bytes, keys: map<Key, I.KeyRecord>, key: Key,
                    r: I.KeyRecord, row: KeyStore.Version)
    requires Consistent(s.keys) && (key in keys <==> key in s.keys.parents)
    requires key in keys ==> KeyHolds(p, s, dek, key, keys[key])
    requires Extends(keys, key, r) && RowOpens(p, s, dek, key, r, row)
    requires Put(s.keys, key, MetaOf(r), row).Some? && s' == s.(keys := Put(s.keys, key, MetaOf(r), row).value)
    ensures KeyHolds(p, s', dek, key, r) && NextVersion(s.keys, key) == |r.entries|
  {
    hide OpenColumns, KeyAad, Encode, Put, Consistent, ValidName, GoodMaterial;
    var id, n := IdFor(s.keys, key), |r.entries|;
    NewRow(s.keys, key, MetaOf(r), row);
    assert NextVersion(s.keys, key) == n;
    forall v | 1 <= v <= n ensures KeyRowHolds(p, s', dek, key, r.usage, id, r.entries, v) {
      if v < n {
        assert KeyRowHolds(p, s, dek, key, r.usage, id, keys[key].entries, v);
        PutShape(s.keys, key, MetaOf(r), row, key, v);
        assert r.entries[v - 1] == r.entries[..n - 1][v - 1];
      }
    }
  }

  lemma OtherKeyHolds(p: Prims, s: Sys, s': Sys, dek: Bytes, key: Key, meta: KeyStore.KeyMeta, row: KeyStore.Version,
                      other: Key, r: I.KeyRecord)
    requires Consistent(s.keys) && other != key && KeyHolds(p, s, dek, other, r)
    requires Put(s.keys, key, meta, row).Some? && s' == s.(keys := Put(s.keys, key, meta, row).value)
    ensures KeyHolds(p, s', dek, other, r)
  {
    var id := s.keys.parents[other].id;
    hide OpenColumns, KeyAad, Encode, Put, Consistent, ValidName, GoodMaterial;
    PutParent(s.keys, key, meta, row, other);
    forall v | 1 <= v <= |r.entries| ensures KeyRowHolds(p, s', dek, other, r.usage, id, r.entries, v) {
      assert KeyRowHolds(p, s, dek, other, r.usage, id, r.entries, v);
      PutShape(s.keys, key, meta, row, other, v);
    }
  }

  /** What `_wrap_aes` and `_wrap_ed25519` leave behind. */
  function Wrapped(p: Prims, s: Sys, dek: Bytes, key: Key, usage: string, version: int, mint: Mint): Sys {
    s.(ledger := s.ledger[Box(dek, KeyAad(key.0, key.1, usage, T.AlgorithmOf(usage), version),
                              mint.draw) := mint.material],
       minted := s.minted[mint.material := Holder(key.0, usage)])
  }

  function MaterialOf(p: Prims, usage: string, mint: Mint): KeyStore.Material {
    KeyStore.Material(ToColumns(Pack(mint.draw)),
                      if usage == T.SIGN_VERIFY then Some(Encode(p.publicKey(mint.material))) else None)
  }

  /** Wrapping keeps everything else, and the new row opens. */
  lemma WrapSim(p: Prims, s: Sys, i: I.State, key: Key, r: I.KeyRecord, mint: Mint)
    requires Sim(p, s, i) && I.IsOpen(i) && FreshMint(p, s, r.usage, mint)
    requires r.entries != [] && r.entries[|r.entries| - 1].data == mint.material
    ensures var s' := Wrapped(p, s, i.vault.dek, key, r.usage, |r.entries|, mint);
            && Sim(p, s', i)
            && RowOpens(p, s', i.vault.dek, key, r,
                        KeyStore.Version(MaterialOf(p, r.usage, mint), r.entries[|r.entries| - 1].created))
  {
    hide KeyAad, SimVault, SimKv, SimKeys, SimSealed, SimSigned, OpenColumns, Encode, ToColumns;
    SimFacts(p, s, i);
    var dek, n, aad := i.vault.dek, |r.entries|, KeyAad(key.0, key.1, r.usage, T.AlgorithmOf(r.usage), |r.entries|);
    var s' := Wrapped(p, s, dek, key, r.usage, n, mint);
    var box := Box(dek, aad, mint.draw);
    FreshGrows(s.ledger, box, mint.material);
    EncryptedOpens(s.ledger, dek, mint.material, aad, mint.draw, s'.ledger);
    ColumnsOpen(s'.ledger, dek, Pack(mint.draw), aad);
    KeyAadIsNoData(key.0, key.1, r.usage, T.AlgorithmOf(r.usage), n);
    KvFrame(s.ledger, s'.ledger, dek, s.kv, i.kv);
    VaultFrame(s, s', i.vault, box, mint.material);
    KeysFrame(p, s, s', dek, i.keys);
    SealedFrame(s.ledger, i.sealed, box, mint.material);
    SignedMint(p, s, s', i.signed, mint.material, Holder(key.0, r.usage));
  }

  /** New signing material takes nobody's public key. */
  lemma SignedMint(p: Prims, s: Sys, s': Sys, signed: set<I.ISigned>, material: Bytes, holder: Holder)
    requires SimSigned(p, s, signed) && s'.signatures == s.signatures && s'.minted == s.minted[material := holder]
    requires material !in s.minted
    requires holder.usage == T.SIGN_VERIFY ==>
               forall m :: Signer(s.minted, m) ==> p.publicKey(m) != p.publicKey(material)
    ensures SimSigned(p, s', signed)
  {
    hide HasSigner;
  }

  /** Only the key tables changed. */
  lemma KeysFramed(p: Prims, s: Sys, s': Sys, i: I.State, keys: map<Key, I.KeyRecord>)
    requires Sim(p, s, i) && s' == s.(keys := s'.keys) && i.vault.Made?
    requires SimKeys(p, s', i.vault.dek, keys)
    ensures Sim(p, s', i.(keys := keys))
  {
    SignedFrame(p, s, s', i.signed);
    hide SimKv, SimKeys, SimSealed, SimSigned, OpenColumns;
  }

  lemma InfoMatches(p: Prims, s: Sys, dek: Bytes, key: Key, r: I.KeyRecord)
    requires Consistent(s.keys) && KeyHolds(p, s, dek, key, r)
    ensures key in s.keys.parents && T.InfoOf(s.keys, key) == I.InfoOf(key.1, r) && r.entries != []
  {
    ListIsContiguous(s.keys, key);
    hide Consistent, KeyRowHolds, ListVersions, ValidName;
  }

  /** The step shared by creating and rotating: wrap, insert, answer. */
  lemma AddVersion(p: Prims, s: Sys, i: I.State, key: Key, r: I.KeyRecord, mint: Mint)
    requires Sim(p, s, i) && I.IsOpen(i) && FreshMint(p, s, r.usage, mint) && Extends(i.keys, key, r)
    requires r.entries[|r.entries| - 1].data == mint.material
    ensures var s1 := Wrapped(p, s, i.vault.dek, key, r.usage, |r.entries|, mint);
            var row := KeyStore.Version(MaterialOf(p, r.usage, mint), r.entries[|r.entries| - 1].created);
            && NextVersion(s.keys, key) == |r.entries|
            && Put(s.keys, key, MetaOf(r), row).Some?
            && var s' := s1.(keys := Put(s.keys, key, MetaOf(r), row).value);
            && key in s'.keys.parents
            && Sim(p, s', i.(keys := i.keys[key := r]))
            && T.InfoOf(s'.keys, key) == I.InfoOf(key.1, r)
  {
    var dek := i.vault.dek;
    var row := KeyStore.Version(MaterialOf(p, r.usage, mint), r.entries[|r.entries| - 1].created);
    var s1 := Wrapped(p, s, dek, key, r.usage, |r.entries|, mint);
    WrapSim(p, s, i, key, r, mint);
    hide RowOpens, Extends, KeyHolds, SimKv, SimVault, SimSealed, SimSigned, Consistent, T.InfoOf, I.InfoOf, Put, IdFor;
    PutSim(p, s1, dek, i.keys, key, r, row);
    var s' := s1.(keys := Put(s.keys, key, MetaOf(r), row).value);
    KeysFramed(p, s1, s', i, i.keys[key := r]);
    assert i.keys[key := r][key] == r;
    InfoMatches(p, s', dek, key, r);
  }

  lemma RefineInstall(p: Prims, s: Sys, i: I.State, user: string, name: string, usage: string, now: string, mint: Mint)
    requires Sim(p, s, i) && I.IsOpen(i) && FreshMint(p, s, usage, mint) && ValidName(name)
    requires usage == T.ENCRYPT_DECRYPT || usage == T.SIGN_VERIFY
    ensures s.vault.dek.Some?
    ensures var (s', resp) := T.Install(p, s, user, name, usage, now, mint);
            var (i', r) := I.Install(i, user, name, usage, now, mint.material);
            resp == r && Sim(p, s', i')
  {
    hide SimVault, SimKv, SimKeys, SimSealed, SimSigned, FreshMint, ValidName;
    SimFacts(p, s, i);
    var key := (user, name);
    if key !in i.keys {
      var r := I.KeyRecord(usage, now, now, [I.Entry(mint.material, now)]);
      AddVersion(p, s, i, key, r, mint);
      hide Sim, KeyHolds, KvHolds, Consistent, KeyAad, T.InfoOf, I.InfoOf, Put;
      WrapIs(p, s, i.vault.dek, key, usage, 1, mint);
      CreateIs(s.keys, key, usage, now, MaterialOf(p, usage, mint));
    }
    hide Sim, KeyHolds, KvHolds, Consistent;
  }

  lemma WrapIs(p: Prims, s: Sys, dek: Bytes, key: Key, usage: string, version: int, mint: Mint)
    requires s.vault.dek == Some(dek) && |dek| == 32
    ensures T.Wrap(p, s, key, usage, version, mint)
            == Some((Wrapped(p, s, dek, key, usage, version, mint), MaterialOf(p, usage, mint)))
  {
    hide KeyAad, ToColumns;
  }

  lemma CreateIs(t: KeyStore.KeyTables, key: Key, usage: string, now: string, material: KeyStore.Material)
    requires key !in t.parents
    ensures KeyStore.Create(t, key, usage, T.AlgorithmOf(usage), now, material)
            == Put(t, key, KeyStore.KeyMeta(usage, T.AlgorithmOf(usage), now, now), KeyStore.Version(material, now))
  {
    hide Put;
  }

  lemma RefineCreate(p: Prims, s: Sys, i: I.State, user: string, name: string, now: string, mint: Mint)
    requires Sim(p, s, i) && FreshMint(p, s, T.ENCRYPT_DECRYPT, mint)
    ensures var (s', resp) := T.Create(p, s, user, name, now, mint);
            var (i', r) := I.CreateKey(i, user, name, now, mint.material);
            resp == r && Sim(p, s', i')
  {
    SimFacts(p, s, i);
    hide Sim, FreshMint, ValidName, KeyHolds, KvHolds, Consistent, T.Install, I.Install;
    if ValidName(name) && I.IsOpen(i) {
      RefineInstall(p, s, i, user, name, T.ENCRYPT_DECRYPT, now, mint);
    }
  }

  lemma RefineCreateSigning(p: Prims, s: Sys, i: I.State, user: string, name: string, algorithm: string,
                            now: string, mint: Mint)
    requires Sim(p, s, i) && FreshMint(p, s, T.SIGN_VERIFY, mint)
    ensures var (s', resp) := T.CreateSigning(p, s, user, name, algorithm, now, mint);
            var (i', r) := I.CreateSigning(i, user, name, algorithm, now, mint.material);
            resp == r && Sim(p, s', i')
  {
    SimFacts(p, s, i);
    hide Sim, FreshMint, ValidName, KeyHolds, KvHolds, Consistent, T.Install, I.Install, Upper;
    if ValidName(name) && I.IsOpen(i) {
      RefineInstall(p, s, i, user, name, T.SIGN_VERIFY, now, mint);
    }
  }

  lemma RefineRotate(p: Prims, s: Sys, i: I.State, user: string, name: string, now: string, mint: Mint)
    requires Sim(p, s, i) && FreshMint(p, s, T.RotatedUsage(s.keys, (user, name)), mint)
    ensures var (s', resp) := T.Rotate(p, s, user, name, now, mint);
            var (i', r) := I.RotateKey(i, user, name, now, mint.material);
            resp == r && Sim(p, s', i')
  {
    SimFacts(p, s, i);
    hide Sim, FreshMint, ValidName, KeyHolds, KvHolds, Consistent;
    if T.OwnedError(s, user, name).Some? {
      RefuseFrame(p, s, i, user, name, now, T.OwnedError(s, user, name).value);
      hide T.Refuse;
    } else if I.IsOpen(i) {
      RotateSim(p, s, i, user, name, now, mint);
      hide T.Rotate, I.RotateKey;
    }
  }

  /** A refusal changes the audit log at most. */
  lemma RefuseFrame(p: Prims, s: Sys, i: I.State, user: string, name: string, now: string, error: Error)
    requires Sim(p, s, i)
    ensures T.Refuse(p, s, user, name, now, error).1 == Failed(error)
    ensures Sim(p, T.Refuse(p, s, user, name, now, error).0, i)
  {
    AuditFrame(p, s, T.Refuse(p, s, user, name, now, error).0, i);
  }

  lemma RotateSim(p: Prims, s: Sys, i: I.State, user: string, name: string, now: string, mint: Mint)
    requires Sim(p, s, i) && I.IsOpen(i) && ValidName(name) && (user, name) in i.keys
    requires FreshMint(p, s, T.RotatedUsage(s.keys, (user, name)), mint)
    ensures var (s', resp) := T.Rotate(p, s, user, name, now, mint);
            var (i', r) := I.RotateKey(i, user, name, now, mint.material);
            resp == r && Sim(p, s', i')
  {
    hide Sim, SimVault, SimKv, SimKeys, SimSealed, SimSigned, FreshMint, ValidName, KeyRowHolds, KvHolds, Consistent,
      KeyAad, T.InfoOf, I.InfoOf, Put, T.Refuse;
    SimFacts(p, s, i);
    var key := (user, name);
    var before := i.keys[key];
    var r := before.(updated := now, entries := before.entries + [I.Entry(mint.material, now)]);
    assert KeyHolds(p, s, i.vault.dek, key, before);
    assert r.entries[..|r.entries| - 1] == before.entries;
    assert T.RotatedUsage(s.keys, key) == r.usage;
    AddVersion(p, s, i, key, r, mint);
    WrapIs(p, s, i.vault.dek, key, r.usage, NextVersion(s.keys, key), mint);
    RotateIs(s.keys, key, now, MaterialOf(p, r.usage, mint));
    hide T.Wrap, KeyStore.Rotate;
  }

  lemma RotateIs(t: KeyStore.KeyTables, key: Key, now: string, material: KeyStore.Material)
    requires key in t.parents
    requires Put(t, key, t.parents[key].meta.(updated := now), KeyStore.Version(material, now)).Some?
    ensures var put := Put(t, key, t.parents[key].meta.(updated := now), KeyStore.Version(material, now));
            KeyStore.Rotate(t, key, now, material) == KeyStore.Rotated.Rotated(put.value)
  {
    hide Put;
  }

  lemma RefineList(p: Prims, s: Sys, i: I.State, user: string)
    requires Sim(p, s, i)
    ensures T.List(s, user) == (s, I.ListKeys(i, user))
  {
    hide Sim, SimVault, SimKv, SimKeys, SimSealed, SimSigned;
    SimFacts(p, s, i);
    hide KvHolds, KeyHolds, Consistent, T.InfosOf, I.InfosOf, T.InfoOf, I.InfoOf;
    if I.IsOpen(i) {
      ListsMatch(p, s, i.vault.dek, i.keys, user);
    }
  }

  lemma ListsMatch(p: Prims, s: Sys, dek: Bytes, keys: map<Key, I.KeyRecord>, user: string)
    requires Consistent(s.keys) && s.keys.parents.Keys == keys.Keys
    requires forall key :: key in keys ==> KeyHolds(p, s, dek, key, keys[key])
    ensures T.InfosOf(s.keys, user) == I.InfosOf(keys, user)
  {
    hide KeyHolds, Consistent, T.InfosOf, I.InfosOf, T.InfoOf, I.InfoOf;
    hide NamesOf;
    var a, b := T.InfosOf(s.keys, user), I.InfosOf(keys, user);
    var names := NamesOf(keys, user);
    forall name ensures (user, name) in s.keys.parents <==> (user, name) in keys {
      assert (user, name) in s.keys.parents.Keys <==> (user, name) in keys.Keys;
    }
    OrderIsUnique(NamesOf(s.keys.parents, user), names);
    forall k | 0 <= k < |names| ensures a[k] == b[k] {
      assert names[k] in names;
      InfoMatches(p, s, dek, (user, names[k]), keys[(user, names[k])]);
    }
    assert a == b;
  }

  lemma RefineDelete(p: Prims, s: Sys, i: I.State, user: string, name: string, now: string)
    requires Sim(p, s, i)
    ensures var (s', resp) := T.Delete(p, s, user, name, now);
            var (i', r) := I.DeleteKey(i, user, name);
            resp == r && Sim(p, s', i')
  {
    SimFacts(p, s, i);
    var key := (user, name);
    hide ValidName, KeyHolds, KvHolds, Consistent, SimVault, SimKv, SimSealed, SimSigned;
    if T.OwnedError(s, user, name).Some? {
      RefuseFrame(p, s, i, user, name, now, T.OwnedError(s, user, name).value);
      hide T.Refuse;
    } else if I.IsOpen(i) {
      var s' := s.(keys := Remove(s.keys, key));
      RemoveSim(p, s, s', i.vault.dek, i.keys, key);
      KeysFramed(p, s, s', i, i.keys - {key});
    }
    hide Sim;
  }

  lemma RemoveSim(p: Prims, s: Sys, s': Sys, dek: Bytes, keys: map<Key, I.KeyRecord>, key: Key)
    requires SimKeys(p, s, dek, keys) && key in keys && key in s.keys.parents
    requires s' == s.(keys := Remove(s.keys, key))
    ensures SimKeys(p, s', dek, keys - {key})
  {
    RemoveKeepsConsistent(s.keys, key);
    assert s'.keys.parents.Keys == keys.Keys - {key};
    hide Consistent, KeyHolds, Remove;
    forall other | other in keys && other != key ensures KeyHolds(p, s', dek, other, keys[other]) {
      RemoveKeyHolds(p, s, s', dek, key, other, keys[other]);
    }
  }

  lemma RemoveKeyHolds(p: Prims, s: Sys, s': Sys, dek: Bytes, key: Key, other: Key, r: I.KeyRecord)
    requires Consistent(s.keys) && key in s.keys.parents && other != key && KeyHolds(p, s, dek, other, r)
    requires s' == s.(keys := Remove(s.keys, key))
    ensures KeyHolds(p, s', dek, other, r)
  {
    var id := s.keys.parents[other].id;
    assert s'.keys.parents[other] == s.keys.parents[other];
    hide OpenColumns, KeyAad, Encode, Remove, Consistent, ValidName, GoodMaterial;
    forall v | 1 <= v <= |r.entries| ensures KeyRowHolds(p, s', dek, other, r.usage, id, r.entries, v) {
      assert KeyRowHolds(p, s, dek, other, r.usage, id, r.entries, v);
      RemoveShape(s.keys, key, other, v);
    }
  }
}
