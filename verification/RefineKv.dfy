/** The KV requests refine the ideal ones. */
module RefineKv {
  import opened Text
  import opened Base64
  import opened Crypto
  import opened KvPaths
  import opened Aad
  import opened VersionedTables
  import opened KvStore
  import opened World
  import opened Simulation
  import opened RefineVault
  import KvEngine
  import I = Ideal

  /** The ideal record after one more write. */
  function Extended(kv: map<Key, I.Record>, key: Key, data: Bytes, now: string): I.Record {
    var before := if key in kv then kv[key] else I.Record(now, []);
    before.(entries := before.entries + [I.Entry(data, now)])
  }

  lemma AppendIs(t: KvTables, key: Key, now: string, columns: Columns)
    requires Consistent(t)
    ensures var created := if key in t.parents then t.parents[key].meta.created else now;
            var put := Put(t, key, Times(created, now), KvStore.Version(columns, now));
            && put.Some? && Consistent(put.value) && put.value.parents.Keys == t.parents.Keys + {key}
            && Append(t, key, now, columns) == (put.value, Appended(created, now, NextVersion(t, key)))
  {
    var created := if key in t.parents then t.parents[key].meta.created else now;
    hide Consistent, IdFor, NextVersion;
    PutKeepsConsistent(t, key, Times(created, now), KvStore.Version(columns, now));
    NewRow(t, key, Times(created, now), KvStore.Version(columns, now));
  }

  lemma AppendHolds(ledger: Ledger, dek: Bytes, t: KvTables, kv: map<Key, I.Record>, key: Key,
                    data: Bytes, now: string, columns: Columns)
    requires SimKv(ledger, dek, t, kv)
    requires OpenColumns(ledger, dek, columns, KvAad(key.0, key.1, NextVersion(t, key))) == Plain(data)
    ensures var (t', outcome) := Append(t, key, now, columns);
            var r := Extended(kv, key, data, now);
            && outcome == Appended(r.created, now, |r.entries|)
            && SimKv(ledger, dek, t', kv[key := r])
  {
    hide Consistent, OpenColumns, KvAad, KvRowHolds, Put, Append;
    var created := if key in t.parents then t.parents[key].meta.created else now;
    var meta, row := Times(created, now), KvStore.Version(columns, now);
    var r := Extended(kv, key, data, now);
    assert key in kv ==> KvHolds(ledger, dek, t, key, kv[key]);
    AppendIs(t, key, now, columns);
    NewHolds(ledger, dek, t, key, meta, row, if key in kv then kv[key].entries else [], r);
    var t' := Put(t, key, meta, row).value;
    forall other | other in kv && other != key ensures KvHolds(ledger, dek, t', other, kv[other]) {
      OtherHolds(ledger, dek, t, key, meta, row, other, kv[other]);
    }
  }

  lemma OtherHolds(ledger: Ledger, dek: Bytes, t: KvTables, key: Key, meta: Times, row: KvStore.Version,
                   other: Key, r: I.Record)
    requires Consistent(t) && Put(t, key, meta, row).Some? && other != key
    requires KvHolds(ledger, dek, t, other, r)
    ensures KvHolds(ledger, dek, Put(t, key, meta, row).value, other, r)
  {
    var t', id := Put(t, key, meta, row).value, t.parents[other].id;
    hide OpenColumns, KvAad, Put, Consistent;
    if r.entries == [] {
      PutParent(t, key, meta, row, other);
    }
    forall v | 1 <= v <= |r.entries| ensures KvRowHolds(ledger, dek, t', other, id, r.entries, v) {
      assert KvRowHolds(ledger, dek, t, other, id, r.entries, v);
      PutShape(t, key, meta, row, other, v);
    }
    PutParent(t, key, meta, row, other);
  }

  lemma NewHolds(ledger: Ledger, dek: Bytes, t: KvTables, key: Key, meta: Times, row: KvStore.Version,
                 earlier: seq<I.Entry>, r: I.Record)
    requires Consistent(t) && Put(t, key, meta, row).Some?
    requires if key in t.parents then KvHolds(ledger, dek, t, key, I.Record(r.created, earlier)) else earlier == []
    requires |r.entries| == |earlier| + 1 && r.entries[..|earlier|] == earlier
    requires meta.created == r.created && row.created == r.entries[|earlier|].created
    requires OpenColumns(ledger, dek, row.columns, KvAad(key.0, key.1, NextVersion(t, key)))
             == Plain(r.entries[|earlier|].data)
    ensures KvHolds(ledger, dek, Put(t, key, meta, row).value, key, r)
  {
    var t', id, n := Put(t, key, meta, row).value, IdFor(t, key), |r.entries|;
    NewRow(t, key, meta, row);
    hide OpenColumns, KvAad, Put, Consistent;
    forall v | 1 <= v <= n ensures KvRowHolds(ledger, dek, t', key, id, r.entries, v) {
      if v < n {
        assert KvRowHolds(ledger, dek, t, key, id, earlier, v);
        PutShape(t, key, meta, row, key, v);
        assert r.entries[v - 1] == r.entries[..|earlier|][v - 1];
      }
    }
  }

  lemma RefineWrite(p: Prims, s: Sys, i: I.State, user: string, path: string, data: Bytes, now: string, draw: Draw)
    requires Sim(p, s, i) && FreshDraw(s.ledger, draw) && p.isObject(data)
    ensures var (s', resp) := KvEngine.Write(p, s, user, path, data, now, draw);
            var (i', r) := I.Write(i, user, path, data, now);
            resp == r && Sim(p, s', i')
  {
    hide Authorized;
    var s' := KvEngine.Write(p, s, user, path, data, now, draw).0;
    if !Authorized(user, path) {
      AuditFrame(p, s, s', i);
    } else if I.IsOpen(i) {
      WriteSim(p, s, i, user, path, data, now, draw);
    }
  }

  lemma WriteSim(p: Prims, s: Sys, i: I.State, user: string, path: string, data: Bytes, now: string, draw: Draw)
    requires Sim(p, s, i) && FreshDraw(s.ledger, draw) && p.isObject(data)
    requires I.IsOpen(i) && Authorized(user, path)
    ensures var (s', resp) := KvEngine.Write(p, s, user, path, data, now, draw);
            var (i', r) := I.Write(i, user, path, data, now);
            resp == r && Sim(p, s', i')
  {
    hide KvAad, DataAad, OpenColumns, ToColumns, Authorized, KvEngine.Denied, Append, SimKv, SimKeys, SimSealed,
      SimSigned,
      SimVault, KvHolds, KeyHolds, Consistent, Objects;
    SimFacts(p, s, i);
    WriteObjects(p, i.kv, (user, path), data, now);
    var dek, key := i.vault.dek, (user, path);
    var aad := KvAad(user, path, NextVersion(s.kv, key));
    var box, columns := Box(dek, aad, draw), ToColumns(Pack(draw));
    var ledger := s.ledger[box := data];
    FreshGrows(s.ledger, box, data);
    EncryptedOpens(s.ledger, dek, data, aad, draw, ledger);
    ColumnsOpen(ledger, dek, Pack(draw), aad);
    KvAadIsNoData(user, path, NextVersion(s.kv, key));
    KvFrame(s.ledger, ledger, dek, s.kv, i.kv);
    AppendHolds(ledger, dek, s.kv, i.kv, key, data, now, columns);
    var s' := s.(ledger := ledger, kv := Append(s.kv, key, now, columns).0);
    SealFrame(p, s, s', i, box, data);
    assert i.kv[key := Extended(i.kv, key, data, now)] == I.Write(i, user, path, data, now).0.kv;
  }

  lemma WriteObjects(p: Prims, kv: map<Key, I.Record>, key: Key, data: Bytes, now: string)
    requires Objects(p, kv) && p.isObject(data)
    ensures Objects(p, kv[key := Extended(kv, key, data, now)])
  {
  }

  /** Everything but the KV tables still holds after one box that is no data ciphertext. */
  lemma SealFrame(p: Prims, s: Sys, s': Sys, i: I.State, box: Sealed, plaintext: Bytes)
    requires Sim(p, s, i) && i.vault.Made? && Grows(s.ledger, s'.ledger)
    requires s' == s.(ledger := s.ledger[box := plaintext], kv := s'.kv)
    requires box.aad != DEK_WRAP_AAD && forall o, n, v :: box.aad != DataAad(o, n, v)
    ensures SimVault(s', i.vault) && SimKeys(p, s', i.vault.dek, i.keys)
    ensures SimSealed(s'.ledger, i.sealed) && SimSigned(p, s', i.signed)
  {
    VaultFrame(s, s', i.vault, box, plaintext);
    KeysFrame(p, s, s', i.vault.dek, i.keys);
    SealedFrame(s.ledger, i.sealed, box, plaintext);
    SignedFrame(p, s, s', i.signed);
  }

  lemma RefineRead(p: Prims, s: Sys, i: I.State, user: string, path: string, version: Option<int>, now: string)
    requires Sim(p, s, i)
    ensures var (s', resp) := KvEngine.Read(p, s, user, path, version, now);
            resp == I.Read(i, user, path, version) && Sim(p, s', i)
  {
    if !Authorized(user, path) {
      AuditFrame(p, s, KvEngine.Read(p, s, user, path, version, now).0, i);
    } else {
      ReadOwned(p, s, i, user, path, version, now);
    }
    hide Sim, KvEngine.Read, I.Read, Authorized;
  }

  lemma ReadOwned(p: Prims, s: Sys, i: I.State, user: string, path: string, version: Option<int>, now: string)
    requires Sim(p, s, i) && Authorized(user, path)
    ensures KvEngine.Read(p, s, user, path, version, now) == (s, I.Read(i, user, path, version))
  {
    var key := (user, path);
    hide Sim, Authorized, KvEngine.Denied, SimVault, SimKv, SimKeys, SimSealed, SimSigned, OpenColumns, KvAad, KvHolds,
      KeyHolds, Consistent;
    SimFacts(p, s, i);
    if key in i.kv {
      var entries := i.kv[key].entries;
      var wanted := if version.Some? then version.value else |entries|;
      FindEntry(s.ledger, DekOf(i.vault), s.kv, key, i.kv[key], version);
      assert 1 <= wanted <= |entries| ==> p.isObject(entries[wanted - 1].data);
      hide GetVersion;
    }
    var found := GetVersion(s.kv, key, version);
    if version.Some? && version.value < 1 {
      assert KvEngine.Read(p, s, user, path, version, now) == (s, Failed(InvalidVersion));
    } else if !I.IsOpen(i) {
      assert KvEngine.Read(p, s, user, path, version, now) == (s, Failed(VaultLocked));
    } else if found.None? {
      assert KvEngine.Read(p, s, user, path, version, now) == (s, Failed(RecordNotFound));
    } else {
      assert KvEngine.Read(p, s, user, path, version, now) == (s, I.Read(i, user, path, version));
    }
  }

  /** The row the query finds opens to the wanted entry, if there is one. */
  lemma FindEntry(ledger: Ledger, dek: Bytes, t: KvTables, key: Key, r: I.Record, version: Option<int>)
    requires Consistent(t) && KvHolds(ledger, dek, t, key, r)
    ensures var wanted := if version.Some? then version.value else |r.entries|;
            var found := GetVersion(t, key, version);
            if 1 <= wanted <= |r.entries| then
              && found.Some? && found.value.version == wanted && found.value.latest == |r.entries|
              && found.value.row.created == r.entries[wanted - 1].created
              && OpenColumns(ledger, dek, found.value.row.columns, KvAad(key.0, key.1, wanted))
                 == Plain(r.entries[wanted - 1].data)
            else found.None?
  {
    var wanted := if version.Some? then version.value else |r.entries|;
    VersionInTable(t, key, wanted);
    hide OpenColumns, KvAad, Consistent;
    if 1 <= wanted <= |r.entries| {
      assert KvRowHolds(ledger, dek, t, key, t.parents[key].id, r.entries, wanted);
    }
  }

  lemma RefineHistory(p: Prims, s: Sys, i: I.State, user: string, path: string, now: string)
    requires Sim(p, s, i)
    ensures var (s', resp) := KvEngine.ListHistory(p, s, user, path, now);
            resp == I.ListHistory(i, user, path) && Sim(p, s', i)
  {
    if !Authorized(user, path) {
      AuditFrame(p, s, KvEngine.ListHistory(p, s, user, path, now).0, i);
    } else {
      HistoryOwned(p, s, i, user, path, now);
    }
    hide Sim, KvEngine.ListHistory, I.ListHistory, Authorized;
  }

  lemma HistoryOwned(p: Prims, s: Sys, i: I.State, user: string, path: string, now: string)
    requires Sim(p, s, i) && Authorized(user, path)
    ensures KvEngine.ListHistory(p, s, user, path, now) == (s, I.ListHistory(i, user, path))
  {
    var key := (user, path);
    hide Sim, Authorized, KvEngine.Denied, SimVault, SimKv, SimKeys, SimSealed, SimSigned;
    SimFacts(p, s, i);
    if key in i.kv {
      assert KvHolds(s.ledger, DekOf(i.vault), s.kv, key, i.kv[key]);
      HistoryLists(s.ledger, DekOf(i.vault), s.kv, key, i.kv[key]);
    } else {
      assert History(s.kv, key) == [];
    }
    hide History, Consistent, KvRowHolds, KeyHolds;
  }

  lemma HistoryLists(ledger: Ledger, dek: Bytes, t: KvTables, key: Key, r: I.Record)
    requires Consistent(t) && KvHolds(ledger, dek, t, key, r)
    ensures History(t, key) == I.Listing(r.entries)
    ensures r.entries != [] && History(t, key) != []
  {
    ListIsContiguous(t, key);
    hide OpenColumns, KvAad, ListVersions, Consistent;
    var list, ideal := History(t, key), I.Listing(r.entries);
    assert |list| == |r.entries|;
    forall k | 0 <= k < |list| ensures list[k] == ideal[k] {
      assert KvRowHolds(ledger, dek, t, key, t.parents[key].id, r.entries, k + 1);
    }
    assert list == ideal;
  }

  lemma RefineDelete(p: Prims, s: Sys, i: I.State, user: string, path: string, now: string)
    requires Sim(p, s, i)
    ensures var (s', resp) := KvEngine.Delete(p, s, user, path, now);
            var (i', r) := I.Delete(i, user, path);
            resp == r && Sim(p, s', i')
  {
    hide Authorized;
    var key, s' := (user, path), KvEngine.Delete(p, s, user, path, now).0;
    if !Authorized(user, path) {
      AuditFrame(p, s, s', i);
    } else {
      SimFacts(p, s, i);
      if I.IsOpen(i) && key in i.kv {
        RemoveSim(s.ledger, i.vault.dek, s.kv, i.kv, key);
        assert Objects(p, i.kv - {key});
        KvFramed(p, s, s', i, i.kv - {key});
      }
      hide Sim, Authorized, Consistent;
    }
  }

  /** Only the KV tables changed. */
  lemma KvFramed(p: Prims, s: Sys, s': Sys, i: I.State, kv: map<Key, I.Record>)
    requires Sim(p, s, i) && s' == s.(kv := s'.kv) && i.vault.Made?
    requires SimKv(s.ledger, i.vault.dek, s'.kv, kv) && Objects(p, kv)
    ensures Sim(p, s', i.(kv := kv))
  {
    hide Objects;
    KeysFrame(p, s, s', i.vault.dek, i.keys);
    SignedFrame(p, s, s', i.signed);
    hide SimKv, SimKeys, SimSealed, SimSigned, OpenColumns;
  }

  lemma RemoveSim(ledger: Ledger, dek: Bytes, t: KvTables, kv: map<Key, I.Record>, key: Key)
    requires SimKv(ledger, dek, t, kv) && key in kv
    ensures key in t.parents && SimKv(ledger, dek, Remove(t, key), kv - {key})
  {
    RemoveKeepsConsistent(t, key);
    var t' := Remove(t, key);
    assert t'.parents.Keys == kv.Keys - {key};
    hide Consistent, OpenColumns, KvAad;
    forall other | other in kv && other != key ensures KvHolds(ledger, dek, t', other, kv[other]) {
      assert KvHolds(ledger, dek, t, other, kv[other]);
      RemoveHolds(ledger, dek, t, key, other, kv[other]);
    }
  }

  lemma RemoveHolds(ledger: Ledger, dek: Bytes, t: KvTables, key: Key, other: Key, r: I.Record)
    requires Consistent(t) && key in t.parents && other != key && KvHolds(ledger, dek, t, other, r)
    ensures KvHolds(ledger, dek, Remove(t, key), other, r)
  {
    var t', id := Remove(t, key), t.parents[other].id;
    assert t'.parents[other] == t.parents[other];
    hide OpenColumns, KvAad, Remove, Consistent;
    forall v | 1 <= v <= |r.entries| ensures KvRowHolds(ledger, dek, t', other, id, r.entries, v) {
      assert KvRowHolds(ledger, dek, t, other, id, r.entries, v);
      RemoveShape(t, key, other, v);
    }
  }
}
