/** How the tables, the ledger and the stored configuration represent the ideal
    state, and what sealing one more box leaves of it. */
module Simulation {
  import opened Text
  import opened Base64
  import opened Crypto
  import opened TransitToken
  import opened Aad
  import opened VersionedTables
  import opened KvStore
  import opened World
  import T = TransitEngine
  import VaultEngine
  import KeyStore
  import I = Ideal

  /** The stored configuration opens to the DEK under the wrapping key, and nothing
      else was ever sealed as a wrapped DEK. */
  ghost predicate SimVault(s: Sys, v: I.IVault) {
    match v
    case Fresh => s.vault == Vault(None, None) && s.ledger == map[]
    case Made(salt, params, key, dek, open) =>
      && |key| == 32 && |dek| == 32 && |salt| >= 16
      && s.vault.dek == (if open then Some(dek) else None)
      && s.vault.config.Some?
      && var config := s.vault.config.value;
      && config == Config(VaultEngine.CONFIG_VERSION, "argon2id", Encode(salt), params, config.wrapped)
      && OpenColumns(s.ledger, key, config.wrapped, DEK_WRAP_AAD) == Plain(dek)
      && forall box :: box in s.ledger && box.aad == DEK_WRAP_AAD ==> box.key == key
  }

  ghost function DekOf(v: I.IVault): Bytes {
    if v.Made? then v.dek else []
  }

  /** Row `v` of a record opens to the entry written as its version `v`. */
  ghost predicate KvRowHolds(ledger: Ledger, dek: Bytes, t: KvTables, key: Key, id: int, entries: seq<I.Entry>, v: int)
    requires 1 <= v <= |entries|
  {
    var e := entries[v - 1];
    && (id, v) in t.rows && t.rows[(id, v)].created == e.created
    && OpenColumns(ledger, dek, t.rows[(id, v)].columns, KvAad(key.0, key.1, v)) == Plain(e.data)
  }

  ghost predicate KvHolds(ledger: Ledger, dek: Bytes, t: KvTables, key: Key, r: I.Record) {
    && key in t.parents && t.parents[key].latest == |r.entries| && t.parents[key].meta.created == r.created
    && forall v :: 1 <= v <= |r.entries| ==> KvRowHolds(ledger, dek, t, key, t.parents[key].id, r.entries, v)
  }

  ghost predicate SimKv(ledger: Ledger, dek: Bytes, t: KvTables, kv: map<Key, I.Record>) {
    && Consistent(t) && t.parents.Keys == kv.Keys
    && forall key :: key in kv ==> KvHolds(ledger, dek, t, key, kv[key])
  }

  /** Row `v` of a named key unwraps to its material, minted for its owner. */
  ghost predicate KeyRowHolds(p: Prims, s: Sys, dek: Bytes, key: Key, usage: string, id: int,
                              entries: seq<I.Entry>, v: int)
    requires 1 <= v <= |entries|
  {
    var e := entries[v - 1];
    && (id, v) in s.keys.rows
    && var row := s.keys.rows[(id, v)];
    && row.created == e.created
    && row.material.publicKey == (if usage == T.SIGN_VERIFY then Some(Encode(p.publicKey(e.data))) else None)
    && OpenColumns(s.ledger, dek, row.material.columns,
                   KeyAad(key.0, key.1, usage, T.AlgorithmOf(usage), v)) == Plain(e.data)
    && GoodMaterial(p, s.minted, Holder(key.0, usage), e.data)
  }

  ghost predicate GoodMaterial(p: Prims, minted: map<Bytes, Holder>, holder: Holder, material: Bytes) {
    && |material| == 32 && material in minted && minted[material] == holder
    && (holder.usage == T.SIGN_VERIFY ==> |p.publicKey(material)| == 32)
  }

  /** Material minted as a signing key: only this has a public key. */
  ghost predicate Signer(minted: map<Bytes, Holder>, material: Bytes) {
    material in minted && minted[material].usage == T.SIGN_VERIFY
  }

  ghost predicate KeyHolds(p: Prims, s: Sys, dek: Bytes, key: Key, r: I.KeyRecord) {
    && key in s.keys.parents && ValidName(key.1)
    && (r.usage == T.ENCRYPT_DECRYPT || r.usage == T.SIGN_VERIFY)
    && s.keys.parents[key].latest == |r.entries|
    && s.keys.parents[key].meta == KeyStore.KeyMeta(r.usage, T.AlgorithmOf(r.usage), r.created, r.updated)
    && forall v :: 1 <= v <= |r.entries| ==>
         KeyRowHolds(p, s, dek, key, r.usage, s.keys.parents[key].id, r.entries, v)
  }

  ghost predicate SimKeys(p: Prims, s: Sys, dek: Bytes, keys: map<Key, I.KeyRecord>) {
    && Consistent(s.keys) && s.keys.parents.Keys == keys.Keys
    && forall key :: key in keys ==> KeyHolds(p, s, dek, key, keys[key])
  }

  /** The box of the real ledger that stands for an ideal one. */
  function Image(box: I.IBox): Sealed {
    Sealed(box.material, box.nonce, box.body, DataAad(box.owner, box.name, box.version))
  }

  ghost predicate SimSealed(ledger: Ledger, sealed: map<I.IBox, Bytes>) {
    forall box: I.IBox :: ValidName(box.name) ==>
      && (box in sealed <==> Image(box) in ledger)
      && (box in sealed ==> sealed[box] == ledger[Image(box)])
  }

  function SignatureOf(p: Prims, b: I.ISigned): Signature {
    Signature(p.publicKey(b.material), b.digest, b.signature)
  }

  ghost predicate HasSigner(p: Prims, signed: set<I.ISigned>, g: Signature) {
    exists b :: b in signed && SignatureOf(p, b) == g
  }

  /** Signatures are those of the ideal state, and a public key names one material. */
  ghost predicate SimSigned(p: Prims, s: Sys, signed: set<I.ISigned>) {
    && (forall b :: b in signed ==>
          && SignatureOf(p, b) in s.signatures && b.material in s.minted
          && s.minted[b.material] == Holder(b.owner, T.SIGN_VERIFY))
    && (forall g :: g in s.signatures ==> HasSigner(p, signed, g))
    && (forall m, m' :: Signer(s.minted, m) && Signer(s.minted, m') && p.publicKey(m) == p.publicKey(m') ==> m == m')
  }

  /** Every recorded value is a JSON object. */
  ghost predicate Objects(p: Prims, kv: map<Key, I.Record>) {
    forall key, k :: key in kv && 0 <= k < |kv[key].entries| ==> p.isObject(kv[key].entries[k].data)
  }

  ghost predicate Sim(p: Prims, s: Sys, i: I.State) {
    && Objects(p, i.kv)
    && SimVault(s, i.vault)
    && (i.vault.Fresh? ==> i.kv == map[] && i.keys == map[])
    && SimKv(s.ledger, DekOf(i.vault), s.kv, i.kv)
    && SimKeys(p, s, DekOf(i.vault), i.keys)
    && SimSealed(s.ledger, i.sealed)
    && SimSigned(p, s, i.signed)
  }

  // --------------------------------------------------------- legal randomness

  /** Key material as chance gives it: 32 bytes, unlike any minted before; for a signing
      key, with a 32-byte public key unlike those of the other signing keys. */
  ghost predicate FreshMint(p: Prims, s: Sys, usage: string, mint: Mint) {
    && FreshDraw(s.ledger, mint.draw)
    && |mint.material| == 32 && mint.material !in s.minted
    && (usage == T.SIGN_VERIFY ==>
          && |p.publicKey(mint.material)| == 32
          && forall m :: Signer(s.minted, m) ==> p.publicKey(m) != p.publicKey(mint.material))
  }

  /** What a request may draw in a state: unused nonces and new key material.  A value
      written is the JSON text of an object, so it reads back as one. */
  ghost predicate Legal(p: Prims, s: Sys, op: Op) {
    match op
    case Initialize(_, _, _, dek, draw) => FreshDraw(s.ledger, draw) && |dek| == 32
    case KvWrite(_, _, data, _, draw) => FreshDraw(s.ledger, draw) && p.isObject(data)
    case CreateKey(_, _, _, mint) => FreshMint(p, s, T.ENCRYPT_DECRYPT, mint)
    case CreateSigningKey(_, _, _, _, mint) => FreshMint(p, s, T.SIGN_VERIFY, mint)
    case RotateKey(user, name, _, mint) => FreshMint(p, s, T.RotatedUsage(s.keys, (user, name)), mint)
    case EncryptData(_, _, _, _, draw) => FreshDraw(s.ledger, draw)
    case _ => true
  }

  // -------------------------------------------------- framing under a new box

  /** The same tables still hold after the ledger and the minted keys grew. */
  lemma KvFrame(before: Ledger, after: Ledger, dek: Bytes, t: KvTables, kv: map<Key, I.Record>)
    requires SimKv(before, dek, t, kv) && Grows(before, after)
    ensures SimKv(after, dek, t, kv)
  {
    hide Consistent, OpenColumns, KvAad;
    forall key | key in kv ensures KvHolds(after, dek, t, key, kv[key]) {
      assert KvHolds(before, dek, t, key, kv[key]);
      KvHoldsFrame(before, after, dek, t, key, kv[key]);
    }
  }

  lemma KvHoldsFrame(before: Ledger, after: Ledger, dek: Bytes, t: KvTables, key: Key, r: I.Record)
    requires KvHolds(before, dek, t, key, r) && Grows(before, after)
    ensures KvHolds(after, dek, t, key, r)
  {
    hide OpenColumns, KvAad;
    var id := t.parents[key].id;
    forall v | 1 <= v <= |r.entries| ensures KvRowHolds(after, dek, t, key, id, r.entries, v) {
      assert KvRowHolds(before, dek, t, key, id, r.entries, v);
      OpenColumnsGrows(before, after, dek, t.rows[(id, v)].columns, KvAad(key.0, key.1, v));
    }
  }

  ghost predicate SameKeysMoreLedger(s: Sys, s': Sys) {
    && s'.keys == s.keys && Grows(s.ledger, s'.ledger)
    && forall m :: m in s.minted ==> m in s'.minted && s'.minted[m] == s.minted[m]
  }

  lemma KeysFrame(p: Prims, s: Sys, s': Sys, dek: Bytes, keys: map<Key, I.KeyRecord>)
    requires SimKeys(p, s, dek, keys) && SameKeysMoreLedger(s, s')
    ensures SimKeys(p, s', dek, keys)
  {
    hide Consistent, ValidName;
    forall key | key in keys ensures KeyHolds(p, s', dek, key, keys[key]) {
      assert KeyHolds(p, s, dek, key, keys[key]);
      KeyHoldsFrame(p, s, s', dek, key, keys[key]);
    }
  }

  lemma KeyHoldsFrame(p: Prims, s: Sys, s': Sys, dek: Bytes, key: Key, r: I.KeyRecord)
    requires KeyHolds(p, s, dek, key, r) && SameKeysMoreLedger(s, s')
    ensures KeyHolds(p, s', dek, key, r)
  {
    hide OpenColumns, KeyAad, ValidName, Encode;
    var id := s.keys.parents[key].id;
    forall v | 1 <= v <= |r.entries| ensures KeyRowHolds(p, s', dek, key, r.usage, id, r.entries, v) {
      assert KeyRowHolds(p, s, dek, key, r.usage, id, r.entries, v);
      OpenColumnsGrows(s.ledger, s'.ledger, dek, s.keys.rows[(id, v)].material.columns,
                       KeyAad(key.0, key.1, r.usage, T.AlgorithmOf(r.usage), v));
    }
  }

  /** A fresh draw overwrites nothing. */
  lemma FreshGrows(ledger: Ledger, box: Sealed, plaintext: Bytes)
    requires forall b :: b in ledger ==> b.nonce != box.nonce
    ensures Grows(ledger, ledger[box := plaintext]) && box !in ledger
  {
  }

  lemma VaultFrame(s: Sys, s': Sys, v: I.IVault, box: Sealed, plaintext: Bytes)
    requires SimVault(s, v) && v.Made? && s'.vault == s.vault
    requires s'.ledger == s.ledger[box := plaintext] && Grows(s.ledger, s'.ledger)
    requires box.aad != DEK_WRAP_AAD
    ensures SimVault(s', v)
  {
    OpenColumnsGrows(s.ledger, s'.ledger, v.wrappingKey, s.vault.config.value.wrapped, DEK_WRAP_AAD);
    hide OpenColumns;
  }

  /** A box that is no data ciphertext changes nothing users can decrypt. */
  lemma SealedFrame(ledger: Ledger, sealed: map<I.IBox, Bytes>, box: Sealed, plaintext: Bytes)
    requires SimSealed(ledger, sealed)
    requires forall o, n, v :: box.aad != DataAad(o, n, v)
    ensures SimSealed(ledger[box := plaintext], sealed)
  {
    hide DataAad, ValidName;
    forall b: I.IBox | ValidName(b.name)
      ensures Image(b) != box
    {
      assert box.aad != DataAad(b.owner, b.name, b.version);
    }
  }

  lemma KvAadIsNoData(owner: string, path: string, version: int)
    ensures forall o, n, v :: KvAad(owner, path, version) != DataAad(o, n, v)
    ensures KvAad(owner, path, version) != DEK_WRAP_AAD
  {
    hide KvAad, DataAad;
    KvHead(owner, path, version);
    forall o, n, v ensures KvAad(owner, path, version) != DataAad(o, n, v) {
      DataHead(o, n, v);
    }
  }

  lemma KeyAadIsNoData(owner: string, name: string, usage: string, algorithm: Option<string>, version: int)
    ensures forall o, n, v :: KeyAad(owner, name, usage, algorithm, version) != DataAad(o, n, v)
    ensures KeyAad(owner, name, usage, algorithm, version) != DEK_WRAP_AAD
  {
    hide KeyAad, DataAad;
    KeyHead(owner, name, usage, algorithm, version);
    forall o, n, v ensures KeyAad(owner, name, usage, algorithm, version) != DataAad(o, n, v) {
      DataHead(o, n, v);
    }
  }

  lemma WrapAadIsNoData()
    ensures forall o, n, v :: DEK_WRAP_AAD != DataAad(o, n, v)
  {
    hide DataAad;
    forall o, n, v ensures DEK_WRAP_AAD != DataAad(o, n, v) {
      DataHead(o, n, v);
    }
  }

  lemma SignedFrame(p: Prims, s: Sys, s': Sys, signed: set<I.ISigned>)
    requires SimSigned(p, s, signed) && s'.signatures == s.signatures && s'.minted == s.minted
    ensures SimSigned(p, s', signed)
  {
    hide HasSigner;
  }
}
