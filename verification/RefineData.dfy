/** Encrypting, decrypting, signing and verifying refine the ideal requests. */
module RefineData {
  import opened Text
  import opened Base64
  import opened Crypto
  import opened Sorting
  import opened TransitToken
  import opened Aad
  import opened VersionedTables
  import opened World
  import opened Simulation
  import opened RefineVault
  import opened RefineKeys
  import T = TransitEngine
  import I = Ideal

  /** The engine's checks before a key is used come out the same. */
  lemma OwnedMatches(p: Prims, s: Sys, i: I.State, user: string, name: string)
    requires Sim(p, s, i)
    ensures T.OwnedError(s, user, name) == I.OwnedError(i, user, name)
  {
    SimFacts(p, s, i);
    hide Sim, ValidName, KeyHolds, KvHolds, Consistent;
    assert (user, name) in s.keys.parents.Keys <==> (user, name) in i.keys.Keys;
  }

  lemma UnwrapMatches(p: Prims, s: Sys, dek: Bytes, key: Key, r: I.KeyRecord, version: int)
    requires s.vault.dek == Some(dek) && Consistent(s.keys) && KeyHolds(p, s, dek, key, r)
    ensures T.Unwrap(s, key, version)
            == if 1 <= version <= |r.entries| then T.Ok(r.entries[version - 1].data) else T.Err(KeyVersionUnavailable)
    ensures 1 <= version <= |r.entries| ==>
              GoodMaterial(p, s.minted, Holder(key.0, r.usage), r.entries[version - 1].data)
    ensures |r.entries| >= 1
  {
    VersionInTable(s.keys, key, version);
    VersionInTable(s.keys, key, 1);
    assert s.keys.parents[key].latest >= 1;
    hide OpenColumns, KeyAad, Consistent, ValidName, Encode, GoodMaterial;
    if 1 <= version <= |r.entries| {
      assert KeyRowHolds(p, s, dek, key, r.usage, s.keys.parents[key].id, r.entries, version);
    }
  }

  // ------------------------------------------------------------ encrypt/decrypt

  lemma DataAadIsNoWrap(owner: string, name: string, version: int)
    ensures DataAad(owner, name, version) != DEK_WRAP_AAD
  {
    DataHead(owner, name, version);
    hide DataAad;
  }

  /** A data box adds exactly its ideal image: owner, name and version are read
      off the associated data without ambiguity. */
  lemma SealedGrows(ledger: Ledger, sealed: map<I.IBox, Bytes>, ibox: I.IBox, plaintext: Bytes)
    requires SimSealed(ledger, sealed) && ValidName(ibox.name)
    ensures SimSealed(ledger[Image(ibox) := plaintext], sealed[ibox := plaintext])
  {
    forall b: I.IBox | ValidName(b.name) ensures Image(b) == Image(ibox) <==> b == ibox {
      if Image(b) == Image(ibox) {
        DataAadInjective(b.owner, b.name, b.version, ibox.owner, ibox.name, ibox.version);
      }
    }
    hide DataAad, ValidName;
  }

  lemma SealDataSim(p: Prims, s: Sys, i: I.State, ibox: I.IBox, plaintext: Bytes)
    requires Sim(p, s, i) && i.vault.Made? && ValidName(ibox.name)
    requires forall b :: b in s.ledger ==> b.nonce != ibox.nonce
    ensures Sim(p, s.(ledger := s.ledger[Image(ibox) := plaintext]), i.(sealed := i.sealed[ibox := plaintext]))
  {
    var box, s' := Image(ibox), s.(ledger := s.ledger[Image(ibox) := plaintext]);
    FreshGrows(s.ledger, box, plaintext);
    DataAadIsNoWrap(ibox.owner, ibox.name, ibox.version);
    hide DataAad, OpenColumns, HasSigner, ValidName, Consistent;
    KvFrame(s.ledger, s'.ledger, i.vault.dek, s.kv, i.kv);
    VaultFrame(s, s', i.vault, box, plaintext);
    KeysFrame(p, s, s', i.vault.dek, i.keys);
    SealedGrows(s.ledger, i.sealed, ibox, plaintext);
    SignedFrame(p, s, s', i.signed);
    hide SimKv, SimKeys, SimSealed, SimSigned, SimVault;
  }

  lemma RefineEncrypt(p: Prims, s: Sys, i: I.State, user: string, name: string, text: string, now: string, draw: Draw)
    requires Sim(p, s, i) && FreshDraw(s.ledger, draw)
    ensures var (s', resp) := T.EncryptData(p, s, user, name, text, now, draw);
            var (i', r) := I.EncryptData(i, user, name, text, draw);
            resp == r && Sim(p, s', i')
  {
    OwnedMatches(p, s, i, user, name);
    hide Sim, T.OwnedError, I.OwnedError, FreshDraw;
    if T.OwnedError(s, user, name).Some? {
      RefuseFrame(p, s, i, user, name, now, T.OwnedError(s, user, name).value);
      hide T.Refuse;
    } else {
      EncryptOwned(p, s, i, user, name, text, now, draw);
      hide T.EncryptData, I.EncryptData;
    }
  }

  lemma EncryptOwned(p: Prims, s: Sys, i: I.State, user: string, name: string, text: string, now: string, draw: Draw)
    requires Sim(p, s, i) && FreshDraw(s.ledger, draw)
    requires T.OwnedError(s, user, name).None? && I.OwnedError(i, user, name).None?
    ensures var (s', resp) := T.EncryptData(p, s, user, name, text, now, draw);
            var (i', r) := I.EncryptData(i, user, name, text, draw);
            resp == r && Sim(p, s', i')
  {
    hide Sim, SimVault, SimKv, SimKeys, SimSealed, SimSigned, ValidName, Decode, Format, Pack, T.Refuse, T.Unwrap,
      KvHolds, Consistent, KeyRowHolds, DataAad;
    SimFacts(p, s, i);
    var key := (user, name);
    var r := i.keys[key];
    assert KeyHolds(p, s, DekOf(i.vault), key, r);
    if I.IsOpen(i) && Decode(text).Some? {
      var n := |r.entries|;
      UnwrapMatches(p, s, i.vault.dek, key, r, n);
      FormatSome(name, n, Pack(draw));
      var ibox := I.IBox(user, name, n, r.entries[n - 1].data, draw.nonce, draw.body);
      SealDataSim(p, s, i, ibox, Decode(text).value);
      assert Image(ibox) == Box(ibox.material, DataAad(user, name, n), draw);
    }
  }

  lemma FormatSome(name: string, version: int, blob: Blob)
    requires ValidName(name) && version >= 1
    ensures Format(name, version, blob).Some?
  {
  }

  lemma RefineDecrypt(p: Prims, s: Sys, i: I.State, user: string, text: string, now: string)
    requires Sim(p, s, i)
    ensures var (s', resp) := T.DecryptData(p, s, user, text, now);
            resp == I.DecryptData(i, user, text) && Sim(p, s', i)
  {
    hide Sim, T.OwnedError, I.OwnedError, Parse, ValidName, WellFormed, Decrypt, T.Refuse;
    if Parse(text).Some? {
      var token := Parse(text).value;
      ParseAccepts(text);
      OwnedMatches(p, s, i, user, token.name);
      if T.OwnedError(s, user, token.name).Some? {
        RefuseFrame(p, s, i, user, token.name, now, T.OwnedError(s, user, token.name).value);
      } else {
        DecryptOwned(p, s, i, user, text, now);
        hide T.DecryptData, I.DecryptData;
      }
    }
  }

  lemma DecryptOwned(p: Prims, s: Sys, i: I.State, user: string, text: string, now: string)
    requires Sim(p, s, i) && Parse(text).Some?
    requires T.OwnedError(s, user, Parse(text).value.name).None? && I.OwnedError(i, user, Parse(text).value.name).None?
    requires WellFormed(Parse(text).value.blob) && ValidName(Parse(text).value.name)
    ensures T.DecryptData(p, s, user, text, now) == (s, I.DecryptData(i, user, text))
  {
    hide Parse, Sim, SimVault, SimKv, SimKeys, SimSealed, SimSigned, ValidName, Encode, KvHolds, Consistent,
      KeyRowHolds,
      T.Refuse, T.Unwrap, DataAad, Image, Decrypt, WellFormed;
    SimFacts(p, s, i);
    SimSealedOf(p, s, i);
    var token := Parse(text).value;
    var key := (user, token.name);
    var r := i.keys[key];
    assert KeyHolds(p, s, DekOf(i.vault), key, r);
    if I.IsOpen(i) {
      UnwrapMatches(p, s, i.vault.dek, key, r, token.version);
      if 1 <= token.version <= |r.entries| {
        OpenMatches(s.ledger, i.sealed, user, token, r.entries[token.version - 1].data);
      }
    }
  }

  lemma SimSealedOf(p: Prims, s: Sys, i: I.State)
    requires Sim(p, s, i)
    ensures SimSealed(s.ledger, i.sealed)
  {
  }

  lemma OpenMatches(ledger: Ledger, sealed: map<I.IBox, Bytes>, user: string, token: Token, material: Bytes)
    requires SimSealed(ledger, sealed) && ValidName(token.name) && WellFormed(token.blob) && |material| == 32
    ensures var box := I.BoxFor(user, token, material);
            Decrypt(ledger, material, token.blob, DataAad(user, token.name, token.version))
            == if box in sealed then Plain(sealed[box]) else InvalidTag
  {
    hide DataAad, ValidName;
    var box := I.BoxFor(user, token, material);
    assert Image(box) == Sealed(material, token.blob.nonce, token.blob.ciphertext + token.blob.tag,
                                DataAad(user, token.name, token.version));
  }

  // ---------------------------------------------------------------- sign/verify

  lemma SigningErrorMatches(p: Prims, s: Sys, i: I.State, user: string, name: string, message: string,
                            messageType: string, algorithm: string)
    requires Sim(p, s, i) && (user, name) in i.keys && (user, name) in s.keys.parents
    ensures T.SigningError(p, s, user, name, message, messageType, algorithm)
         == I.SigningError(p, i, user, name, message, messageType, algorithm)
    ensures T.SigningError(p, s, user, name, message, messageType, algorithm).None? ==>
              && I.IsOpen(i) && i.keys[(user, name)].usage == T.SIGN_VERIFY
              && T.MessageDigest(p, message, messageType).Ok?
              && s.keys.parents[(user, name)].meta.algorithm == Some(T.ED25519)
  {
    SimFacts(p, s, i);
    hide Sim, KvHolds, Consistent, KeyRowHolds, ValidName, T.MessageDigest, Upper;
    assert KeyHolds(p, s, DekOf(i.vault), (user, name), i.keys[(user, name)]);
  }

  /** A new signature is the owner's, under material nobody else holds. */
  lemma SignedGrows(p: Prims, s: Sys, s': Sys, signed: set<I.ISigned>, b: I.ISigned)
    requires SimSigned(p, s, signed) && b.material in s.minted && s.minted[b.material] == Holder(b.owner, T.SIGN_VERIFY)
    requires s'.signatures == s.signatures + {SignatureOf(p, b)} && s'.minted == s.minted
    ensures SimSigned(p, s', signed + {b})
  {
    forall g | g in s'.signatures ensures HasSigner(p, signed + {b}, g) {
      if g == SignatureOf(p, b) {
        assert b in signed + {b};
      } else {
        assert HasSigner(p, signed, g);
        var c :| c in signed && SignatureOf(p, c) == g;
        assert c in signed + {b};
      }
    }
    hide HasSigner;
  }

  lemma SignSim(p: Prims, s: Sys, i: I.State, b: I.ISigned)
    requires Sim(p, s, i) && b.material in s.minted && s.minted[b.material] == Holder(b.owner, T.SIGN_VERIFY)
    ensures Sim(p, s.(signatures := s.signatures + {SignatureOf(p, b)}), i.(signed := i.signed + {b}))
  {
    hide HasSigner, OpenColumns, Consistent;
    var s' := s.(signatures := s.signatures + {SignatureOf(p, b)});
    KeysFrame(p, s, s', DekOf(i.vault), i.keys);
    SignedGrows(p, s, s', i.signed, b);
    hide SimKv, SimKeys, SimSealed, SimSigned;
  }

  lemma RefineSign(p: Prims, s: Sys, i: I.State, user: string, name: string, message: string, messageType: string,
                   algorithm: string, now: string, signature: Bytes)
    requires Sim(p, s, i)
    ensures var (s', resp) := T.Sign(p, s, user, name, message, messageType, algorithm, now, signature);
            var (i', r) := I.Sign(p, i, user, name, message, messageType, algorithm, signature);
            resp == r && Sim(p, s', i')
  {
    OwnedMatches(p, s, i, user, name);
    hide Sim, T.OwnedError, I.OwnedError;
    if T.OwnedError(s, user, name).Some? {
      RefuseFrame(p, s, i, user, name, now, T.OwnedError(s, user, name).value);
      hide T.Refuse;
    } else {
      SignOwned(p, s, i, user, name, message, messageType, algorithm, now, signature);
      hide T.Sign, I.Sign;
    }
  }

  lemma SignOwned(p: Prims, s: Sys, i: I.State, user: string, name: string, message: string, messageType: string,
                  algorithm: string, now: string, signature: Bytes)
    requires Sim(p, s, i) && T.OwnedError(s, user, name).None? && I.OwnedError(i, user, name).None?
    ensures var (s', resp) := T.Sign(p, s, user, name, message, messageType, algorithm, now, signature);
            var (i', r) := I.Sign(p, i, user, name, message, messageType, algorithm, signature);
            resp == r && Sim(p, s', i')
  {
    hide Sim, SimVault, SimKv, SimKeys, SimSealed, SimSigned, ValidName, T.Refuse, T.MessageDigest, Upper, Encode,
      T.SigningError, I.SigningError, T.Unwrap, KeyRowHolds, KvHolds, Consistent;
    SimFacts(p, s, i);
    SigningErrorMatches(p, s, i, user, name, message, messageType, algorithm);
    var key := (user, name);
    var r := i.keys[key];
    assert KeyHolds(p, s, DekOf(i.vault), key, r);
    if I.SigningError(p, i, user, name, message, messageType, algorithm).None? {
      var n := |r.entries|;
      UnwrapMatches(p, s, i.vault.dek, key, r, n);
      var digest := T.MessageDigest(p, message, messageType).value;
      SignSim(p, s, i, I.ISigned(user, r.entries[n - 1].data, digest, signature));
    }
  }

  /** A stored public key accepts exactly the signatures made with its own material. */
  lemma AcceptsMatches(p: Prims, s: Sys, i: I.State, key: Key, digest: Bytes, signature: Bytes, version: int)
    requires Sim(p, s, i) && I.IsOpen(i) && key in i.keys && i.keys[key].usage == T.SIGN_VERIFY
    requires 1 <= version <= |i.keys[key].entries|
    ensures key in s.keys.parents
    ensures T.Accepts(s, key, digest, signature, version) <==> I.Accepts(i, key, digest, signature, version)
  {
    var r, dek := i.keys[key], i.vault.dek;
    var material := r.entries[version - 1].data;
    assert KeyHolds(p, s, dek, key, r);
    assert KeyRowHolds(p, s, dek, key, r.usage, s.keys.parents[key].id, r.entries, version);
    SignerIsOwner(p, s, i.signed, I.ISigned(key.0, material, digest, signature));
    DecodeEncode(p.publicKey(material));
    assert Decode("") == Some([]);
    hide Sim, OpenColumns, KeyAad, Encode, Decode, SimSigned, ValidName;
  }

  lemma SignerIsOwner(p: Prims, s: Sys, signed: set<I.ISigned>, b: I.ISigned)
    requires SimSigned(p, s, signed) && b.material in s.minted && s.minted[b.material] == Holder(b.owner, T.SIGN_VERIFY)
    ensures SignatureOf(p, b) in s.signatures <==> b in signed
  {
    if SignatureOf(p, b) in s.signatures {
      assert HasSigner(p, signed, SignatureOf(p, b));
      var c :| c in signed && SignatureOf(p, c) == SignatureOf(p, b);
      assert c.material == b.material && c == b;
    }
  }

  /** The loop, newest version first, stops at the greatest accepting version. */
  lemma {:induction false} LoopMatches(p: Prims, s: Sys, i: I.State, key: Key, digest: Bytes, signature: Bytes, n: nat)
    requires Sim(p, s, i) && I.IsOpen(i) && key in i.keys && i.keys[key].usage == T.SIGN_VERIFY
    requires n <= |i.keys[key].entries| && key in s.keys.parents
    ensures T.MatchLast(s, key, digest, signature, Count(n)) == I.Newest(i, key, digest, signature, n)
  {
    hide Sim, T.Accepts, I.Accepts;
    if n > 0 {
      AcceptsMatches(p, s, i, key, digest, signature, n);
      LoopMatches(p, s, i, key, digest, signature, n - 1);
      assert Count(n)[..n - 1] == Count(n - 1) && Count(n)[n - 1] == n;
    }
  }

  lemma RefineVerify(p: Prims, s: Sys, i: I.State, user: string, name: string, message: string, messageType: string,
                     signature: string, algorithm: string, version: Option<int>, now: string)
    requires Sim(p, s, i)
    ensures var (s', resp) := T.Verify(p, s, user, name, message, messageType, signature, algorithm, version, now);
            resp == I.Verify(p, i, user, name, message, messageType, signature, algorithm, version) && Sim(p, s', i)
  {
    OwnedMatches(p, s, i, user, name);
    hide Sim, T.OwnedError, I.OwnedError;
    if T.OwnedError(s, user, name).Some? {
      RefuseFrame(p, s, i, user, name, now, T.OwnedError(s, user, name).value);
      hide T.Refuse;
    } else {
      VerifyOwned(p, s, i, user, name, message, messageType, signature, algorithm, version, now);
      hide T.Verify, I.Verify;
    }
  }

  lemma VerifyOwned(p: Prims, s: Sys, i: I.State, user: string, name: string, message: string, messageType: string,
                    signature: string, algorithm: string, version: Option<int>, now: string)
    requires Sim(p, s, i) && T.OwnedError(s, user, name).None? && I.OwnedError(i, user, name).None?
    ensures T.Verify(p, s, user, name, message, messageType, signature, algorithm, version, now)
         == (s, I.Verify(p, i, user, name, message, messageType, signature, algorithm, version))
  {
    hide Sim, SimVault, SimKv, SimKeys, SimSealed, SimSigned, ValidName, T.Refuse, T.MessageDigest, Upper, Decode,
      T.SigningError, I.SigningError, T.MatchLast, I.Newest, T.Accepts, I.Accepts, ListVersions,
      KvHolds, KeyRowHolds, Consistent;
    SimFacts(p, s, i);
    SigningErrorMatches(p, s, i, user, name, message, messageType, algorithm);
    var key := (user, name);
    var r := i.keys[key];
    assert KeyHolds(p, s, DekOf(i.vault), key, r);
    if I.SigningError(p, i, user, name, message, messageType, algorithm).None? {
      if version.Some? {
        VersionInTable(s.keys, key, version.value);
      }
      if version.Some? ==> 1 <= version.value <= |r.entries| {
        MatchMatches(p, s, i, key, T.MessageDigest(p, message, messageType).value, signature, version);
      }
    }
  }

  lemma MatchMatches(p: Prims, s: Sys, i: I.State, key: Key, digest: Bytes, signature: string, version: Option<int>)
    requires Sim(p, s, i) && I.IsOpen(i) && key in i.keys && i.keys[key].usage == T.SIGN_VERIFY
    requires key in s.keys.parents && Consistent(s.keys) && s.keys.parents[key].latest == |i.keys[key].entries|
    requires version.Some? ==> 1 <= version.value <= |i.keys[key].entries|
    ensures Decode(signature).Some? ==>
              var n, b := |i.keys[key].entries|, Decode(signature).value;
              T.MatchLast(s, key, digest, b, if version.Some? then [version.value] else ListVersions(s.keys, key))
              == if version.Some? then if I.Accepts(i, key, digest, b, version.value) then version else None
                 else I.Newest(i, key, digest, b, n)
  {
    hide Sim, Decode, T.Accepts, I.Accepts;
    if Decode(signature).Some? {
      var n, b := |i.keys[key].entries|, Decode(signature).value;
      if version.Some? {
        AcceptsMatches(p, s, i, key, digest, b, version.value);
        assert [version.value][..0] == [];
      } else {
        ListIsContiguous(s.keys, key);
        LoopMatches(p, s, i, key, digest, b, n);
      }
    }
  }
}
