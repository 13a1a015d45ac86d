/** The Transit service as the object it is: src/transit/service.py over its vault,
    repository and audit log. */
module TransitService {
  import opened Text
  import opened Base64
  import opened Crypto
  import opened TransitToken
  import opened Aad
  import opened VersionedTables
  import opened World
  import AuditChain
  import AuditRepository
  import KeyStore
  import VaultState
  import T = TransitEngine

  /** `reversed(...)`. */
  function Reversed(s: seq<int>): (r: seq<int>)
    ensures |r| == |s| && forall k :: 0 <= k < |s| ==> r[k] == s[|s| - 1 - k]
  {
    if s == [] then [] else [s[|s| - 1]] + Reversed(s[..|s| - 1])
  }

  class Service {
    const p: Prims
    const vault: VaultState.Service
    const keys: KeyStore.NamedKeyRepository
    const audit: AuditRepository.Repository

    ghost predicate Valid()
      reads vault, vault.state, vault.state.buffers, vault.state.handed.Keys
    {
      vault.Valid() && audit.h == p.entryHash
    }

    /** A server state with this service's own objects in their places; `s` supplies what
        they do not hold. */
    ghost function View(s: Sys): Sys
      reads vault, vault.state, vault.state.dek, keys, audit
    {
      s.(vault := vault.View(), keys := keys.State(), audit := audit.State())
    }

    constructor (vault: VaultState.Service, keys: KeyStore.NamedKeyRepository, audit: AuditRepository.Repository)
      requires vault.Valid() && audit.h == vault.p.entryHash
      ensures Valid() && this.vault == vault && this.keys == keys && this.audit == audit && p == vault.p
    {
      this.p, this.vault, this.keys, this.audit := vault.p, vault, keys, audit;
    }

    /** `_owned_key`: a missing or foreign key is written to the audit log, a bad name is not. */
    method OwnedKey(user: string, name: string, now: string) returns (error: Option<Error>)
      requires Valid()
      modifies audit
      ensures Valid()
      ensures forall s :: error == T.OwnedError(old(View(s)), user, name)
      ensures audit.State() == if error == Some(KeyUnavailable) then
                                 AuditChain.Append(p.entryHash, old(audit.State()),
                                                   AuditChain.Call(Some(user), "ACCESS_DENIED", "named_key",
                                                                   name, "DENIED", now))
                               else old(audit.State())
    {
      hide ValidName, AuditChain.Append;
      if !ValidName(name) {
        return Some(InvalidKeyName);
      }
      if (user, name) !in keys.keys {
        audit.DeniedAccess(user, "named_key", name, now);
        return Some(KeyUnavailable);
      }
      return None;
    }

    /** The loop of `verify`: try the candidates newest first, stop at the first key that
        accepts. */
    method MatchNewest(signatures: set<Signature>, key: Key, digest: Bytes, signature: Bytes, versions: seq<int>,
                       ghost s: Sys) returns (matched: Option<int>)
      requires s.keys == keys.State() && s.signatures == signatures && key in keys.keys
      ensures matched == T.MatchLast(s, key, digest, signature, versions)
    {
      var candidates := Reversed(versions);
      matched := None;
      var i := 0;
      assert versions[..|versions|] == versions;
      while i < |candidates|
        invariant 0 <= i <= |candidates| && matched == None
        invariant T.MatchLast(s, key, digest, signature, versions)
               == T.MatchLast(s, key, digest, signature, versions[..|versions| - i])
      {
        hide Decode;
        var row := (keys.keys[key].id, candidates[i]);
        var left := versions[..|versions| - i];
        assert left[|left| - 1] == candidates[i] && left[..|left| - 1] == versions[..|versions| - (i + 1)];
        if row in keys.versions {
          var public := keys.versions[row].material.publicKey;
          if public.Some? && public.value != "" {
            var bytes := Decode(public.value);
            if bytes.Some? && |bytes.value| == 32 && Signature(bytes.value, digest, signature) in signatures {
              return Some(candidates[i]);
            }
          }
        }
        i := i + 1;
      }
    }

    method VerifySignature(ledger: Ledger, signatures: set<Signature>, ghost s: Sys,
                           user: string, name: string, message: string, messageType: string, signature: string,
                           algorithm: string, version: Option<int>, now: string) returns (resp: Resp)
      requires Valid() && s.ledger == ledger && s.signatures == signatures
      modifies vault.state`handed, audit
      ensures Valid()
      ensures (View(s), resp)
           == T.Verify(p, old(View(s)), user, name, message, messageType, signature, algorithm,
                       version, now)
    {
      hide ValidName, AuditChain.Append, AuditChain.DeniedCall, Decode, Upper, T.MessageDigest, ListVersions,
        T.MatchLast;
      var error := OwnedKey(user, name, now);
      AuditChain.DeniedIs(user, "named_key", name, now);
      assert error == T.OwnedError(old(View(s)), user, name);
      if error.Some? {
        return Failed(error.value);
      }
      var row := keys.keys[(user, name)];
      if row.meta.usage != T.SIGN_VERIFY {
        return Failed(InvalidKeyUsage);
      }
      if Some(Upper(algorithm)) != row.meta.algorithm {
        return Failed(InvalidSigningAlgorithm);
      }
      var dek := vault.state.GetDek();
      if dek == null {
        return Failed(VaultLocked);
      }
      var digest := T.MessageDigest(p, message, messageType);
      if digest.Err? {
        return Failed(digest.error);
      }
      var candidates;
      if version.Some? {
        if (row.id, version.value) !in keys.versions {
          return Failed(KeyVersionUnavailable);
        }
        candidates := [version.value];
      } else {
        candidates := ListVersions(keys.State(), (user, name));
      }
      var bytes := Decode(signature);
      var matched := None;
      if bytes.Some? {
        matched := MatchNewest(signatures, (user, name), digest.value, bytes.value, candidates, View(s));
      }
      return Verified(name, matched, row.meta.algorithm.value, matched.Some?);
    }

    /** `_key_version` and `_unwrap`. */
    method Unwrap(ledger: Ledger, dek: Bytes, key: Key, version: int, ghost s: Sys) returns (r: T.Try<Bytes>)
      requires s.keys == keys.State() && s.ledger == ledger && s.vault.dek == Some(dek) && key in keys.keys
      ensures r == T.Unwrap(s, key, version)
    {
      hide KeyAad, OpenColumns;
      var row := keys.keys[key];
      if (row.id, version) !in keys.versions {
        return T.Err(KeyVersionUnavailable);
      }
      var plain := OpenColumns(ledger, dek, keys.versions[(row.id, version)].material.columns,
                               KeyAad(key.0, key.1, row.meta.usage, row.meta.algorithm, version));
      return if plain.Plain? then T.Ok(plain.plaintext) else T.Err(TransitTampered);
    }

    /** Both creations: the key row is refused before anything is wrapped. */
    method Install(ledger: Ledger, ghost s: Sys, dek: Bytes,
                   user: string, name: string, usage: string, now: string, mint: Mint)
      returns (after: Ledger, ghost minted: map<Bytes, Holder>, resp: Resp)
      requires Valid() && s.ledger == ledger && vault.View().dek == Some(dek)
      modifies keys
      ensures Valid()
      ensures (View(s.(ledger := after, minted := minted)), resp)
           == T.Install(p, old(View(s)), user, name, usage, now, mint)
    {
      hide T.WrapFor, ListVersions;
      var ending := keys.CreateKey((user, name), usage, T.AlgorithmOf(usage), now,
                                   version => T.WrapFor(p, ledger, dek, (user, name), usage, mint, version));
      ghost var wrapped := s.minted[mint.material := Holder(user, usage)];  // once the material is wrapped
      match ending
      case NotWrapped => return ledger, s.minted, Failed(KeyAlreadyExists);
      case Raised => return ledger, s.minted, Failed(Internal);
      case Violated(sealed) => return sealed, wrapped, Failed(KeyAlreadyExists);
      case Stored(sealed) =>
        assert (user, name) in keys.keys;  // the row just created can be read back
        return sealed, wrapped, KeyInfo(T.InfoOf(keys.State(), (user, name)));
    }

    method CreateKey(ledger: Ledger, ghost s: Sys,
                     user: string, name: string, now: string, mint: Mint) returns (after: Ledger,
                         ghost minted: map<Bytes, Holder>, resp: Resp)
      requires Valid() && s.ledger == ledger
      modifies vault.state`handed, keys
      ensures Valid()
      ensures (View(s.(ledger := after, minted := minted)), resp)
           == T.Create(p, old(View(s)), user, name, now, mint)
    {
      hide ValidName, T.Install;
      if !ValidName(name) {
        return ledger, s.minted, Failed(InvalidKeyName);
      }
      var dek := vault.state.GetDek();
      if dek == null {
        return ledger, s.minted, Failed(VaultLocked);
      }
      after, minted, resp := Install(ledger, s, dek[..], user, name, T.ENCRYPT_DECRYPT, now, mint);
    }

    method CreateSigningKey(ledger: Ledger, ghost s: Sys,
                            user: string, name: string, algorithm: string, now: string, mint: Mint)
      returns (after: Ledger, ghost minted: map<Bytes, Holder>, resp: Resp)
      requires Valid() && s.ledger == ledger
      modifies vault.state`handed, keys
      ensures Valid()
      ensures (View(s.(ledger := after, minted := minted)), resp)
           == T.CreateSigning(p, old(View(s)), user, name, algorithm, now, mint)
    {
      hide ValidName, Upper, T.Install;
      if !ValidName(name) {
        return ledger, s.minted, Failed(InvalidKeyName);
      }
      if Upper(algorithm) != T.ED25519 {
        return ledger, s.minted, Failed(InvalidSigningAlgorithm);
      }
      var dek := vault.state.GetDek();
      if dek == null {
        return ledger, s.minted, Failed(VaultLocked);
      }
      after, minted, resp := Install(ledger, s, dek[..], user, name, T.SIGN_VERIFY, now, mint);
    }

    method RotateKey(ledger: Ledger, ghost s: Sys,
                     user: string, name: string, now: string, mint: Mint) returns (after: Ledger,
                         ghost minted: map<Bytes, Holder>, resp: Resp)
      requires Valid() && s.ledger == ledger
      modifies vault.state`handed, keys, audit
      ensures Valid()
      ensures (View(s.(ledger := after, minted := minted)), resp)
           == T.Rotate(p, old(View(s)), user, name, now, mint)
    {
      hide ValidName, AuditChain.Append, AuditChain.DeniedCall, T.WrapFor, ListVersions;
      after := ledger;
      var error := OwnedKey(user, name, now);
      AuditChain.DeniedIs(user, "named_key", name, now);
      assert error == T.OwnedError(old(View(s)), user, name);
      if error.Some? {
        return after, s.minted, Failed(error.value);
      }
      var copy := vault.state.GetDek();
      if copy == null {
        return after, s.minted, Failed(VaultLocked);
      }
      var dek := copy[..];
      var usage := T.RotatedUsage(keys.State(), (user, name));
      var ending := keys.RotateKey((user, name), now,
                                   version => T.WrapFor(p, ledger, dek, (user, name), usage, mint, version));
      ghost var wrapped := s.minted[mint.material := Holder(user, usage)];
      match ending
      case NotWrapped => assert false;
      case Raised => return ledger, s.minted, Failed(Internal);
      case Violated(sealed) => return sealed, wrapped, Failed(Internal);
      case Stored(sealed) =>
        assert (user, name) in keys.keys;
        return sealed, wrapped, KeyInfo(T.InfoOf(keys.State(), (user, name)));
    }

    method DeleteKey(ghost s: Sys,
                     user: string, name: string, now: string) returns (resp: Resp)
      requires Valid()
      modifies vault.state`handed, keys, audit
      ensures Valid()
      ensures (View(s), resp) == T.Delete(p, old(View(s)), user, name, now)
    {
      hide ValidName, AuditChain.Append, AuditChain.DeniedCall, Remove;
      var error := OwnedKey(user, name, now);
      AuditChain.DeniedIs(user, "named_key", name, now);
      assert error == T.OwnedError(old(View(s)), user, name);
      if error.Some? {
        return Failed(error.value);
      }
      var dek := vault.state.GetDek();
      if dek == null {
        return Failed(VaultLocked);
      }
      var deleted := keys.DeleteKey((user, name));
      assert deleted;
      return Deleted;
    }

    method EncryptData(ledger: Ledger, ghost s: Sys,
                       user: string, name: string, text: string, now: string, draw: Draw)
      returns (after: Ledger, resp: Resp)
      requires Valid() && s.ledger == ledger
      modifies vault.state`handed, audit
      ensures Valid()
      ensures (View(s.(ledger := after)), resp)
           == T.EncryptData(p, old(View(s)), user, name, text, now, draw)
    {
      hide ValidName, AuditChain.Append, AuditChain.DeniedCall, T.Unwrap, Format, DataAad, Decode;
      after := ledger;
      var error := OwnedKey(user, name, now);
      AuditChain.DeniedIs(user, "named_key", name, now);
      assert error == T.OwnedError(old(View(s)), user, name);
      if error.Some? {
        return after, Failed(error.value);
      }
      var row := keys.keys[(user, name)];
      if row.meta.usage != T.ENCRYPT_DECRYPT {
        return after, Failed(InvalidKeyUsage);
      }
      var dek := vault.state.GetDek();
      if dek == null {
        return after, Failed(VaultLocked);
      }
      var plaintext := T.DecodePayload(text);
      if plaintext.Err? {
        return after, Failed(plaintext.error);
      }
      var material := Unwrap(ledger, dek[..], (user, name), row.latest, View(s));
      if material.Err? {
        return after, Failed(material.error);
      }
      if |material.value| != 32 {
        return after, Failed(TransitTampered);
      }
      var sealed := Encrypt(ledger, material.value, plaintext.value, DataAad(user, name, row.latest), draw);
      after := sealed.value.0;
      var token := Format(name, row.latest, sealed.value.1);
      return after, if token.Some? then Encrypted(name, row.latest, token.value) else Failed(Internal);
    }

    method DecryptData(ledger: Ledger, ghost s: Sys,
                       user: string, text: string, now: string) returns (resp: Resp)
      requires Valid() && s.ledger == ledger
      modifies vault.state`handed, audit
      ensures Valid()
      ensures (View(s), resp)
           == T.DecryptData(p, old(View(s)), user, text, now)
    {
      hide ValidName, AuditChain.Append, AuditChain.DeniedCall, T.Unwrap, Parse, DataAad, Encode, Decrypt;
      var parsed := Parse(text);
      if parsed.None? {
        return Failed(MalformedCiphertext);
      }
      var token := parsed.value;
      var error := OwnedKey(user, token.name, now);
      AuditChain.DeniedIs(user, "named_key", token.name, now);
      assert error == T.OwnedError(old(View(s)), user, token.name);
      if error.Some? {
        return Failed(error.value);
      }
      if keys.keys[(user, token.name)].meta.usage != T.ENCRYPT_DECRYPT {
        return Failed(InvalidKeyUsage);
      }
      var dek := vault.state.GetDek();
      if dek == null {
        return Failed(VaultLocked);
      }
      var material := Unwrap(ledger, dek[..], (user, token.name), token.version, View(s));
      if material.Err? {
        return Failed(material.error);
      }
      var plain := Decrypt(ledger, material.value, token.blob, DataAad(user, token.name, token.version));
      if !plain.Plain? {
        return Failed(TransitTampered);
      }
      return Decrypted(token.name, token.version, Encode(plain.plaintext));
    }

    method ListKeys(ghost s: Sys, user: string)
      returns (resp: Resp)
      requires Valid()
      modifies vault.state`handed
      ensures Valid()
      ensures (View(s), resp) == T.List(old(View(s)), user)
    {
      hide T.InfosOf;
      var dek := vault.state.GetDek();
      if dek == null {
        return Failed(VaultLocked);
      }
      return KeyList(T.InfosOf(keys.State(), user));
    }

    method Sign(ledger: Ledger, signatures: set<Signature>, ghost s: Sys, user: string, name: string,
                message: string, messageType: string, algorithm: string, now: string, signed: Bytes)
      returns (after: set<Signature>, resp: Resp)
      requires Valid() && s.ledger == ledger && s.signatures == signatures
      modifies vault.state`handed, audit
      ensures Valid()
      ensures (View(s.(signatures := after)), resp)
           == T.Sign(p, old(View(s)), user, name, message, messageType, algorithm, now, signed)
    {
      hide ValidName, AuditChain.Append, AuditChain.DeniedCall, T.Unwrap, Encode, Upper, T.MessageDigest;
      after := signatures;
      var error := OwnedKey(user, name, now);
      AuditChain.DeniedIs(user, "named_key", name, now);
      assert error == T.OwnedError(old(View(s)), user, name);
      if error.Some? {
        return after, Failed(error.value);
      }
      var row := keys.keys[(user, name)];
      if row.meta.usage != T.SIGN_VERIFY {
        return after, Failed(InvalidKeyUsage);
      }
      if Some(Upper(algorithm)) != row.meta.algorithm {
        return after, Failed(InvalidSigningAlgorithm);
      }
      var dek := vault.state.GetDek();
      if dek == null {
        return after, Failed(VaultLocked);
      }
      var digest := T.MessageDigest(p, message, messageType);
      if digest.Err? {
        return after, Failed(digest.error);
      }
      var private := Unwrap(ledger, dek[..], (user, name), row.latest, View(s));
      if private.Err? {
        return after, Failed(private.error);
      }
      if |private.value| != 32 {
        return after, Failed(TransitTampered);
      }
      after := signatures + {Signature(p.publicKey(private.value), digest.value, signed)};
      return after, Signed(name, row.latest, row.meta.algorithm.value, Encode(signed));
    }
  }
}
