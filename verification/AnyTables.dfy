/** The answers on tables of any content, as an intruder may leave them: what opens is used,
    and what does not open under exactly its own associated data is refused as tampered. */
module AnyTables {
  import opened Text
  import opened Base64
  import opened Crypto
  import opened TransitToken
  import opened KvPaths
  import opened Aad
  import opened VersionedTables
  import opened World
  import AuditChain
  import Machine
  import T = TransitEngine

  /** The columns are a sealed box, in base64, under this key and associated data. */
  predicate OpensTo(ledger: Ledger, key: Bytes, columns: Columns, aad: string, data: Bytes) {
    var nonce, ciphertext, tag := Decode(columns.nonce), Decode(columns.ciphertext), Decode(columns.tag);
    && |key| == 32 && nonce.Some? && ciphertext.Some? && tag.Some? && |nonce.value| == 12 && |tag.value| == 16
    && var box := Sealed(key, nonce.value, ciphertext.value + tag.value, aad);
    && box in ledger && ledger[box] == data
  }

  lemma OpensMeans(ledger: Ledger, key: Bytes, columns: Columns, aad: string, data: Bytes)
    ensures OpensTo(ledger, key, columns, aad, data) <==> OpenColumns(ledger, key, columns, aad) == Plain(data)
  {
    hide Decode;
  }

  // ------------------------------------------------------------------------ records

  /** The row a read looks up: the version asked for, or the newest. */
  function Wanted(s: Sys, op: Op): (int, int)
    requires op.KvRead? && (op.user, op.path) in s.kv.parents
  {
    var parent := s.kv.parents[(op.user, op.path)];
    (parent.id, if op.version.Some? then op.version.value else parent.latest)
  }

  /** The row opens, under its owner, path and version, to this JSON object. */
  predicate ReadsAs(p: Prims, s: Sys, op: Op, data: Bytes)
    requires op.KvRead? && (op.user, op.path) in s.kv.parents && Wanted(s, op) in s.kv.rows && s.vault.dek.Some?
  {
    && OpensTo(s.ledger, s.vault.dek.value, s.kv.rows[Wanted(s, op)].columns,
               "kv:" + op.user + ":" + op.path + ":v" + DecimalInt(Wanted(s, op).1), data)
    && p.isObject(data)
  }

  lemma KvText(owner: string, path: string, version: int)
    ensures KvAad(owner, path, version) == "kv:" + owner + ":" + path + ":v" + DecimalInt(version)
  {
    hide KvAad, DecimalInt;
    AadTexts(owner, path, "", "", None, version);
  }

  /** Reading, on any tables: after the refusals of the path, the version and the vault, a
      missing row is not found, a row that opens to an object is given with its version, and
      every other row is refused as tampered. */
  lemma ReadOnAnyTables(p: Prims, s: Sys, op: Op)
    requires op.KvRead?
    ensures var answer, key := Machine.Step(p, s, op).1, (op.user, op.path);
            if !Owns(op.user, op.path) then answer == Failed(PermissionDenied)
            else if op.version.Some? && op.version.value < 1 then answer == Failed(InvalidVersion)
            else if s.vault.dek.None? then answer == Failed(VaultLocked)
            else if key !in s.kv.parents || Wanted(s, op) !in s.kv.rows then answer == Failed(RecordNotFound)
            else
              && (forall data :: ReadsAs(p, s, op, data) ==>
                    answer == Value(data, Wanted(s, op).1, s.kv.parents[key].latest, s.kv.rows[Wanted(s, op)].created))
              && ((forall data :: !ReadsAs(p, s, op, data)) ==> answer == Failed(RecordTampered))
  {
    hide Owns, Authorized, KvAad, OpenColumns, OpensTo, DecimalInt, AuditChain.Append, AuditChain.DeniedCall;
    AuthorizedMeans(op.user, op.path);
    if s.vault.dek.Some? && (op.user, op.path) in s.kv.parents && Wanted(s, op) in s.kv.rows {
      var row, version := s.kv.rows[Wanted(s, op)], Wanted(s, op).1;
      KvText(op.user, op.path, version);
      forall data
        ensures OpensTo(s.ledger, s.vault.dek.value, row.columns, KvAad(op.user, op.path, version), data)
           <==> OpenColumns(s.ledger, s.vault.dek.value, row.columns, KvAad(op.user, op.path, version)) == Plain(data)
      {
        OpensMeans(s.ledger, s.vault.dek.value, row.columns, KvAad(op.user, op.path, version), data);
      }
      var found := OpenColumns(s.ledger, s.vault.dek.value, row.columns, KvAad(op.user, op.path, version));
      assert found.Plain? && p.isObject(found.plaintext) ==> ReadsAs(p, s, op, found.plaintext);
    }
  }

  // --------------------------------------------------------------------------- keys

  /** The key's row of this version opens, under the key's owner, name, usage and algorithm
      and the version, to this material. */
  predicate UnwrapsTo(s: Sys, key: Key, version: int, material: Bytes)
    requires key in s.keys.parents && s.vault.dek.Some?
  {
    var row := s.keys.parents[key];
    && (row.id, version) in s.keys.rows
    && OpensTo(s.ledger, s.vault.dek.value, s.keys.rows[(row.id, version)].material.columns,
               "transit-key:" + key.0 + ":" + key.1 + ":" + row.meta.usage + ":"
               + (if row.meta.algorithm == None || row.meta.algorithm == Some("") then "-"
                  else row.meta.algorithm.value)
               + ":v" + DecimalInt(version), material)
  }

  /** A key version, on any tables: missing, tampered, or the material it opens to. */
  lemma UnwrapOnAnyTables(s: Sys, key: Key, version: int)
    requires key in s.keys.parents && s.vault.dek.Some?
    ensures T.Unwrap(s, key, version) == T.Err(KeyVersionUnavailable)
       <==> (s.keys.parents[key].id, version) !in s.keys.rows
    ensures forall material :: T.Unwrap(s, key, version) == T.Ok(material) <==> UnwrapsTo(s, key, version, material)
    ensures T.Unwrap(s, key, version).Err? ==>
              T.Unwrap(s, key, version).error in {KeyVersionUnavailable, TransitTampered}
  {
    hide KeyAad, OpenColumns, OpensTo, DecimalInt;
    var row := s.keys.parents[key];
    AadTexts(key.0, "", key.1, row.meta.usage, row.meta.algorithm, version);
    if (row.id, version) in s.keys.rows {
      var columns := s.keys.rows[(row.id, version)].material.columns;
      var aad := KeyAad(key.0, key.1, row.meta.usage, row.meta.algorithm, version);
      forall material
        ensures OpensTo(s.ledger, s.vault.dek.value, columns, aad, material)
           <==> OpenColumns(s.ledger, s.vault.dek.value, columns, aad) == Plain(material)
      {
        OpensMeans(s.ledger, s.vault.dek.value, columns, aad, material);
      }
    }
  }

  /** The caller may use the key of this name for this. */
  predicate MayUse(s: Sys, user: string, name: string, usage: string) {
    && IsName(name) && (user, name) in s.keys.parents && s.keys.parents[(user, name)].meta.usage == usage
    && s.vault.dek.Some?
  }

  /** The token's bytes are a sealed box under this material. */
  predicate TokenOpens(s: Sys, user: string, t: Token, material: Bytes, data: Bytes) {
    && |material| == 32 && |t.blob.nonce| == 12 && |t.blob.tag| == 16
    && var box := Sealed(material, t.blob.nonce, t.blob.ciphertext + t.blob.tag,
                         "transit-data:" + user + ":" + t.name + ":v" + DecimalInt(t.version));
    && box in s.ledger && s.ledger[box] == data
  }

  /** Decryption, on any tables, for a caller who may use the key: a missing version, a row
      that does not unwrap, and a ciphertext that does not open are refused, each as what it
      is, and everything else is opened. */
  lemma DecryptOnAnyTables(p: Prims, s: Sys, op: Op, t: Token)
    requires op.DecryptData? && Parse(op.token) == Some(t) && MayUse(s, op.user, t.name, "ENCRYPT_DECRYPT")
    ensures var answer, key := Machine.Step(p, s, op).1, (op.user, t.name);
            if (s.keys.parents[key].id, t.version) !in s.keys.rows then answer == Failed(KeyVersionUnavailable)
            else
              && (forall material, data :: UnwrapsTo(s, key, t.version, material)
                                           && TokenOpens(s, op.user, t, material, data) ==>
                    answer == Decrypted(t.name, t.version, Encode(data)))
              && ((forall material, data :: !(UnwrapsTo(s, key, t.version, material)
                                              && TokenOpens(s, op.user, t, material, data))) ==>
                    answer == Failed(TransitTampered))
  {
    hide Parse, ValidName, IsName, T.Unwrap, UnwrapsTo, DataAad, Encode, DecimalInt, AuditChain.Append,
      AuditChain.DeniedCall;
    var key := (op.user, t.name);
    NameMeans(t.name);
    UnwrapOnAnyTables(s, key, t.version);
    AadTexts(op.user, "", t.name, "", None, t.version);
    if T.Unwrap(s, key, t.version).Ok? {
      var material := T.Unwrap(s, key, t.version).value;
      assert UnwrapsTo(s, key, t.version, material);
      var found := Decrypt(s.ledger, material, t.blob, DataAad(op.user, t.name, t.version));
      assert found.Plain? ==> TokenOpens(s, op.user, t, material, found.plaintext);
    }
  }

  lemma FormatsAll(name: string, version: int)
    requires IsName(name) && version >= 1
    ensures forall blob :: Format(name, version, blob).Some?
  {
    hide Format, IsName;
    forall blob ensures Format(name, version, blob).Some? {
      FormatMeans(name, version, blob);
    }
  }

  lemma SigningNeedsAlgorithm(p: Prims, s: Sys, op: Op)
    ensures op.Sign? && (op.user, op.name) in s.keys.parents
            && T.SigningError(p, s, op.user, op.name, op.message, op.messageType, op.algorithm).None? ==>
              s.keys.parents[(op.user, op.name)].meta.algorithm.Some?
              && T.MessageDigest(p, op.message, op.messageType).Ok?
  {
    hide Decode, Upper, T.MessageDigest;
  }

  lemma EncryptUses(p: Prims, s: Sys, op: Op)
    requires op.EncryptData? && MayUse(s, op.user, op.name, "ENCRYPT_DECRYPT") && Decode(op.plaintext).Some?
    requires s.keys.parents[(op.user, op.name)].latest >= 1
    ensures var answer, latest := Machine.Step(p, s, op).1, s.keys.parents[(op.user, op.name)].latest;
            match T.Unwrap(s, (op.user, op.name), latest)
            case Err(error) => answer == Failed(error)
            case Ok(material) =>
              if |material| == 32 then answer.Encrypted? && answer.version == latest
              else answer == Failed(TransitTampered)
  {
    hide ValidName, IsName, T.Unwrap, DataAad, Decode, Format, AuditChain.Append, AuditChain.DeniedCall;
    NameMeans(op.name);
    FormatsAll(op.name, s.keys.parents[(op.user, op.name)].latest);
  }

  lemma SignUses(p: Prims, s: Sys, op: Op)
    requires op.Sign? && MayUse(s, op.user, op.name, "SIGN_VERIFY")
    requires T.SigningError(p, s, op.user, op.name, op.message, op.messageType, op.algorithm).None?
    ensures var answer, latest := Machine.Step(p, s, op).1, s.keys.parents[(op.user, op.name)].latest;
            match T.Unwrap(s, (op.user, op.name), latest)
            case Err(error) => answer == Failed(error)
            case Ok(material) =>
              if |material| == 32 then answer.Signed? && answer.version == latest
              else answer == Failed(TransitTampered)
  {
    hide ValidName, IsName, T.Unwrap, Encode, T.SigningError, T.MessageDigest, AuditChain.Append,
      AuditChain.DeniedCall;
    NameMeans(op.name);
    SigningNeedsAlgorithm(p, s, op);
  }

  lemma KeyIsThere(s: Sys, op: Op)
    requires op.EncryptData? || op.Sign?
    requires MayUse(s, op.user, op.name, "ENCRYPT_DECRYPT") || MayUse(s, op.user, op.name, "SIGN_VERIFY")
    ensures (op.user, op.name) in s.keys.parents && s.vault.dek.Some?
  {
    hide IsName;
  }

  /** Encryption and signing, on any tables, for a caller who may use the key and gives a
      proper payload: the newest version missing, its row not unwrapping to thirty-two bytes,
      or done. */
  lemma UseOnAnyTables(p: Prims, s: Sys, op: Op)
    requires (op.EncryptData? && MayUse(s, op.user, op.name, "ENCRYPT_DECRYPT") && Decode(op.plaintext).Some?)
          || (op.Sign? && MayUse(s, op.user, op.name, "SIGN_VERIFY")
              && T.SigningError(p, s, op.user, op.name, op.message, op.messageType, op.algorithm).None?)
    requires s.keys.parents[(op.user, op.name)].latest >= 1
    ensures var answer, key := Machine.Step(p, s, op).1, (op.user, op.name);
            var latest := s.keys.parents[key].latest;
            if (s.keys.parents[key].id, latest) !in s.keys.rows then answer == Failed(KeyVersionUnavailable)
            else if forall material :: !(UnwrapsTo(s, key, latest, material) && |material| == 32) then
              answer == Failed(TransitTampered)
            else (if op.Sign? then answer.Signed? else answer.Encrypted?) && answer.version == latest
  {
    hide Machine.Step, T.Unwrap, UnwrapsTo, T.SigningError, Decode, MayUse;
    KeyIsThere(s, op);
    UnwrapOnAnyTables(s, (op.user, op.name), s.keys.parents[(op.user, op.name)].latest);
    if op.Sign? {
      SignUses(p, s, op);
    } else {
      EncryptUses(p, s, op);
    }
  }

  /** The row of this version holds a public key, of thirty-two bytes in base64, that made
      this signature over this digest. */
  predicate KeyAccepts(s: Sys, key: Key, digest: Bytes, signature: Bytes, version: int)
    requires key in s.keys.parents
  {
    && (s.keys.parents[key].id, version) in s.keys.rows
    && var text := s.keys.rows[(s.keys.parents[key].id, version)].material.publicKey;
    && text.Some? && text.value != "" && Decode(text.value).Some? && |Decode(text.value).value| == 32
    && Signature(Decode(text.value).value, digest, signature) in s.signatures
  }

  /** Matching a signature, on any tables: the version found is the last candidate whose
      stored public key accepts, and there is none exactly when no candidate's does. */
  lemma {:induction false} MatchOnAnyTables(s: Sys, key: Key, digest: Bytes, signature: Bytes, candidates: seq<int>)
    requires key in s.keys.parents
    ensures var matched := T.MatchLast(s, key, digest, signature, candidates);
            if matched.None? then forall v :: v in candidates ==> !KeyAccepts(s, key, digest, signature, v)
            else exists k :: && 0 <= k < |candidates| && candidates[k] == matched.value
                             && KeyAccepts(s, key, digest, signature, candidates[k])
                             && forall j :: k < j < |candidates| ==>
                                  !KeyAccepts(s, key, digest, signature, candidates[j])
  {
    hide Decode;
    if candidates != [] {
      var n := |candidates| - 1;
      hide T.Accepts, KeyAccepts;
      AcceptsMeans(s, key, digest, signature, candidates[n]);
      assert candidates == candidates[..n] + [candidates[n]];
      if !KeyAccepts(s, key, digest, signature, candidates[n]) {
        MatchOnAnyTables(s, key, digest, signature, candidates[..n]);
      }
    }
  }

  lemma AcceptsMeans(s: Sys, key: Key, digest: Bytes, signature: Bytes, version: int)
    requires key in s.keys.parents
    ensures T.Accepts(s, key, digest, signature, version) <==> KeyAccepts(s, key, digest, signature, version)
  {
    hide Decode;
  }

  // ------------------------------------------------------------------ configuration

  /** The stored configuration is one the program writes, and its passphrase can be tried. */
  predicate Usable(p: Prims, config: Config, passphrase: string) {
    && config.version == 1 && config.kdf == "argon2id" && passphrase != ""
    && Decode(config.salt).Some? && |Decode(config.salt).value| >= 16
    && |p.deriveKey(passphrase, Decode(config.salt).value, config.params)| == 32
    && Decode(config.wrapped.nonce).Some? && |Decode(config.wrapped.nonce).value| == 12
    && Decode(config.wrapped.ciphertext).Some?
    && Decode(config.wrapped.tag).Some? && |Decode(config.wrapped.tag).value| == 16
  }

  /** The wrapped DEK opens to this under the passphrase. */
  predicate YieldsDek(p: Prims, s: Sys, config: Config, passphrase: string, dek: Bytes) {
    && Decode(config.salt).Some?
    && OpensTo(s.ledger, p.deriveKey(passphrase, Decode(config.salt).value, config.params), config.wrapped,
               "mini-vault:dek-wrap:v1", dek)
  }

  lemma WrappedOpens(ledger: Ledger, key: Bytes, columns: Columns, aad: string)
    ensures OpenColumns(ledger, key, columns, aad).ValueError?
       <==> !(&& |key| == 32 && Decode(columns.nonce).Some? && Decode(columns.ciphertext).Some?
              && Decode(columns.tag).Some? && |Decode(columns.nonce).value| == 12
              && |Decode(columns.tag).value| == 16)
    ensures forall data ::
              OpensTo(ledger, key, columns, aad, data) <==> OpenColumns(ledger, key, columns, aad) == Plain(data)
  {
    hide Decode;
  }

  /** Unlocking, on a configuration of any content: one the program would not have written is
      corrupted, one that does not open under the passphrase makes it wrong, one that opens to
      anything but thirty-two bytes is corrupted, and otherwise those bytes are the DEK.  The
      vault is locked after every refusal. */
  lemma UnlockOnAnyConfig(p: Prims, s: Sys, op: Op)
    requires op.Unlock? && s.vault.config.Some?
    ensures var (s', answer) := Machine.Step(p, s, op);
            var config := s.vault.config.value;
            && s' == s.(vault := s.vault.(dek := s'.vault.dek))
            && (s'.vault.dek.Some? <==> answer == Status(true, true))
            && if !Usable(p, config, op.passphrase) then answer == Failed(VaultConfigCorrupted)
               else if forall dek :: !YieldsDek(p, s, config, op.passphrase, dek) then
                 answer == Failed(InvalidMasterPassphrase)
               else
                 forall dek :: YieldsDek(p, s, config, op.passphrase, dek) ==>
                   if |dek| == 32 then s'.vault.dek == Some(dek) else answer == Failed(VaultConfigCorrupted)
  {
    hide Decode, OpenColumns, OpensTo;
    var config := s.vault.config.value;
    if Decode(config.salt).Some? {
      var key := p.deriveKey(op.passphrase, Decode(config.salt).value, config.params);
      WrappedOpens(s.ledger, key, config.wrapped, DEK_WRAP_AAD);
      var found := OpenColumns(s.ledger, key, config.wrapped, DEK_WRAP_AAD);
      assert found.Plain? ==> YieldsDek(p, s, config, op.passphrase, found.plaintext);
    }
  }
}
