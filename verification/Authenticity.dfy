/** What stored data can never be made to say.  Between any two requests an intruder may
    replace the key-value tables, the named-key tables and the audit log by anything at
    all, and may run AES-GCM itself under keys of its own.  Out of its reach are the
    running process, the stored vault configuration and the server's keys. */
module Authenticity {
  import opened Text
  import opened Base64
  import opened Crypto
  import opened TransitToken
  import opened KvPaths
  import opened Aad
  import opened VersionedTables
  import opened KvStore
  import opened Passphrase
  import opened World
  import AuditChain
  import KeyStore
  import VaultEngine
  import Machine
  import T = TransitEngine

  datatype Event =
    | Request(op: Op)
    | Tamper(kv: KvTables, keys: KeyStore.KeyTables, audit: AuditChain.Log)
    | OwnSeal(box: Sealed, plaintext: Bytes)  // the intruder's own encryption

  function Apply(p: Prims, s: Sys, e: Event): Sys {
    match e
    case Request(op) => Machine.Step(p, s, op).0
    case Tamper(kv, keys, audit) => s.(kv := kv, keys := keys, audit := audit)
    case OwnSeal(box, plaintext) => s.(ledger := s.ledger[box := plaintext])
  }

  function Run(p: Prims, events: seq<Event>): Sys {
    if events == [] then START else Apply(p, Run(p, events[..|events| - 1]), events[|events| - 1])
  }

  /** The intruder's box is under a key that is not the DEK or key material of the request,
      and under another nonce than the one the request draws. */
  predicate Foreign(box: Sealed, op: Op) {
    && (DrawOf(op).Some? ==> box.nonce != DrawOf(op).value.nonce)
    && (op.Initialize? ==> box.key != op.dek)
    && (MintsKey(op) ==> box.key != op.mint.material)
  }

  /** The intruder never encrypts under a DEK or key material of the server. */
  ghost predicate KeepsSecrets(events: seq<Event>) {
    forall i, k :: 0 <= i < |events| && 0 <= k < |events| && events[i].OwnSeal? && events[k].Request? ==>
      Foreign(events[i].box, events[k].op)
  }

  lemma PrefixKeepsSecrets(events: seq<Event>, n: nat)
    requires KeepsSecrets(events) && n <= |events|
    ensures KeepsSecrets(events[..n])
  {
    hide Foreign;
  }

  // -------------------------------------------------------- what requests ever seal

  /** A request given this answer sealed `data` under `aad`.  An internal error comes
      after sealing when a tampered table refuses the new row. */
  predicate Seals(p: Prims, s: Sys, op: Op, answer: Resp, aad: string, data: Bytes) {
    match op
    case Initialize(_, _, _, dek, _) => answer.Status? && aad == DEK_WRAP_AAD && data == dek
    case KvWrite(user, path, value, _, _) =>
      var version := NextVersion(s.kv, (user, path));
      && Authorized(user, path) && aad == KvAad(user, path, version) && data == value
      && (answer == Failed(Internal) || (answer.Written? && answer.version == version))
    case CreateKey(user, name, _, mint) =>
      && ValidName(name) && aad == KeyAad(user, name, T.ENCRYPT_DECRYPT, None, 1) && data == mint.material
      && (answer == Failed(KeyAlreadyExists) || answer.KeyInfo?)
    case CreateSigningKey(user, name, _, _, mint) =>
      && ValidName(name) && aad == KeyAad(user, name, T.SIGN_VERIFY, Some(T.ED25519), 1) && data == mint.material
      && (answer == Failed(KeyAlreadyExists) || answer.KeyInfo?)
    case RotateKey(user, name, _, mint) =>
      var usage := T.RotatedUsage(s.keys, (user, name));
      && ValidName(name) && data == mint.material
      && aad == KeyAad(user, name, usage, T.AlgorithmOf(usage), NextVersion(s.keys, (user, name)))
      && (answer == Failed(Internal) || answer.KeyInfo?)
    case EncryptData(user, name, text, _, _) =>
      && ValidName(name) && (user, name) in s.keys.parents
      && var version := s.keys.parents[(user, name)].latest;
      && aad == DataAad(user, name, version) && Decode(text) == Some(data)
      && (answer == Failed(Internal) || (answer.Encrypted? && answer.version == version))
    case _ => false
  }

  /** Everything in the ledger was there before, or this request sealed it. */
  ghost predicate Accounted(p: Prims, s: Sys, op: Op, after: (Sys, Resp)) {
    forall box :: box in after.0.ledger ==>
      || (box in s.ledger && after.0.ledger[box] == s.ledger[box])
      || Seals(p, s, op, after.1, box.aad, after.0.ledger[box])
  }

  lemma InstallSeals(p: Prims, s: Sys, op: Op, usage: string)
    requires (op.CreateKey? && usage == T.ENCRYPT_DECRYPT) || (op.CreateSigningKey? && usage == T.SIGN_VERIFY)
    requires s.vault.dek.Some? && ValidName(op.name)
    ensures Accounted(p, s, op, T.Install(p, s, op.user, op.name, usage, op.now, op.mint))
  {
    hide KeyAad, Put, T.InfoOf, Encode, ValidName;
    CreatedIsThere(s.keys, (op.user, op.name), usage, T.AlgorithmOf(usage), op.now);
  }

  lemma CreatedIsThere(t: KeyStore.KeyTables, key: Key, usage: string, algorithm: Option<string>, now: string)
    ensures forall m :: KeyStore.Create(t, key, usage, algorithm, now, m).Some? ==>
              key in KeyStore.Create(t, key, usage, algorithm, now, m).value.parents
    ensures forall m :: KeyStore.Rotate(t, key, now, m).Rotated? ==>
              key in KeyStore.Rotate(t, key, now, m).tables.parents
  {
  }

  lemma CreateSeals(p: Prims, s: Sys, op: Op)
    requires op.CreateKey? || op.CreateSigningKey?
    ensures Accounted(p, s, op, Machine.Step(p, s, op))
  {
    hide T.Install, ValidName, KeyAad, Upper;
    if s.vault.dek.Some? && ValidName(op.name) {
      InstallSeals(p, s, op, if op.CreateKey? then T.ENCRYPT_DECRYPT else T.SIGN_VERIFY);
    }
  }

  lemma RotateSeals(p: Prims, s: Sys, op: Op)
    requires op.RotateKey?
    ensures Accounted(p, s, op, Machine.Step(p, s, op))
  {
    hide KeyAad, KeyStore.Rotate, T.InfoOf, Encode, ValidName, AuditChain.Append, AuditChain.DeniedCall;
    CreatedIsThere(s.keys, (op.user, op.name), "", None, op.now);
  }

  lemma WriteSeals(p: Prims, s: Sys, op: Op)
    requires op.KvWrite?
    ensures Accounted(p, s, op, Machine.Step(p, s, op))
  {
    hide KvAad, Authorized, Encode, AuditChain.Append, AuditChain.DeniedCall;
  }

  lemma EncryptSeals(p: Prims, s: Sys, op: Op)
    requires op.EncryptData?
    ensures Accounted(p, s, op, Machine.Step(p, s, op))
  {
    hide DataAad, ValidName, T.Unwrap, Decode, Format, AuditChain.Append, AuditChain.DeniedCall;
  }

  lemma InitializeSeals(p: Prims, s: Sys, op: Op)
    requires op.Initialize?
    ensures Accounted(p, s, op, Machine.Step(p, s, op))
  {
    hide Encode, VaultEngine.WrappingKey;
  }

  predicate Sealing(op: Op) {
    op.Initialize? || op.KvWrite? || op.CreateKey? || op.CreateSigningKey? || op.RotateKey? || op.EncryptData?
  }

  lemma OthersSealNothing(p: Prims, s: Sys, op: Op)
    requires !Sealing(op)
    ensures Machine.Step(p, s, op).0.ledger == s.ledger
  {
    hide VaultEngine.Unlock, VaultEngine.Lock, AuditChain.Append, AuditChain.DeniedCall, T.OwnedError, T.SigningError,
      T.Unwrap, T.MessageDigest, Decrypt, OpenColumns, Decode, Encode, Parse, Upper, Authorized;
  }

  lemma StepAccounted(p: Prims, s: Sys, op: Op)
    ensures Accounted(p, s, op, Machine.Step(p, s, op))
  {
    hide Machine.Step, Seals;
    if op.KvWrite? {
      WriteSeals(p, s, op);
    } else if op.CreateKey? || op.CreateSigningKey? {
      CreateSeals(p, s, op);
    } else if op.RotateKey? {
      RotateSeals(p, s, op);
    } else if op.EncryptData? {
      EncryptSeals(p, s, op);
    } else if op.Initialize? {
      InitializeSeals(p, s, op);
    } else {
      OthersSealNothing(p, s, op);
    }
  }

  // -------------------------------------------------------------- over a whole run

  /** Request `j` of the run sealed `data` under `aad`. */
  predicate SealedAt(p: Prims, events: seq<Event>, j: nat, aad: string, data: Bytes) {
    && j < |events| && events[j].Request?
    && Seals(p, Run(p, events[..j]), events[j].op, AnswerAt(p, events, j), aad, data)
  }

  function AnswerAt(p: Prims, events: seq<Event>, j: nat): Resp
    requires j < |events| && events[j].Request?
  {
    Machine.Step(p, Run(p, events[..j]), events[j].op).1
  }

  /** Event `i` of the run is the intruder sealing this very box. */
  predicate OwnSealedAt(events: seq<Event>, i: nat, box: Sealed) {
    i < |events| && events[i].OwnSeal? && events[i].box == box
  }

  /** Provenance: every box in the ledger was sealed by some request of the run, or by the
      intruder itself. */
  lemma {:induction false} LedgerHasProvenance(p: Prims, events: seq<Event>, box: Sealed)
    requires box in Run(p, events).ledger
    ensures (exists j: nat :: SealedAt(p, events, j, box.aad, Run(p, events).ledger[box]))
         || exists i: nat :: OwnSealedAt(events, i, box)
  {
    hide Machine.Step, Seals;
    if events != [] {
      var n := |events| - 1;
      var before, data := Run(p, events[..n]), Run(p, events).ledger[box];
      if events[n].Request? {
        StepAccounted(p, before, events[n].op);
      }
      if box in before.ledger && before.ledger[box] == data {
        LedgerHasProvenance(p, events[..n], box);
        if j: nat :| SealedAt(p, events[..n], j, box.aad, data) {
          assert events[..n][..j] == events[..j];
          assert SealedAt(p, events, j, box.aad, data);
        } else {
          var i: nat :| OwnSealedAt(events[..n], i, box);
          assert OwnSealedAt(events, i, box);
        }
      } else {
        assert SealedAt(p, events, n, box.aad, data) || OwnSealedAt(events, n, box);
      }
    }
  }

  // ------------------------------------------------- which keys the server works with

  predicate MadeDek(events: seq<Event>, j: nat, dek: Bytes) {
    j < |events| && events[j].Request? && events[j].op.Initialize? && events[j].op.dek == dek
  }

  predicate MadeConfig(events: seq<Event>, j: nat, config: Config) {
    && j < |events| && events[j].Request? && events[j].op.Initialize?
    && config.wrapped.nonce == Encode(events[j].op.draw.nonce)
  }

  predicate MintedKey(events: seq<Event>, j: nat, material: Bytes) {
    j < |events| && events[j].Request? && MintsKey(events[j].op) && events[j].op.mint.material == material
  }

  /** The stored configuration is one an initialisation wrote, the DEK in memory one an
      initialisation generated. */
  ghost predicate VaultKnown(events: seq<Event>, v: Vault) {
    && (v.config.Some? ==> exists j: nat :: MadeConfig(events, j, v.config.value))
    && (v.dek.Some? ==> exists j: nat :: MadeDek(events, j, v.dek.value))
  }

  lemma VaultKnownLater(events: seq<Event>, e: Event, v: Vault)
    requires VaultKnown(events, v)
    ensures VaultKnown(events + [e], v)
  {
    var later := events + [e];
    if v.config.Some? {
      var j: nat :| MadeConfig(events, j, v.config.value);
      assert MadeConfig(later, j, v.config.value);
    }
    if v.dek.Some? {
      var j: nat :| MadeDek(events, j, v.dek.value);
      assert MadeDek(later, j, v.dek.value);
    }
  }

  lemma KvLeavesVault(p: Prims, s: Sys, op: Op)
    requires IsKvOp(op)
    ensures Machine.Step(p, s, op).0.vault == s.vault
  {
    hide AuditChain.Append, AuditChain.DeniedCall, Authorized, OpenColumns, Encrypt, Put;
  }

  lemma KeysLeaveVault(p: Prims, s: Sys, op: Op)
    requires MintsKey(op) || op.ListKeys? || op.DeleteKey?
    ensures Machine.Step(p, s, op).0.vault == s.vault
  {
    hide AuditChain.Append, AuditChain.DeniedCall, ValidName, Upper, T.WrapFor, Put, T.InfoOf, T.InfosOf;
  }

  lemma DataLeavesVault(p: Prims, s: Sys, op: Op)
    requires op.EncryptData? || op.DecryptData? || op.Sign? || op.VerifySignature?
    ensures Machine.Step(p, s, op).0.vault == s.vault
  {
    hide AuditChain.Append, AuditChain.DeniedCall, ValidName, T.Unwrap, T.SigningError, T.MessageDigest, T.MatchLast,
      ListVersions, Encrypt, Decrypt, Decode, Encode, Parse, Format;
  }

  lemma OthersLeaveVault(p: Prims, s: Sys, op: Op)
    requires !IsVaultOp(op)
    ensures Machine.Step(p, s, op).0.vault == s.vault
  {
    hide Machine.Step;
    if IsKvOp(op) {
      KvLeavesVault(p, s, op);
    } else if MintsKey(op) || op.ListKeys? || op.DeleteKey? {
      KeysLeaveVault(p, s, op);
    } else {
      DataLeavesVault(p, s, op);
    }
  }

  /** What opens under the nonce some initialisation drew, as a wrapped DEK, is a DEK some
      initialisation generated: the intruder's own boxes have other nonces. */
  lemma WrappedIsMade(p: Prims, events: seq<Event>, box: Sealed, j: nat)
    requires KeepsSecrets(events) && box in Run(p, events).ledger && box.aad == DEK_WRAP_AAD
    requires j < |events| && events[j].Request? && events[j].op.Initialize? && events[j].op.draw.nonce == box.nonce
    ensures exists k: nat :: MadeDek(events, k, Run(p, events).ledger[box])
  {
    hide Run, Machine.Step, Seals;
    LedgerHasProvenance(p, events, box);
    forall i: nat ensures !OwnSealedAt(events, i, box) {
      assert OwnSealedAt(events, i, box) ==> Foreign(events[i].box, events[j].op);
    }
    var k: nat :| SealedAt(p, events, k, box.aad, Run(p, events).ledger[box]);
    WrapSealIsInitialize(p, Run(p, events[..k]), events[k].op, AnswerAt(p, events, k), Run(p, events).ledger[box]);
    assert MadeDek(events, k, Run(p, events).ledger[box]);
  }

  lemma WrapSealIsInitialize(p: Prims, s: Sys, op: Op, answer: Resp, data: Bytes)
    requires Seals(p, s, op, answer, DEK_WRAP_AAD, data)
    ensures op.Initialize? && op.dek == data
  {
    hide KvAad, KeyAad, DataAad, Authorized, ValidName, Decode;
    OtherHeads(p, s, op, answer, DEK_WRAP_AAD, data);
  }

  lemma LoadedDek(p: Prims, ledger: Ledger, config: Config, passphrase: string) returns (box: Sealed)
    requires VaultEngine.LoadDek(p, ledger, config, passphrase).0.Some?
    ensures box in ledger && box.aad == DEK_WRAP_AAD && Decode(config.wrapped.nonce) == Some(box.nonce)
    ensures ledger[box] == VaultEngine.LoadDek(p, ledger, config, passphrase).0.value
  {
    hide OpenColumns, Decode;
    var key := VaultEngine.WrappingKey(p, passphrase, Decode(config.salt).value, config.params).value;
    OpenedWasSealed(ledger, key, config.wrapped, DEK_WRAP_AAD);
    box :| box in ledger && box.key == key && box.aad == DEK_WRAP_AAD && Decode(config.wrapped.nonce) == Some(box.nonce)
           && ledger[box] == OpenColumns(ledger, key, config.wrapped, DEK_WRAP_AAD).plaintext;
  }

  lemma UnlockKnown(p: Prims, events: seq<Event>, passphrase: string)
    requires KeepsSecrets(events) && VaultKnown(events, Run(p, events).vault)
    ensures VaultKnown(events, VaultEngine.Unlock(p, Run(p, events).ledger, Run(p, events).vault, passphrase).0)
  {
    hide Run, VaultEngine.LoadDek, MadeDek;
    var s := Run(p, events);
    if s.vault.config.Some? {
      var config := s.vault.config.value;
      if VaultEngine.LoadDek(p, s.ledger, config, passphrase).0.Some? {
        var box := LoadedDek(p, s.ledger, config, passphrase);
        var j: nat :| MadeConfig(events, j, config);
        DecodeEncode(events[j].op.draw.nonce);
        WrappedIsMade(p, events, box, j);
      }
    }
  }

  lemma InitializeKnown(p: Prims, events: seq<Event>, s: Sys, op: Op)
    requires op.Initialize? && VaultKnown(events, s.vault)
    ensures VaultKnown(events + [Request(op)], Machine.Step(p, s, op).0.vault)
  {
    hide Encode, Strong, VaultEngine.WrappingKey;
    VaultKnownLater(events, Request(op), s.vault);
    var later, v := events + [Request(op)], Machine.Step(p, s, op).0.vault;
    if v != s.vault {
      assert MadeConfig(later, |events|, v.config.value);
    }
  }

  /** The server's DEK is always one it generated itself. */
  lemma {:induction false} VaultIsKnown(p: Prims, events: seq<Event>)
    requires KeepsSecrets(events)
    ensures VaultKnown(events, Run(p, events).vault)
  {
    hide KeepsSecrets, VaultEngine.Unlock, VaultEngine.Initialize;
    if events != [] {
      var n := |events| - 1;
      var before, e := events[..n], events[n];
      var s := Run(p, before);
      PrefixKeepsSecrets(events, n);
      VaultIsKnown(p, before);
      assert before + [e] == events;
      VaultKnownLater(before, e, s.vault);
      if e.Request? {
        RequestKnown(p, before, e.op);
      }
      hide Machine.Step, VaultKnown;
    }
  }

  lemma RequestKnown(p: Prims, events: seq<Event>, op: Op)
    requires KeepsSecrets(events) && VaultKnown(events, Run(p, events).vault)
    ensures VaultKnown(events + [Request(op)], Machine.Step(p, Run(p, events), op).0.vault)
  {
    hide KeepsSecrets, VaultEngine.Unlock, VaultEngine.Initialize, VaultKnown, Run;
    var s := Run(p, events);
    if op.Initialize? {
      InitializeKnown(p, events, s, op);
      hide Machine.Step;
    } else if op.Unlock? {
      UnlockKnown(p, events, op.passphrase);
      VaultKnownLater(events, Request(op), Machine.Step(p, s, op).0.vault);
    } else if op.Lock? || op.Restart? {
      LockKnown(events, s.vault);
      VaultKnownLater(events, Request(op), Machine.Step(p, s, op).0.vault);
    } else {
      hide Machine.Step;
      OthersLeaveVault(p, s, op);
      VaultKnownLater(events, Request(op), s.vault);
    }
  }

  lemma LockKnown(events: seq<Event>, v: Vault)
    requires VaultKnown(events, v)
    ensures VaultKnown(events, VaultEngine.Lock(v).0)
  {
  }

  /** A box under a DEK or key material of the server is the server's own. */
  lemma SecretBoxIsSealed(p: Prims, events: seq<Event>, box: Sealed, k: nat)
    requires KeepsSecrets(events) && box in Run(p, events).ledger
    requires MadeDek(events, k, box.key) || MintedKey(events, k, box.key)
    ensures exists j: nat :: SealedAt(p, events, j, box.aad, Run(p, events).ledger[box])
  {
    hide Run, SealedAt;
    LedgerHasProvenance(p, events, box);
    forall i: nat ensures !OwnSealedAt(events, i, box) {
      assert OwnSealedAt(events, i, box) ==> Foreign(events[i].box, events[k].op);
    }
  }

  /** A box under the DEK in memory was sealed by a request. */
  lemma DekBoxIsSealed(p: Prims, events: seq<Event>, box: Sealed)
    requires KeepsSecrets(events) && box in Run(p, events).ledger && Run(p, events).vault.dek == Some(box.key)
    ensures exists j: nat :: SealedAt(p, events, j, box.aad, Run(p, events).ledger[box])
  {
    hide Run, SealedAt, KeepsSecrets;
    VaultIsKnown(p, events);
    var k: nat :| MadeDek(events, k, box.key);
    SecretBoxIsSealed(p, events, box, k);
  }

  // ------------------------------------------------------------------ the theorems

  /** Request `j` is a write by `owner` of `data` at `path` that was allotted `version`,
      and was not refused. */
  predicate WroteAt(p: Prims, events: seq<Event>, j: nat, owner: string, path: string, version: int, data: Bytes) {
    && j < |events| && events[j].Request? && events[j].op.KvWrite?
    && events[j].op.user == owner && events[j].op.path == path && events[j].op.data == data
    && NextVersion(Run(p, events[..j]).kv, (owner, path)) == version
    && var answer := AnswerAt(p, events, j);
    && (answer == Failed(Internal) || (answer.Written? && answer.version == version))
  }

  /** Request `j` minted `material` for this version of the key, of this usage. */
  predicate WrappedAt(p: Prims, events: seq<Event>, j: nat, key: Key, usage: string, version: int, material: Bytes) {
    && j < |events| && events[j].Request?
    && var op, s := events[j].op, Run(p, events[..j]);
    && Wraps(s, op, key, usage, version, material)
  }

  predicate Wraps(s: Sys, op: Op, key: Key, usage: string, version: int, material: Bytes) {
    && (op.CreateKey? || op.CreateSigningKey? || op.RotateKey?)
    && (op.user, op.name) == key && op.mint.material == material
    && usage == (if op.RotateKey? then T.RotatedUsage(s.keys,
        key) else if op.CreateKey? then T.ENCRYPT_DECRYPT else T.SIGN_VERIFY)
    && version == (if op.RotateKey? then NextVersion(s.keys, key) else 1)
  }

  /** Request `j` is an encryption by `owner` of `data` under this version of the key,
      and was not refused. */
  predicate EncryptedUnder(p: Prims, events: seq<Event>, j: nat, owner: string, name: string, version: int,
                           data: Bytes) {
    && j < |events| && events[j].Request? && events[j].op.EncryptData?
    && events[j].op.user == owner && events[j].op.name == name && Decode(events[j].op.plaintext) == Some(data)
    && var answer := AnswerAt(p, events, j);
    && (answer == Failed(Internal) || (answer.Encrypted? && answer.version == version))
  }

  lemma OtherHeads(p: Prims, s: Sys, op: Op, answer: Resp, aad: string, data: Bytes)
    requires Seals(p, s, op, answer, aad, data)
    ensures |aad| > 8
    ensures op.KvWrite? ==> aad[0] == 'k'
    ensures op.EncryptData? ==> aad[0] == 't' && aad[8] == 'd'
    ensures op.CreateKey? || op.CreateSigningKey? || op.RotateKey? ==> aad[0] == 't' && aad[8] == 'k'
    ensures op.Initialize? ==> aad[0] == 'm'
  {
    hide KvAad, KeyAad, DataAad, Authorized, ValidName, Decode;
    match op
    case Initialize(_, _, _, _, _) =>
    case KvWrite(user, path, _, _, _) =>
      KvHead(user, path, NextVersion(s.kv, (user, path)));
      KvLong(user, path, NextVersion(s.kv, (user, path)));
    case CreateKey(user, name, _, _) => KeyHead(user, name, T.ENCRYPT_DECRYPT, None, 1);
    case CreateSigningKey(user, name, _, _, _) => KeyHead(user, name, T.SIGN_VERIFY, Some(T.ED25519), 1);
    case RotateKey(user, name, _, _) =>
      var usage := T.RotatedUsage(s.keys, (user, name));
      KeyHead(user, name, usage, T.AlgorithmOf(usage), NextVersion(s.keys, (user, name)));
    case EncryptData(user, name, _, _, _) => DataHead(user, name, s.keys.parents[(user, name)].latest);
    case _ =>
  }

  lemma KvLong(owner: string, path: string, version: int)
    requires Authorized(owner, path)
    ensures |KvAad(owner, path, version)| > 8
  {
    AuthorizedShape(owner, path);
  }

  /** Only a write seals under the associated data of a record. */
  lemma KvSealIsWrite(p: Prims, s: Sys, op: Op, answer: Resp, owner: string, path: string, version: int, data: Bytes)
    requires Seals(p, s, op, answer, KvAad(owner, path, version), data) && Authorized(owner, path)
    ensures op.KvWrite? && op.user == owner && op.path == path && op.data == data
    ensures NextVersion(s.kv, (owner, path)) == version
    ensures answer == Failed(Internal) || (answer.Written? && answer.version == version)
  {
    hide KvAad, KeyAad, DataAad, Authorized, ValidName, AlgorithmText, Decode;
    KvHead(owner, path, version);
    OtherHeads(p, s, op, answer, KvAad(owner, path, version), data);
    if op.KvWrite? {
      KvAadInjective(op.user, op.path, NextVersion(s.kv, (op.user, op.path)), owner, path, version);
    }
  }

  /** Only minting seals under the associated data of a key. */
  lemma KeySealIsMint(p: Prims, s: Sys, op: Op, answer: Resp, key: Key, usage: string, algorithm: Option<string>,
                      version: int, material: Bytes)
    requires Seals(p, s, op, answer, KeyAad(key.0, key.1, usage, algorithm, version), material)
    requires ValidName(key.1) && Free(usage, ':') && Free(AlgorithmText(algorithm), ':')
    ensures Wraps(s, op, key, usage, version, material)
    ensures AlgorithmText(algorithm) == AlgorithmText(T.AlgorithmOf(usage))
  {
    hide KvAad, KeyAad, DataAad, Authorized, ValidName, AlgorithmText, Decode;
    KeyHead(key.0, key.1, usage, algorithm, version);
    OtherHeads(p, s, op, answer, KeyAad(key.0, key.1, usage, algorithm, version), material);
    UsagesAreFree();
    if op.CreateKey? {
      KeyAadInjective(op.user, op.name, T.ENCRYPT_DECRYPT, None, 1, key.0, key.1, usage, algorithm, version);
    } else if op.CreateSigningKey? {
      KeyAadInjective(op.user, op.name, T.SIGN_VERIFY, Some(T.ED25519), 1, key.0, key.1, usage, algorithm, version);
    } else if op.RotateKey? {
      var u := T.RotatedUsage(s.keys, (op.user, op.name));
      KeyAadInjective(op.user, op.name, u, T.AlgorithmOf(u), NextVersion(s.keys, (op.user, op.name)),
                      key.0, key.1, usage, algorithm, version);
    }
  }

  lemma UsagesAreFree()
    ensures Free(T.ENCRYPT_DECRYPT, ':') && Free(T.SIGN_VERIFY, ':')
    ensures Free(AlgorithmText(None), ':') && Free(AlgorithmText(Some(T.ED25519)), ':')
    ensures T.AlgorithmOf(T.SIGN_VERIFY) == Some(T.ED25519) && T.AlgorithmOf(T.ENCRYPT_DECRYPT) == None
  {
    assert T.ENCRYPT_DECRYPT[0] == 'E' && T.SIGN_VERIFY[0] == 'S';
  }

  /** Only an encryption seals under the associated data of a ciphertext. */
  lemma DataSealIsEncrypt(p: Prims, s: Sys, op: Op, answer: Resp, owner: string, name: string, version: int,
                          data: Bytes)
    requires Seals(p, s, op, answer, DataAad(owner, name, version), data) && ValidName(name)
    ensures op.EncryptData? && op.user == owner && op.name == name && Decode(op.plaintext) == Some(data)
    ensures answer == Failed(Internal) || (answer.Encrypted? && answer.version == version)
  {
    hide KvAad, KeyAad, DataAad, Authorized, ValidName, AlgorithmText, Decode;
    DataHead(owner, name, version);
    OtherHeads(p, s, op, answer, DataAad(owner, name, version), data);
    if op.EncryptData? {
      DataAadInjective(op.user, op.name, s.keys.parents[(op.user, op.name)].latest, owner, name, version);
    }
  }

  /** Row authenticity.  However the tables are rewritten and whatever the intruder seals
      itself, a read at (owner, path, version) refuses, or returns a value that was once
      written at exactly that owner, path and version. */
  lemma ReadsAreAuthentic(p: Prims, events: seq<Event>, k: nat)
    requires k < |events| && events[k].Request? && events[k].op.KvRead? && AnswerAt(p, events, k).Value?
    requires KeepsSecrets(events[..k])
    ensures var op, answer := events[k].op, AnswerAt(p, events, k);
            exists j: nat :: j < k && WroteAt(p, events, j, op.user, op.path, answer.version, answer.data)
  {
    hide KvAad, Authorized, Run, Machine.Step, Seals, KeepsSecrets;
    var s, op, answer := Run(p, events[..k]), events[k].op, AnswerAt(p, events, k);
    var box := ReadOpens(p, s, op);
    DekBoxIsSealed(p, events[..k], box);
    var j: nat :| SealedAt(p, events[..k], j, box.aad, s.ledger[box]);
    assert events[..k][..j] == events[..j];
    KvSealIsWrite(p, Run(p, events[..j]), events[j].op, AnswerAt(p, events, j), op.user, op.path, answer.version,
                  answer.data);
    assert WroteAt(p, events, j, op.user, op.path, answer.version, answer.data);
  }

  lemma ReadOpens(p: Prims, s: Sys, op: Op) returns (box: Sealed)
    requires op.KvRead? && Machine.Step(p, s, op).1.Value?
    ensures box in s.ledger && s.vault.dek == Some(box.key) && Authorized(op.user, op.path)
    ensures var answer := Machine.Step(p, s, op).1;
            box.aad == KvAad(op.user, op.path, answer.version) && s.ledger[box] == answer.data
  {
    hide KvAad, Authorized, OpenColumns, AuditChain.Append, AuditChain.DeniedCall;
    var found := GetVersion(s.kv, (op.user, op.path), op.version).value;
    var aad := KvAad(op.user, op.path, found.version);
    OpenedWasSealed(s.ledger, s.vault.dek.value, found.row.columns, aad);
    box :| box in s.ledger && box.key == s.vault.dek.value && box.aad == aad
           && s.ledger[box] == OpenColumns(s.ledger, s.vault.dek.value, found.row.columns, aad).plaintext;
  }

  /** Request `j` sealed `material` under `aad` when minting it for this version of the
      key, of this usage. */
  predicate MintedUnder(p: Prims, events: seq<Event>, j: nat, aad: string, key: Key, usage: string, version: int,
                        material: Bytes)
  {
    SealedAt(p, events, j, aad, material) && WrappedAt(p, events, j, key, usage, version, material)
  }

  /** Key authenticity.  However the tables are rewritten and whatever the intruder seals
      itself, material that unwraps through a key row was sealed by a request under the
      row's associated data, and by one that minted it for exactly that owner, name, usage
      and version if and only if the row's algorithm column holds no colon; the column then
      reads as the algorithm of the usage.  The usage column is held to its two values by
      the schema, the algorithm column is free. */
  lemma UnwrapIsAuthentic(p: Prims, events: seq<Event>, key: Key, version: int)
    requires var s := Run(p, events); s.vault.dek.Some? && key in s.keys.parents && ValidName(key.1)
    requires Run(p, events).keys.parents[key].meta.usage in {T.ENCRYPT_DECRYPT, T.SIGN_VERIFY}
    requires T.Unwrap(Run(p, events), key, version).Ok? && KeepsSecrets(events)
    ensures var s := Run(p, events);
            var meta, material := s.keys.parents[key].meta, T.Unwrap(s, key, version).value;
            var aad := KeyAad(key.0, key.1, meta.usage, meta.algorithm, version);
            && (exists j: nat :: SealedAt(p, events, j, aad, material))
            && ((exists j: nat :: MintedUnder(p, events, j, aad, key, meta.usage, version, material))
                <==> Free(AlgorithmText(meta.algorithm), ':'))
            && (Free(AlgorithmText(meta.algorithm), ':') ==>
                  AlgorithmText(meta.algorithm) == AlgorithmText(T.AlgorithmOf(meta.usage)))
  {
    hide KeyAad, ValidName, Run, Machine.Step, Seals, AlgorithmText, Wraps, KeepsSecrets;
    var s := Run(p, events);
    var meta, material := s.keys.parents[key].meta, T.Unwrap(s, key, version).value;
    var box := UnwrapOpens(s, key, version);
    DekBoxIsSealed(p, events, box);
    UsagesAreFree();
    forall j: nat | SealedAt(p, events, j, box.aad, material)
      ensures WrappedAt(p, events, j, key, meta.usage, version, material) <==> Free(AlgorithmText(meta.algorithm), ':')
      ensures Free(AlgorithmText(meta.algorithm), ':') ==>
                AlgorithmText(meta.algorithm) == AlgorithmText(T.AlgorithmOf(meta.usage))
    {
      var t, op, answer := Run(p, events[..j]), events[j].op, AnswerAt(p, events, j);
      if Free(AlgorithmText(meta.algorithm), ':') {
        KeySealIsMint(p, t, op, answer, key, meta.usage, meta.algorithm, version, material);
      } else {
        ColonIsForeign(p, t, op, answer, key, meta.usage, meta.algorithm, version, material);
      }
    }
    var j: nat :| SealedAt(p, events, j, box.aad, material);
    assert Free(AlgorithmText(meta.algorithm), ':') ==>
        MintedUnder(p, events, j, box.aad, key, meta.usage, version, material);
  }

  /** Under a row with a colon in its algorithm nothing opens that was minted for its key. */
  lemma ColonIsForeign(p: Prims, s: Sys, op: Op, answer: Resp, key: Key, usage: string, algorithm: Option<string>,
                       version: int, material: Bytes)
    requires Seals(p, s, op, answer, KeyAad(key.0, key.1, usage, algorithm, version), material)
    requires !Free(AlgorithmText(algorithm), ':')
    ensures !Wraps(s, op, key, usage, version, material)
  {
    hide KvAad, DataAad, Authorized, ValidName, AlgorithmText, Decode, VersionTag;
    UsagesAreFree();
    var head := (("transit-key:" + key.0) + [':'] + key.1) + [':'] + usage;
    var minted := AlgorithmText(T.AlgorithmOf(usage));
    if Wraps(s, op, key, usage, version, material) {
      assert Seals(p, s, op, answer, (head + [':'] + minted) + [':'] + VersionTag(version), material);
    }
    if (head + [':'] + AlgorithmText(algorithm)) + [':'] + VersionTag(version)
       == (head + [':'] + minted) + [':'] + VersionTag(version) {
      SameMiddle(head + [':'], AlgorithmText(algorithm), minted, VersionTag(version));
    }
  }

  lemma SameMiddle(head: string, a: string, b: string, tail: string)
    requires head + a + [':'] + tail == head + b + [':'] + tail
    ensures a == b
  {
    DropTail(head + a + [':'], head + b + [':'], tail);
    DropTail(head + a, head + b, [':']);
    DropHead(head, a, b);
  }

  lemma UnwrapOpens(s: Sys, key: Key, version: int) returns (box: Sealed)
    requires s.vault.dek.Some? && key in s.keys.parents && T.Unwrap(s, key, version).Ok?
    ensures box in s.ledger && s.vault.dek == Some(box.key) && s.ledger[box] == T.Unwrap(s, key, version).value
    ensures var meta := s.keys.parents[key].meta; box.aad == KeyAad(key.0, key.1, meta.usage, meta.algorithm, version)
  {
    hide KeyAad, OpenColumns;
    var row := s.keys.parents[key];
    var aad := KeyAad(key.0, key.1, row.meta.usage, row.meta.algorithm, version);
    var columns := s.keys.rows[(row.id, version)].material.columns;
    OpenedWasSealed(s.ledger, s.vault.dek.value, columns, aad);
    box :| box in s.ledger && box.key == s.vault.dek.value && box.aad == aad
           && s.ledger[box] == OpenColumns(s.ledger, s.vault.dek.value, columns, aad).plaintext;
  }

  /** Material that unwraps was minted by some request. */
  lemma UnwrappedIsMinted(p: Prims, events: seq<Event>, key: Key, version: int)
    requires var s := Run(p, events); s.vault.dek.Some? && key in s.keys.parents
    requires T.Unwrap(Run(p, events), key, version).Ok? && KeepsSecrets(events)
    ensures exists j: nat :: MintedKey(events, j, T.Unwrap(Run(p, events), key, version).value)
  {
    hide KeyAad, Run, Machine.Step, Seals, KeepsSecrets;
    var s := Run(p, events);
    var meta, material := s.keys.parents[key].meta, T.Unwrap(s, key, version).value;
    var box := UnwrapOpens(s, key, version);
    DekBoxIsSealed(p, events, box);
    var j: nat :| SealedAt(p, events, j, box.aad, material);
    KeyHead(key.0, key.1, meta.usage, meta.algorithm, version);
    KeyHeadIsMint(p, Run(p, events[..j]), events[j].op, AnswerAt(p, events, j), box.aad, material);
    assert MintedKey(events, j, material);
  }

  lemma KeyHeadIsMint(p: Prims, s: Sys, op: Op, answer: Resp, aad: string, material: Bytes)
    requires Seals(p, s, op, answer, aad, material) && |aad| > 8 && aad[0] == 't' && aad[8] == 'k'
    ensures MintsKey(op) && op.mint.material == material
  {
    hide KvAad, KeyAad, DataAad, Authorized, ValidName, Decode;
    OtherHeads(p, s, op, answer, aad, material);
  }

  /** Ciphertext authenticity.  However the tables are rewritten, whatever the intruder
      seals itself and whatever token is presented, decryption refuses, or returns what the
      caller once encrypted under exactly that key name and version. */
  lemma DecryptsAreAuthentic(p: Prims, events: seq<Event>, k: nat)
    requires k < |events| && events[k].Request? && events[k].op.DecryptData? && AnswerAt(p, events, k).Decrypted?
    requires KeepsSecrets(events[..k])
    ensures var op, answer := events[k].op, AnswerAt(p, events, k);
            exists j: nat, data :: j < k && answer.plaintext == Encode(data)
                                   && EncryptedUnder(p, events, j, op.user, answer.name, answer.version, data)
  {
    hide DataAad, ValidName, Run, Machine.Step, Seals, Encode, Decode, KeepsSecrets, T.Unwrap;
    var s, op, answer := Run(p, events[..k]), events[k].op, AnswerAt(p, events, k);
    var box := DecryptOpens(p, s, op);
    UnwrappedIsMinted(p, events[..k], (op.user, answer.name), answer.version);
    var m: nat :| MintedKey(events[..k], m, box.key);
    SecretBoxIsSealed(p, events[..k], box, m);
    var j: nat :| SealedAt(p, events[..k], j, box.aad, s.ledger[box]);
    assert events[..k][..j] == events[..j];
    DataSealIsEncrypt(p, Run(p, events[..j]), events[j].op, AnswerAt(p, events, j), op.user, answer.name,
                      answer.version, s.ledger[box]);
    assert EncryptedUnder(p, events, j, op.user, answer.name, answer.version, s.ledger[box]);
  }

  lemma DecryptOpens(p: Prims, s: Sys, op: Op) returns (box: Sealed)
    requires op.DecryptData? && Machine.Step(p, s, op).1.Decrypted?
    ensures var answer := Machine.Step(p, s, op).1;
            && box in s.ledger && answer.plaintext == Encode(s.ledger[box]) && ValidName(answer.name)
            && box.aad == DataAad(op.user, answer.name, answer.version)
            && s.vault.dek.Some? && (op.user, answer.name) in s.keys.parents
            && T.Unwrap(s, (op.user, answer.name), answer.version) == T.Ok(box.key)
  {
    hide DataAad, ValidName, T.Unwrap, Parse, Encode, AuditChain.Append, AuditChain.DeniedCall;
    var token := Parse(op.token).value;
    box := Sealed(T.Unwrap(s, (op.user, token.name), token.version).value, token.blob.nonce,
                  token.blob.ciphertext + token.blob.tag, DataAad(op.user, token.name, token.version));
  }
}
