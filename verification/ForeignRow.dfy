/** Why key authenticity needs an algorithm column without colons: a run of the server in
    which one rewritten key row opens the material of another owner's key. */
module ForeignRow {
  import opened Text
  import opened Base64
  import opened Crypto
  import opened TransitToken
  import opened Aad
  import opened Passphrase
  import opened World
  import opened Authenticity
  import Accounts
  import KeyStore
  import VaultEngine
  import Machine
  import T = TransitEngine

  const OWNER: string := "ann@example.org"
  const NAME: string := "n"
  const OTHER: string := "ann@example.org:n"  // has an at sign, a dot after it and no space, as registration asks

  /** Both are emails as the users table keeps them. */
  lemma OwnersAreNormal()
    ensures Accounts.Normalize(OWNER) == OWNER && Accounts.Normalize(OTHER) == OTHER
  {
  }

  /** A key named like its usage, of the owner `owner:name`, has the associated data of the
      key `name` of `owner` whose algorithm column reads `usage:-`. */
  lemma ColonCollides(owner: string, name: string, usage: string, version: int)
    ensures KeyAad(owner + [':'] + name, usage, usage, None, version)
         == KeyAad(owner, name, usage, Some(usage + ":-"), version)
  {
    hide VersionTag;
    assert (((("transit-key:" + (owner + [':'] + name)) + [':'] + usage) + [':'] + usage) + [':'] + "-")
        == (((("transit-key:" + owner) + [':'] + name) + [':'] + usage) + [':'] + (usage + ":-"));
  }

  /** What the run is given: a passphrase, KDF parameters, a salt, a DEK, key material and
      draws for sealing both. */
  datatype Inputs = Inputs(passphrase: string, params: KdfParams, salt: Bytes, dek: Bytes, material: Bytes,
                           wrapDek: Draw, wrapKey: Draw, now: string)

  predicate Usable(p: Prims, x: Inputs) {
    && Strong(x.passphrase) && |x.salt| == 16 && |p.deriveKey(x.passphrase, x.salt, x.params)| == 32
    && |x.dek| == 32 && |x.material| == 32
    && |x.wrapDek.nonce| == NONCE_LENGTH && |x.wrapDek.body| >= TAG_LENGTH
    && |x.wrapKey.nonce| == NONCE_LENGTH && |x.wrapKey.body| >= TAG_LENGTH
  }

  function Initializing(x: Inputs): Op {
    Initialize(x.passphrase, x.params, x.salt, x.dek, x.wrapDek)
  }

  function Creating(x: Inputs): Op {
    CreateKey(OTHER, T.ENCRYPT_DECRYPT, x.now, Mint(x.material, x.wrapKey))
  }

  /** The key row of OTHER with three of its columns rewritten: owner, name, algorithm. */
  function Rewritten(t: KeyStore.KeyTables): KeyStore.KeyTables {
    if (OTHER, T.ENCRYPT_DECRYPT) in t.parents then
      var row := t.parents[(OTHER, T.ENCRYPT_DECRYPT)];
      t.(parents := map[(OWNER, NAME) := row.(meta := row.meta.(algorithm := Some(T.ENCRYPT_DECRYPT + ":-")))])
    else t
  }

  function Requests(x: Inputs): seq<Event> {
    [Request(Initializing(x)), Request(Unlock(x.passphrase)), Request(Creating(x))]
  }

  /** Initialise, unlock, let OTHER create a key, rewrite its row. */
  function Events(p: Prims, x: Inputs): seq<Event> {
    var s := Run(p, Requests(x));
    Requests(x) + [Tamper(s.kv, Rewritten(s.keys), s.audit)]
  }

  function Made(p: Prims, x: Inputs): Sys {
    var key := p.deriveKey(x.passphrase, x.salt, x.params);
    var config := Config(VaultEngine.CONFIG_VERSION, "argon2id", Encode(x.salt), x.params, ToColumns(Pack(x.wrapDek)));
    START.(vault := Vault(Some(config), None), ledger := map[Box(key, DEK_WRAP_AAD, x.wrapDek) := x.dek])
  }

  lemma Initialized(p: Prims, x: Inputs)
    requires Usable(p, x)
    ensures Machine.Step(p, START, Initializing(x)).0 == Made(p, x)
  {
    hide Encode;
  }

  lemma Unlocked(p: Prims, x: Inputs)
    requires Usable(p, x)
    ensures Machine.Step(p, Made(p, x), Unlock(x.passphrase)).0
         == Made(p, x).(vault := Made(p, x).vault.(dek := Some(x.dek)))
  {
    hide Encode, Decode, ToColumns, OpenColumns;
    var key, s := p.deriveKey(x.passphrase, x.salt, x.params), Made(p, x);
    DecodeEncode(x.salt);
    PackRejoins(x.wrapDek);
    ColumnsOpen(s.ledger, key, Pack(x.wrapDek), DEK_WRAP_AAD);
    assert Box(key, DEK_WRAP_AAD, x.wrapDek) in s.ledger;
  }

  /** After its creation OTHER's key has one version, which opens to the material. */
  lemma Created(p: Prims, x: Inputs, s: Sys)
    requires Usable(p, x) && s.vault.dek == Some(x.dek) && s.keys == KeyStore.EMPTY
    ensures var s' := Machine.Step(p, s, Creating(x)).0;
            var key := (OTHER, T.ENCRYPT_DECRYPT);
            && s'.vault == s.vault && key in s'.keys.parents && s'.keys.parents[key].id == 1
            && s'.keys.parents[key].meta.usage == T.ENCRYPT_DECRYPT
            && (1, 1) in s'.keys.rows
            && OpenColumns(s'.ledger, x.dek, s'.keys.rows[(1, 1)].material.columns,
                           KeyAad(OTHER, T.ENCRYPT_DECRYPT, T.ENCRYPT_DECRYPT, None, 1)) == Plain(x.material)
  {
    hide Encode, KeyAad, ToColumns, OpenColumns;
    var aad := KeyAad(OTHER, T.ENCRYPT_DECRYPT, T.ENCRYPT_DECRYPT, None, 1);
    var ledger := s.ledger[Box(x.dek, aad, x.wrapKey) := x.material];
    PackRejoins(x.wrapKey);
    ColumnsOpen(ledger, x.dek, Pack(x.wrapKey), aad);
    assert ValidName(T.ENCRYPT_DECRYPT);
  }

  function Opened(p: Prims, x: Inputs): Sys {
    Made(p, x).(vault := Made(p, x).vault.(dek := Some(x.dek)))
  }

  lemma UpToCreating(p: Prims, x: Inputs)
    requires Usable(p, x)
    ensures Run(p, Requests(x)[..2]) == Opened(p, x)
    ensures Run(p, Requests(x)) == Machine.Step(p, Opened(p, x), Creating(x)).0
  {
    hide Machine.Step, Made, Initializing, Creating;
    var requests := Requests(x);
    assert requests[..2][..1] == requests[..1] && requests[..1][..0] == [];
    Initialized(p, x);
    Unlocked(p, x);
    assert Run(p, requests[..1]) == Made(p, x);
    assert Run(p, requests[..2]) == Opened(p, x);
  }

  /** Once rewritten, OTHER's row is a row of OWNER's key, and opens as before. */
  lemma RewrittenUnwraps(p: Prims, x: Inputs, s: Sys)
    requires s.vault.dek == Some(x.dek) && (OTHER, T.ENCRYPT_DECRYPT) in s.keys.parents
    requires var row := s.keys.parents[(OTHER, T.ENCRYPT_DECRYPT)]; row.id == 1 && row.meta.usage == T.ENCRYPT_DECRYPT
    requires (1, 1) in s.keys.rows
    requires OpenColumns(s.ledger, x.dek, s.keys.rows[(1, 1)].material.columns,
                         KeyAad(OTHER, T.ENCRYPT_DECRYPT, T.ENCRYPT_DECRYPT, None, 1)) == Plain(x.material)
    ensures var s' := s.(keys := Rewritten(s.keys));
            && (OWNER, NAME) in s'.keys.parents && s'.keys.parents[(OWNER, NAME)].meta.usage == T.ENCRYPT_DECRYPT
            && T.Unwrap(s', (OWNER, NAME), 1) == T.Ok(x.material)
  {
    hide KeyAad, OpenColumns;
    ColonCollides(OWNER, NAME, T.ENCRYPT_DECRYPT, 1);
    assert OWNER + [':'] + NAME == OTHER;
  }

  lemma NobodyMintsForOwner(p: Prims, x: Inputs, j: nat, usage: string, version: int, material: Bytes)
    ensures !WrappedAt(p, Events(p, x), j, (OWNER, NAME), usage, version, material)
  {
    hide Run;
    assert OWNER != OTHER;
  }

  /** Key authenticity fails under a colon: in this run the row of OWNER's key opens to
      the material minted for OTHER, and no request ever minted anything for OWNER. */
  lemma ForeignMaterialUnwraps(p: Prims, x: Inputs)
    requires Usable(p, x)
    ensures var events := Events(p, x);
            var s := Run(p, events);
            && KeepsSecrets(events)
            && s.vault.dek.Some? && (OWNER, NAME) in s.keys.parents && ValidName(NAME)
            && s.keys.parents[(OWNER, NAME)].meta.usage == T.ENCRYPT_DECRYPT
            && T.Unwrap(s, (OWNER, NAME), 1) == T.Ok(x.material)
            && WrappedAt(p, events, 2, (OTHER, T.ENCRYPT_DECRYPT), T.ENCRYPT_DECRYPT, 1, x.material)
            && forall j: nat, usage, version, m :: !WrappedAt(p, events, j, (OWNER, NAME), usage, version, m)
  {
    hide Machine.Step, T.Unwrap, KeyAad, OpenColumns, Rewritten, WrappedAt;
    UpToCreating(p, x);
    Created(p, x, Opened(p, x));
    var s, events := Run(p, Requests(x)), Events(p, x);
    assert events[..3] == Requests(x) && events[3] == Tamper(s.kv, Rewritten(s.keys), s.audit);
    assert Run(p, events) == s.(keys := Rewritten(s.keys));
    RewrittenUnwraps(p, x, s);
    MintedForOther(p, x);
    forall j: nat, usage, version, m ensures !WrappedAt(p, events, j, (OWNER, NAME), usage, version, m) {
      NobodyMintsForOwner(p, x, j, usage, version, m);
    }
  }

  lemma MintedForOther(p: Prims, x: Inputs)
    ensures WrappedAt(p, Events(p, x), 2, (OTHER, T.ENCRYPT_DECRYPT), T.ENCRYPT_DECRYPT, 1, x.material)
  {
    hide Run;
  }
}
