/** The life of a ciphertext token: it outlives every rotation, opens for its owner
    only, and is dead once its key was revoked. */
module Tokens {
  import opened Text
  import opened Base64
  import opened Crypto
  import opened TransitToken
  import opened VersionedTables
  import opened World
  import opened IdealFrames
  import opened Simulation
  import opened Refinement
  import opened DekForLife
  import AuditChain
  import Machine
  import VaultEngine
  import KvPaths
  import T = TransitEngine
  import I = Ideal

  /** Version `v` of `key` has this material. */
  ghost predicate At(keys: map<Key, I.KeyRecord>, key: Key, v: int, material: Bytes) {
    key in keys && 1 <= v <= |keys[key].entries| && keys[key].entries[v - 1].data == material
  }

  ghost predicate Distinct(keys: map<Key, I.KeyRecord>) {
    forall key, v, key', v', m :: At(keys, key, v, m) && At(keys, key', v', m) ==> key == key' && v == v'
  }

  ghost predicate DistinctNonces(sealed: map<I.IBox, Bytes>) {
    forall b, b' :: b in sealed && b' in sealed && b.nonce == b'.nonce ==> b == b'
  }

  ghost predicate MintedBoxes(minted: map<Bytes, Holder>, sealed: map<I.IBox, Bytes>) {
    forall b :: b in sealed ==> ValidName(b.name) && b.material in minted
  }

  /** What fresh randomness keeps true: no two versions share their material, no two
      ciphertexts their nonce. */
  ghost predicate Unrepeated(s: Sys, i: I.State) {
    Distinct(i.keys) && DistinctNonces(i.sealed) && MintedBoxes(s.minted, i.sealed)
  }

  /** The box is decryptable by its owner, with this plaintext. */
  ghost predicate Alive(i: I.State, box: I.IBox, plaintext: Bytes) {
    && box in i.sealed && i.sealed[box] == plaintext && ValidName(box.name)
    && At(i.keys, (box.owner, box.name), box.version, box.material)
    && i.keys[(box.owner, box.name)].usage == T.ENCRYPT_DECRYPT
  }

  ghost predicate Spent(i: I.State, material: Bytes) {
    forall key, v :: !At(i.keys, key, v, material)
  }

  /** No key has the box's material any more. */
  ghost predicate Dead(i: I.State, box: I.IBox) {
    box in i.sealed && ValidName(box.name) && Spent(i, box.material)
  }

  /** A request that revokes `key`. */
  predicate Revokes(op: Op, answer: Resp, key: Key) {
    op.DeleteKey? && (op.user, op.name) == key && answer.Deleted?
  }

  // ------------------------------------------------ what one request does to the keys

  ghost predicate OnlyMinted(keys: map<Key, I.KeyRecord>, keys': map<Key, I.KeyRecord>, op: Op) {
    forall key, v, m :: At(keys', key, v, m) ==>
      At(keys, key, v, m)
      || (MintsKey(op) && m == op.mint.material && key == (op.user, op.name)
          && v == (if key in keys then |keys[key].entries| + 1 else 1))
  }

  ghost predicate OnlyRevoked(keys: map<Key, I.KeyRecord>, keys': map<Key, I.KeyRecord>, op: Op, answer: Resp) {
    forall key, v, m :: At(keys, key, v, m) ==>
      if Revokes(op, answer, key) then key !in keys'
      else At(keys', key, v, m) && keys'[key].usage == keys[key].usage
  }

  ghost predicate KeysMove(i: I.State, op: Op, after: (I.State, Resp)) {
    OnlyMinted(i.keys, after.0.keys, op) && OnlyRevoked(i.keys, after.0.keys, op, after.1)
  }

  lemma InstallMoves(i: I.State, op: Op, usage: string)
    requires op.CreateKey? || op.CreateSigningKey?
    ensures KeysMove(i, op, I.Install(i, op.user, op.name, usage, op.now, op.mint.material))
  {
    hide I.InfoOf;
  }

  lemma StayMoves(i: I.State, op: Op, answer: Resp)
    requires !op.DeleteKey?
    ensures KeysMove(i, op, (i, answer))
  {
    hide At;
  }

  lemma CreateMoves(p: Prims, i: I.State, op: Op)
    requires op.CreateKey? || op.CreateSigningKey?
    ensures KeysMove(i, op, I.Step(p, i, op))
  {
    InstallMoves(i, op, T.ENCRYPT_DECRYPT);
    InstallMoves(i, op, T.SIGN_VERIFY);
    hide ValidName, Upper, I.Install, At, KeysMove;
    StayMoves(i, op, I.Step(p, i, op).1);
  }

  lemma RotateMoves(p: Prims, i: I.State, op: Op)
    requires op.RotateKey?
    ensures KeysMove(i, op, I.Step(p, i, op))
  {
    hide ValidName, I.InfoOf;
  }

  lemma RevokeMoves(p: Prims, i: I.State, op: Op)
    requires op.DeleteKey?
    ensures KeysMove(i, op, I.Step(p, i, op))
  {
    hide ValidName;
  }

  lemma AnyMoves(p: Prims, i: I.State, op: Op)
    ensures KeysMove(i, op, I.Step(p, i, op))
  {
    hide I.Step;
    if op.CreateKey? || op.CreateSigningKey? {
      CreateMoves(p, i, op);
    } else if op.RotateKey? {
      RotateMoves(p, i, op);
    } else if op.DeleteKey? {
      RevokeMoves(p, i, op);
    } else {
      StepFrame(p, i, op);
    }
  }

  // ---------------------------------------------------- and to what has been sealed

  /** A new box, under material in use. */
  ghost predicate SealedAs(i: I.State, op: Op, sealed': map<I.IBox, Bytes>, box: I.IBox, plaintext: Bytes)
    requires op.EncryptData?
  {
    && sealed' == i.sealed[box := plaintext] && box.nonce == op.draw.nonce && ValidName(box.name)
    && At(i.keys, (box.owner, box.name), box.version, box.material)
  }

  /** Nothing is sealed but by EncryptData. */
  ghost predicate SealsOne(i: I.State, op: Op, sealed': map<I.IBox, Bytes>) {
    || sealed' == i.sealed
    || (op.EncryptData? && exists box, plaintext :: SealedAs(i, op, sealed', box, plaintext))
  }

  lemma AnySeals(p: Prims, i: I.State, op: Op)
    ensures SealsOne(i, op, I.Step(p, i, op).0.sealed)
  {
    if op.EncryptData? {
      EncryptSeals(p, i, op);
    } else {
      hide I.Step;
      StepFrame(p, i, op);
    }
  }

  /** The box an encryption by `user` under the current version seals. */
  function BoxOf(i: I.State, op: Op): I.IBox
    requires op.EncryptData? && (op.user, op.name) in i.keys && i.keys[(op.user, op.name)].entries != []
  {
    var entries := i.keys[(op.user, op.name)].entries;
    I.IBox(op.user, op.name, |entries|, entries[|entries| - 1].data, op.draw.nonce, op.draw.body)
  }

  lemma EncryptSeals(p: Prims, i: I.State, op: Op)
    requires op.EncryptData?
    ensures SealsOne(i, op, I.Step(p, i, op).0.sealed)
  {
    hide Decode, Format, ValidName;
    if I.OwnedError(i, op.user, op.name).None? && Decode(op.plaintext).Some?
       && i.keys[(op.user, op.name)].entries != [] {
      var after := I.Step(p, i, op).0.sealed;
      assert after == i.sealed || SealedAs(i, op, after, BoxOf(i, op), Decode(op.plaintext).value);
    }
  }

  // -------------------------------------------------- the invariant of fresh draws

  lemma InUseIsMinted(p: Prims, s: Sys, i: I.State)
    requires Sim(p, s, i)
    ensures forall key, v, m :: At(i.keys, key, v, m) ==> m in s.minted
  {
    hide SimVault, SimKv, SimSealed, SimSigned;
    forall key, v, m | At(i.keys, key, v, m) ensures m in s.minted {
      assert KeyHolds(p, s, DekOf(i.vault), key, i.keys[key]);
      assert KeyRowHolds(p, s, DekOf(i.vault), key, i.keys[key].usage, s.keys.parents[key].id, i.keys[key].entries, v);
    }
  }

  lemma MintedGrows(p: Prims, s: Sys, op: Op)
    ensures s.minted.Keys <= Machine.Step(p, s, op).0.minted.Keys
  {
    hide VaultEngine.Initialize, VaultEngine.Unlock, VaultEngine.Lock, AuditChain.Append, AuditChain.DeniedCall,
      T.OwnedError, T.SigningError,
      T.Unwrap, Encrypt, Decrypt, Decode, Encode, Format, Parse, Upper, KvPaths.Authorized;
  }

  lemma FreshNonce(p: Prims, s: Sys, i: I.State, op: Op)
    requires Sim(p, s, i) && Legal(p, s, op) && op.EncryptData?
    ensures forall box :: box in i.sealed && ValidName(box.name) ==> box.nonce != op.draw.nonce
  {
    hide SimVault, SimKv, SimKeys, SimSigned, ValidName;
    forall box | box in i.sealed && ValidName(box.name) ensures box.nonce != op.draw.nonce {
      assert Image(box) in s.ledger;
    }
  }

  lemma KeysUnrepeated(p: Prims, s: Sys, i: I.State, op: Op)
    requires Sim(p, s, i) && Legal(p, s, op) && Distinct(i.keys)
    ensures Distinct(I.Step(p, i, op).0.keys)
  {
    hide Sim, I.Step, At;
    AnyMoves(p, i, op);
    InUseIsMinted(p, s, i);
  }

  lemma BoxesUnrepeated(p: Prims, s: Sys, i: I.State, op: Op)
    requires Sim(p, s, i) && Legal(p, s, op) && Unrepeated(s, i)
    ensures DistinctNonces(I.Step(p, i, op).0.sealed)
    ensures MintedBoxes(Machine.Step(p, s, op).0.minted, I.Step(p, i, op).0.sealed)
  {
    hide Sim, I.Step, Machine.Step, At, Legal, Distinct, ValidName;
    AnySeals(p, i, op);
    InUseIsMinted(p, s, i);
    MintedGrows(p, s, op);
    if op.EncryptData? {
      FreshNonce(p, s, i, op);
    }
  }

  lemma UnrepeatedStep(p: Prims, s: Sys, i: I.State, op: Op)
    requires Sim(p, s, i) && Legal(p, s, op) && Unrepeated(s, i)
    ensures Unrepeated(Machine.Step(p, s, op).0, I.Step(p, i, op).0)
  {
    hide Sim, I.Step, Machine.Step, Legal, Distinct, DistinctNonces, MintedBoxes;
    KeysUnrepeated(p, s, i, op);
    BoxesUnrepeated(p, s, i, op);
  }

  lemma StartUnrepeated()
    ensures Unrepeated(START, I.START)
  {
  }

  lemma {:induction false} RunUnrepeated(p: Prims, ops: seq<Op>)
    requires LegalRun(p, ops)
    ensures Unrepeated(Machine.Run(p, ops), I.Run(p, ops))
  {
    hide Sim, I.Step, Machine.Step, Legal, LegalRun, Unrepeated;
    if ops == [] {
      StartUnrepeated();
    } else {
      var n := |ops| - 1;
      PrefixLegal(p, ops, n);
      RunRefines(p, ops[..n]);
      RunUnrepeated(p, ops[..n]);
      UnrepeatedStep(p, Machine.Run(p, ops[..n]), I.Run(p, ops[..n]), ops[n]);
    }
  }

  // --------------------------------------------------------- one box, step by step

  lemma BoxStays(p: Prims, s: Sys, i: I.State, op: Op, box: I.IBox)
    requires Sim(p, s, i) && Legal(p, s, op) && box in i.sealed && ValidName(box.name)
    ensures var sealed' := I.Step(p, i, op).0.sealed; box in sealed' && sealed'[box] == i.sealed[box]
  {
    hide Sim, I.Step, Legal, At, ValidName;
    AnySeals(p, i, op);
    if op.EncryptData? {
      FreshNonce(p, s, i, op);
    }
  }

  lemma AliveStep(p: Prims, s: Sys, i: I.State, op: Op, box: I.IBox, plaintext: Bytes)
    requires Sim(p, s, i) && Legal(p, s, op) && Alive(i, box, plaintext)
    requires !Revokes(op, I.Step(p, i, op).1, (box.owner, box.name))
    ensures Alive(I.Step(p, i, op).0, box, plaintext)
  {
    hide Sim, I.Step, Legal, At, ValidName;
    BoxStays(p, s, i, op, box);
    AnyMoves(p, i, op);
  }

  lemma DeadStep(p: Prims, s: Sys, i: I.State, op: Op, box: I.IBox)
    requires Sim(p, s, i) && Legal(p, s, op) && Dead(i, box) && box.material in s.minted
    ensures Dead(I.Step(p, i, op).0, box)
  {
    hide Sim, I.Step, At, ValidName;
    BoxStays(p, s, i, op, box);
    AnyMoves(p, i, op);
  }

  lemma RevokeKills(p: Prims, s: Sys, i: I.State, op: Op, box: I.IBox, plaintext: Bytes)
    requires Sim(p, s, i) && Legal(p, s, op) && Distinct(i.keys) && Alive(i, box, plaintext)
    requires Revokes(op, I.Step(p, i, op).1, (box.owner, box.name))
    ensures Dead(I.Step(p, i, op).0, box)
  {
    BoxStays(p, s, i, op, box);
    AnyMoves(p, i, op);
    hide Sim, I.Step, Legal, ValidName;
  }

  // ------------------------------------------------------- one box, over whole runs

  predicate NotRevoked(p: Prims, ops: seq<Op>, j: nat, k: nat, key: Key)
    requires k <= |ops|
  {
    forall m :: j <= m < k ==> !Revokes(ops[m], Machine.Answer(p, ops, m), key)
  }

  /** What is known about request `n`: its answer is ideal, its randomness fresh. */
  lemma StepFacts(p: Prims, ops: seq<Op>, n: nat)
    requires LegalRun(p, ops) && n < |ops|
    ensures Sim(p, Machine.Run(p, ops[..n]), I.Run(p, ops[..n]))
    ensures Legal(p, Machine.Run(p, ops[..n]), ops[n])
    ensures Unrepeated(Machine.Run(p, ops[..n]), I.Run(p, ops[..n]))
    ensures Machine.Answer(p, ops, n) == I.Step(p, I.Run(p, ops[..n]), ops[n]).1
    ensures I.Run(p, ops[..n + 1]) == I.Step(p, I.Run(p, ops[..n]), ops[n]).0
  {
    hide Sim, Legal, I.Step, Machine.Step, Machine.Answer, I.Run, Unrepeated, LegalRun;
    PrefixLegal(p, ops, n);
    RequestFacts(p, ops, n);
    RunUnrepeated(p, ops[..n]);
  }

  lemma {:induction false} StaysAlive(p: Prims, ops: seq<Op>, j: nat, k: nat, box: I.IBox, plaintext: Bytes)
    requires LegalRun(p, ops) && j <= k <= |ops| && Alive(I.Run(p, ops[..j]), box, plaintext)
    requires NotRevoked(p, ops, j, k, (box.owner, box.name))
    ensures Alive(I.Run(p, ops[..k]), box, plaintext)
  {
    hide Sim, Legal, I.Step, Machine.Answer, Unrepeated, LegalRun, Alive, I.Run;
    if j < k {
      StaysAlive(p, ops, j, k - 1, box, plaintext);
      StepFacts(p, ops, k - 1);
      AliveStep(p, Machine.Run(p, ops[..k - 1]), I.Run(p, ops[..k - 1]), ops[k - 1], box, plaintext);
    }
  }

  lemma {:induction false} StaysDead(p: Prims, ops: seq<Op>, j: nat, k: nat, box: I.IBox)
    requires LegalRun(p, ops) && j <= k <= |ops| && Dead(I.Run(p, ops[..j]), box)
    ensures Dead(I.Run(p, ops[..k]), box)
  {
    hide Sim, Legal, I.Step, Machine.Answer, LegalRun, I.Run, Spent, Distinct, DistinctNonces, ValidName;
    if j < k {
      StaysDead(p, ops, j, k - 1, box);
      StepFacts(p, ops, k - 1);
      DeadStep(p, Machine.Run(p, ops[..k - 1]), I.Run(p, ops[..k - 1]), ops[k - 1], box);
    }
  }

  /** A box stays decryptable until its key is revoked, and is dead from then on. */
  lemma {:induction false} AliveOrDead(p: Prims, ops: seq<Op>, j: nat, k: nat, box: I.IBox, plaintext: Bytes)
    requires LegalRun(p, ops) && j <= k <= |ops| && Alive(I.Run(p, ops[..j]), box, plaintext)
    ensures Alive(I.Run(p, ops[..k]), box, plaintext) || Dead(I.Run(p, ops[..k]), box)
    ensures !NotRevoked(p, ops, j, k, (box.owner, box.name)) ==> Dead(I.Run(p, ops[..k]), box)
  {
    hide Sim, Legal, I.Step, Machine.Answer, LegalRun, I.Run, Alive, Dead, Distinct, DistinctNonces, MintedBoxes;
    if j < k {
      var s, i, op := Machine.Run(p, ops[..k - 1]), I.Run(p, ops[..k - 1]), ops[k - 1];
      AliveOrDead(p, ops, j, k - 1, box, plaintext);
      StepFacts(p, ops, k - 1);
      if Dead(i, box) {
        StaysDead(p, ops, k - 1, k, box);
      } else if Revokes(op, I.Step(p, i, op).1, (box.owner, box.name)) {
        RevokeKills(p, s, i, op, box, plaintext);
      } else {
        AliveStep(p, s, i, op, box, plaintext);
      }
    }
  }

  // -------------------------------------------------------------- boxes and tokens

  /** The token is the printed form of the box. */
  ghost predicate Carries(token: string, box: I.IBox) {
    && ValidName(box.name) && box.version >= 1 && |box.nonce| == NONCE_LENGTH && |box.body| >= TAG_LENGTH
    && Format(box.name, box.version, Pack(Draw(box.nonce, box.body))) == Some(token)
  }

  lemma CarriedParses(token: string, box: I.IBox)
    requires Carries(token, box)
    ensures if box.version > MAX_PARSED_VERSION then Parse(token) == None
            else Parse(token).Some? && forall user, material ::
                   I.BoxFor(user, Parse(token).value, material)
                   == I.IBox(user, box.name, box.version, material, box.nonce, box.body)
  {
    hide Parse, Format, ValidName;
    var draw := Draw(box.nonce, box.body);
    PackRejoins(draw);
    FormatParses(box.name, box.version, Pack(draw));
  }

  lemma AliveDecrypts(i: I.State, box: I.IBox, plaintext: Bytes, token: string)
    requires Alive(i, box, plaintext) && Carries(token, box) && I.IsOpen(i)
    ensures I.DecryptData(i, box.owner, token)
         == if box.version <= MAX_PARSED_VERSION then Decrypted(box.name, box.version, Encode(plaintext))
            else Failed(MalformedCiphertext)
  {
    hide Parse, Format, ValidName, Encode;
    CarriedParses(token, box);
    if box.version <= MAX_PARSED_VERSION {
      var t := Parse(token).value;
      assert I.BoxFor(box.owner, t, box.material) == box;
    }
  }

  /** Nobody but the owner opens a token, and nobody at all a dead one. */
  lemma OthersFail(i: I.State, box: I.IBox, token: string, user: string)
    requires box in i.sealed && DistinctNonces(i.sealed) && Carries(token, box)
    requires user != box.owner || Spent(i, box.material)
    ensures I.DecryptData(i, user, token).Failed?
  {
    hide Parse, Format, ValidName, Encode;
    CarriedParses(token, box);
    if Parse(token).Some? {
      var t := Parse(token).value;
      var key := (user, t.name);
      if key in i.keys && 1 <= t.version <= |i.keys[key].entries| {
        assert At(i.keys, key, t.version, i.keys[key].entries[t.version - 1].data);
      }
    }
  }

  /** Request `j` encrypted something. */
  predicate EncryptedAt(p: Prims, ops: seq<Op>, j: nat) {
    j < |ops| && ops[j].EncryptData? && Machine.Answer(p, ops, j).Encrypted?
  }

  lemma EncryptBears(p: Prims, i: I.State, op: Op) returns (box: I.IBox)
    requires op.EncryptData? && I.Step(p, i, op).1.Encrypted?
    requires |op.draw.nonce| == NONCE_LENGTH && |op.draw.body| >= TAG_LENGTH
    ensures var answer := I.Step(p, i, op).1;
            Carries(answer.token, box) && box.owner == op.user && box.name == op.name && box.version == answer.version
    ensures Decode(op.plaintext).Some? && Alive(I.Step(p, i, op).0, box, Decode(op.plaintext).value)
  {
    hide Decode, Format, ValidName;
    box := BoxOf(i, op);
  }

  lemma Born(p: Prims, ops: seq<Op>, j: nat) returns (box: I.IBox)
    requires LegalRun(p, ops) && EncryptedAt(p, ops, j)
    ensures var answer := Machine.Answer(p, ops, j);
            && Carries(answer.token, box) && box.owner == ops[j].user && box.name == ops[j].name
            && box.version == answer.version
    ensures Decode(ops[j].plaintext).Some?
    ensures Alive(I.Run(p, ops[..j + 1]), box, Decode(ops[j].plaintext).value)
  {
    hide Sim, I.Step, Machine.Answer, LegalRun, I.Run, Carries, Alive, Unrepeated;
    StepFacts(p, ops, j);
    box := EncryptBears(p, I.Run(p, ops[..j]), ops[j]);
  }

  // ------------------------------------------------------------------ the theorems

  /** Request `k` asks to decrypt the token request `j` returned. */
  predicate Presents(p: Prims, ops: seq<Op>, j: nat, k: nat) {
    && EncryptedAt(p, ops, j) && j < k < |ops|
    && ops[k].DecryptData? && ops[k].token == Machine.Answer(p, ops, j).token
  }

  /** Tokens outlive rotation.  In every run, whatever any user creates, rotates,
      encrypts or revokes and however often the vault is locked and restarted, a token
      returned at version N decrypts to its plaintext with version N whenever the vault
      is open and its key has not been revoked since.  The one exception: the parser
      refuses a version of ten digits, which the printer writes. */
  lemma TokensOutliveRotation(p: Prims, ops: seq<Op>, j: nat, k: nat)
    requires LegalRun(p, ops) && Presents(p, ops, j, k) && ops[k].user == ops[j].user
    requires OpenByAnswers(p, ops[..k])
    requires NotRevoked(p, ops, j, k, (ops[j].user, ops[j].name))
    ensures Decode(ops[j].plaintext).Some?
    ensures var version := Machine.Answer(p, ops, j).version;
            Machine.Answer(p, ops, k)
            == if version <= MAX_PARSED_VERSION
               then Decrypted(ops[j].name, version, Encode(Decode(ops[j].plaintext).value))
               else Failed(MalformedCiphertext)
  {
    hide Sim, Unrepeated, Machine.Answer, LegalRun, I.Run, Carries, Alive, OpenByAnswers, I.DecryptData;
    var box := Born(p, ops, j);
    var plaintext := Decode(ops[j].plaintext).value;
    StaysAlive(p, ops, j + 1, k, box, plaintext);
    StepFacts(p, ops, k);
    PrefixLegal(p, ops, k);
    OpenExactlyWhenUnlocked(p, ops[..k]);
    AliveDecrypts(I.Run(p, ops[..k]), box, plaintext, ops[k].token);
  }

  /** Revocation is final.  Once the key is revoked, its earlier tokens never decrypt
      again, for anybody, in any continuation, even when the name is created anew and
      rotated past the old version. */
  lemma RevocationIsFinal(p: Prims, ops: seq<Op>, j: nat, k: nat)
    requires LegalRun(p, ops) && Presents(p, ops, j, k)
    requires !NotRevoked(p, ops, j, k, (ops[j].user, ops[j].name))
    ensures Machine.Answer(p, ops, k).Failed?
  {
    hide Sim, Machine.Answer, LegalRun, I.Run, Carries, Alive, Distinct, DistinctNonces, MintedBoxes, I.DecryptData;
    var box := Born(p, ops, j);
    SinceNext(p, ops, j, k, (ops[j].user, ops[j].name));
    AliveOrDead(p, ops, j + 1, k, box, Decode(ops[j].plaintext).value);
    StepFacts(p, ops, k);
    OthersFail(I.Run(p, ops[..k]), box, ops[k].token, ops[k].user);
  }

  lemma SinceNext(p: Prims, ops: seq<Op>, j: nat, k: nat, key: Key)
    requires j < k <= |ops| && !NotRevoked(p, ops, j, k, key) && ops[j].EncryptData?
    ensures !NotRevoked(p, ops, j + 1, k, key)
  {
    hide Machine.Answer;
  }

  /** A token opens for its owner only. */
  lemma TokensOpenForTheirOwner(p: Prims, ops: seq<Op>, j: nat, k: nat)
    requires LegalRun(p, ops) && Presents(p, ops, j, k) && ops[k].user != ops[j].user
    ensures Machine.Answer(p, ops, k).Failed?
  {
    hide Sim, Machine.Answer, LegalRun, I.Run, Carries, Distinct, DistinctNonces, MintedBoxes, I.DecryptData,
      At, ValidName;
    var box := Born(p, ops, j);
    AliveOrDead(p, ops, j + 1, k, box, Decode(ops[j].plaintext).value);
    StepFacts(p, ops, k);
    OthersFail(I.Run(p, ops[..k]), box, ops[k].token, ops[k].user);
  }

  lemma LockedFails(p: Prims, ops: seq<Op>, k: nat)
    requires LegalRun(p, ops) && k < |ops| && ops[k].DecryptData? && !OpenByAnswers(p, ops[..k])
    ensures Machine.Answer(p, ops, k).Failed?
  {
    hide Sim, Unrepeated, Machine.Answer, LegalRun, I.Run, OpenByAnswers, Parse, ValidName, Encode;
    StepFacts(p, ops, k);
    PrefixLegal(p, ops, k);
    OpenExactlyWhenUnlocked(p, ops[..k]);
  }

  /** The whole life of a token, as one equivalence: presenting it succeeds exactly when
      the vault is open, the caller is its owner, its key was not revoked in between
      and its version has at most nine digits. */
  lemma DecryptsExactlyWhen(p: Prims, ops: seq<Op>, j: nat, k: nat)
    requires LegalRun(p, ops) && Presents(p, ops, j, k)
    ensures Machine.Answer(p, ops, k).Decrypted?
      <==> OpenByAnswers(p, ops[..k]) && ops[k].user == ops[j].user
           && NotRevoked(p, ops, j, k, (ops[j].user, ops[j].name))
           && Machine.Answer(p, ops, j).version <= MAX_PARSED_VERSION
  {
    hide Machine.Answer, LegalRun, OpenByAnswers, NotRevoked;
    if !OpenByAnswers(p, ops[..k]) {
      LockedFails(p, ops, k);
    } else if ops[k].user != ops[j].user {
      TokensOpenForTheirOwner(p, ops, j, k);
    } else if !NotRevoked(p, ops, j, k, (ops[j].user, ops[j].name)) {
      RevocationIsFinal(p, ops, j, k);
    } else {
      TokensOutliveRotation(p, ops, j, k);
    }
  }
}
