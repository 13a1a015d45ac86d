/** Encryption, decryption, signing and verification answered from the requests and answers
    of a run alone, with every refusal in the order of the code. */
module DataHistory {
  import opened Text
  import opened Base64
  import opened Crypto
  import opened TransitToken
  import opened VersionedTables
  import opened World
  import opened IdealFrames
  import opened Simulation
  import opened Refinement
  import opened DekForLife
  import opened Tokens
  import opened KeyHistory
  import opened Signatures
  import Machine
  import T = TransitEngine
  import I = Ideal

  // ------------------------------------------------------------- the shared refusals

  /** Why a caller is refused the use of a key by its name, life, usage and the vault. */
  ghost function KeyRefusal(name: string, life: Option<Life>, usage: string): Option<Error> {
    if !IsName(name) then Some(InvalidKeyName)
    else if life.None? then Some(KeyUnavailable)
    else if life.value.usage != usage then Some(InvalidKeyUsage)
    else None
  }

  /** The text of a new token. */
  function TokenText(name: string, version: nat, draw: Draw): string {
    (if version == 1 then "vault:" + name + ":" else "vault:v" + Decimal(version) + ":" + name + ":")
    + Encode(draw.nonce + draw.body)
  }

  /** The answer an encryption should get. */
  ghost function EncryptAnswer(op: Op, open: bool, life: Option<Life>): Resp
    requires op.EncryptData?
  {
    var refusal := KeyRefusal(op.name, life, "ENCRYPT_DECRYPT");
    if refusal.Some? then Failed(refusal.value)
    else if !open then Failed(VaultLocked)
    else if Decode(op.plaintext).None? then Failed(InvalidBase64Payload)
    else Encrypted(op.name, life.value.versions, TokenText(op.name, life.value.versions, op.draw))
  }

  lemma {:induction false} LifeHasVersions(p: Prims, ops: seq<Op>, key: Key)
    ensures LifeOf(p, ops, key).Some? ==> LifeOf(p, ops, key).value.versions >= 1
  {
    hide Machine.Answer;
    if ops != [] {
      LifeHasVersions(p, ops[..|ops| - 1], key);
    }
  }

  lemma TokenIs(name: string, version: nat, draw: Draw)
    requires IsName(name) && version >= 1 && |draw.body| >= TAG_LENGTH
    ensures ValidName(name) && Format(name, version, Pack(draw)) == Some(TokenText(name, version, draw))
  {
    hide IsName, ValidName, Encode, Decimal, Format;
    NameMeans(name);
    FormatMeans(name, version, Pack(draw));
    PackRejoins(draw);
    assert Pack(draw).nonce + Pack(draw).ciphertext + Pack(draw).tag == draw.nonce + draw.body;
  }

  lemma IdealEncrypts(p: Prims, i: I.State, op: Op, life: Option<Life>)
    requires op.EncryptData? && |op.draw.body| >= TAG_LENGTH
    requires Lives(i.keys, (op.user, op.name), life) && (life.Some? ==> life.value.versions >= 1)
    ensures I.Step(p, i, op).1 == EncryptAnswer(op, I.IsOpen(i), life)
  {
    hide IsName, ValidName, Decode, Format, TokenText;
    NameMeans(op.name);
    if IsName(op.name) && life.Some? {
      TokenIs(op.name, life.value.versions, op.draw);
    }
  }

  /** Encryption, exactly: refused for the name, the key, its usage, the vault and the
      payload, in this order, and otherwise a token under the newest version. */
  lemma EncryptIsAnswered(p: Prims, ops: seq<Op>, k: nat)
    requires LegalRun(p, ops) && k < |ops| && ops[k].EncryptData?
    ensures Machine.Answer(p, ops, k)
         == EncryptAnswer(ops[k], OpenByAnswers(p, ops[..k]), LifeOf(p, ops[..k], (ops[k].user, ops[k].name)))
  {
    hide Machine.Answer, Machine.Run, Machine.Step, LegalRun, I.Run, I.Step, Lives, LifeOf, OpenByAnswers,
      EncryptAnswer, Sim, Unrepeated;
    var key := (ops[k].user, ops[k].name);
    StepFacts(p, ops, k);
    PrefixLegal(p, ops, k);
    TracksLife(p, ops[..k], key);
    OpenAt(p, ops, k);
    LifeHasVersions(p, ops[..k], key);
    IdealEncrypts(p, I.Run(p, ops[..k]), ops[k], LifeOf(p, ops[..k], key));
  }

  // --------------------------------------------------------------------- signatures

  /** Why signing or verifying is refused, up to the digest. */
  ghost function SigningRefusal(name: string, algorithm: string, message: string, kind: string, open: bool,
                                life: Option<Life>) : Option<Error>
  {
    var refusal := KeyRefusal(name, life, "SIGN_VERIFY");
    if refusal.Some? then refusal
    else if !IsUppered(algorithm, "ED25519") then Some(InvalidSigningAlgorithm)
    else if !open then Some(VaultLocked)
    else DigestRefusal(message, kind)
  }

  /** Why a message is refused: for its base64, its type, or its length as a digest. */
  ghost function DigestRefusal(message: string, kind: string): Option<Error> {
    if Decode(message).None? then Some(InvalidBase64Payload)
    else if !IsUppered(kind, "RAW") && !IsUppered(kind, "DIGEST") then Some(InvalidMessageType)
    else if IsUppered(kind, "DIGEST") && |Decode(message).value| != 32 then Some(InvalidDigestLength)
    else None
  }

  lemma DigestRefusalMeans(p: Prims, message: string, kind: string)
    ensures match DigestRefusal(message, kind)
            case Some(error) => T.MessageDigest(p, message, kind) == T.Err(error)
            case None => T.MessageDigest(p, message, kind).Ok?
  {
    hide T.MessageDigest, Decode, IsUppered;
    DigestMeans(p, message, kind);
    if DigestRefusal(message, kind).None? {
      var bytes := Decode(message).value;
      assert IsDigest(p, message, kind, if IsUppered(kind, "RAW") then p.sha256(bytes) else bytes);
    }
  }

  /** The answer a signing should get. */
  ghost function SignAnswer(op: Op, open: bool, life: Option<Life>): Resp
    requires op.Sign?
  {
    var refusal := SigningRefusal(op.name, op.algorithm, op.message, op.messageType, open, life);
    if refusal.Some? then Failed(refusal.value)
    else Signed(op.name, life.value.versions, "ED25519", Encode(op.signed))
  }

  /** Why verifying is refused; the last reason is a pinned version the key does not have. */
  ghost function VerifyRefusal(op: Op, open: bool, life: Option<Life>): Option<Error>
    requires op.VerifySignature?
  {
    var refusal := SigningRefusal(op.name, op.algorithm, op.message, op.messageType, open, life);
    if refusal.Some? then refusal
    else if op.version.Some? && !(1 <= op.version.value <= life.value.versions) then Some(KeyVersionUnavailable)
    else None
  }

  lemma IdealSigningRefusal(p: Prims, i: I.State, user: string, name: string, algorithm: string, message: string,
                            kind: string, life: Option<Life>)
    requires Lives(i.keys, (user, name), life)
    ensures var refusal := SigningRefusal(name, algorithm, message, kind, I.IsOpen(i), life);
            if I.OwnedError(i, user, name).Some? then refusal == I.OwnedError(i, user, name)
            else refusal == I.SigningError(p, i, user, name, message, kind, algorithm)
  {
    hide IsName, ValidName, T.MessageDigest, DigestRefusal, Upper, IsUppered;
    NameMeans(name);
    T.AlgorithmMeans(algorithm);
    DigestRefusalMeans(p, message, kind);
  }

  lemma IdealSigns(p: Prims, i: I.State, op: Op, life: Option<Life>)
    requires op.Sign? && Lives(i.keys, (op.user, op.name), life) && (life.Some? ==> life.value.versions >= 1)
    ensures I.Step(p, i, op).1 == SignAnswer(op, I.IsOpen(i), life)
  {
    hide ValidName, T.MessageDigest, Upper, Encode, I.SigningError, SigningRefusal;
    IdealSigningRefusal(p, i, op.user, op.name, op.algorithm, op.message, op.messageType, life);
  }

  lemma IdealRefusesVerify(p: Prims, i: I.State, op: Op, life: Option<Life>)
    requires op.VerifySignature? && Lives(i.keys, (op.user, op.name), life)
    ensures match VerifyRefusal(op, I.IsOpen(i), life)
            case Some(error) => I.Step(p, i, op).1 == Failed(error)
            case None => I.Step(p, i, op).1.Verified?
  {
    hide ValidName, T.MessageDigest, Upper, Decode, I.SigningError, SigningRefusal, I.Newest, I.Accepts;
    IdealSigningRefusal(p, i, op.user, op.name, op.algorithm, op.message, op.messageType, life);
  }

  /** Signing, exactly: refused for the name, the key, its usage, the algorithm, the vault
      and the message, in this order, and otherwise a signature under the newest version. */
  lemma SignIsAnswered(p: Prims, ops: seq<Op>, k: nat)
    requires LegalRun(p, ops) && k < |ops| && ops[k].Sign?
    ensures Machine.Answer(p, ops, k)
         == SignAnswer(ops[k], OpenByAnswers(p, ops[..k]), LifeOf(p, ops[..k], (ops[k].user, ops[k].name)))
  {
    hide Machine.Answer, Machine.Run, Machine.Step, LegalRun, I.Run, I.Step, Lives, LifeOf, OpenByAnswers,
      SignAnswer, Sim, Unrepeated;
    var key := (ops[k].user, ops[k].name);
    StepFacts(p, ops, k);
    PrefixLegal(p, ops, k);
    TracksLife(p, ops[..k], key);
    OpenAt(p, ops, k);
    LifeHasVersions(p, ops[..k], key);
    IdealSigns(p, I.Run(p, ops[..k]), ops[k], LifeOf(p, ops[..k], key));
  }

  /** Verification, exactly: refused as signing is, then for a pinned version the key does
      not have, and otherwise a verdict, which is the right one. */
  lemma VerifyIsAnswered(p: Prims, ops: seq<Op>, k: nat)
    requires LegalRun(p, ops) && k < |ops| && ops[k].VerifySignature?
    ensures match VerifyRefusal(ops[k], OpenByAnswers(p, ops[..k]),
                                LifeOf(p, ops[..k], (ops[k].user, ops[k].name)))
            case Some(error) => Machine.Answer(p, ops, k) == Failed(error)
            case None =>
              exists digest, matched ::
                && IsDigest(p, ops[k].message, ops[k].messageType, digest)
                && RightVerdict(p, ops[..k], ops[k], digest, matched)
                && Machine.Answer(p, ops, k) == Verified(ops[k].name, matched, "ED25519", matched.Some?)
  {
    hide Machine.Answer, Machine.Run, Machine.Step, LegalRun, I.Run, I.Step, Lives, LifeOf, OpenByAnswers,
      VerifyRefusal, Sim, Unrepeated, IsDigest, RightVerdict;
    var key := (ops[k].user, ops[k].name);
    StepFacts(p, ops, k);
    PrefixLegal(p, ops, k);
    TracksLife(p, ops[..k], key);
    OpenAt(p, ops, k);
    IdealRefusesVerify(p, I.Run(p, ops[..k]), ops[k], LifeOf(p, ops[..k], key));
    if Machine.Answer(p, ops, k).Verified? {
      VerifyTellsTheTruth(p, ops, k);
    }
  }

  // --------------------------------------------------------------------- decryption

  /** One ciphertext: sealed for `key` at `version` with this nonce and body. */
  datatype Ciphertext = Ciphertext(key: Key, version: int, draw: Draw)

  /** What one more request and its answer make of the plaintext of a ciphertext. */
  function NextSealed(plaintext: Option<Bytes>, op: Op, answer: Resp, x: Ciphertext): Option<Bytes> {
    if op.EncryptData? && answer.Encrypted? && x == Ciphertext((op.user, op.name), answer.version, op.draw) then
      Decode(op.plaintext)
    else if Revokes(op, answer, x.key) then None
    else plaintext
  }

  /** The plaintext the run sealed as this ciphertext, if its key was not revoked since. */
  function SealedSince(p: Prims, ops: seq<Op>, x: Ciphertext): Option<Bytes> {
    if ops == [] then None
    else
      var n := |ops| - 1;
      NextSealed(SealedSince(p, ops[..n], x), ops[n], Machine.Answer(p, ops, n), x)
  }

  function BoxAs(x: Ciphertext, material: Bytes): I.IBox {
    I.IBox(x.key.0, x.key.1, x.version, material, x.draw.nonce, x.draw.body)
  }

  /** The ideal state says the same of a ciphertext. */
  ghost predicate Tracked(i: I.State, x: Ciphertext, plaintext: Option<Bytes>) {
    && (plaintext.Some? ==> exists m :: At(i.keys, x.key, x.version, m))
    && forall m :: At(i.keys, x.key, x.version, m) ==>
         && (BoxAs(x, m) in i.sealed <==> plaintext.Some?)
         && (plaintext.Some? ==> i.sealed[BoxAs(x, m)] == plaintext.value)
  }

  lemma EncryptTracks(p: Prims, i: I.State, op: Op, x: Ciphertext, plaintext: Option<Bytes>)
    requires op.EncryptData? && Tracked(i, x, plaintext)
    ensures Tracked(I.Step(p, i, op).0, x, NextSealed(plaintext, op, I.Step(p, i, op).1, x))
  {
    hide ValidName, Decode, Format;
    var after := I.Step(p, i, op).0;
    assert after.keys == i.keys;
    if I.Step(p, i, op).1.Encrypted? {
      var n := |i.keys[(op.user, op.name)].entries|;
      assert At(i.keys, (op.user, op.name), n, i.keys[(op.user, op.name)].entries[n - 1].data);
    }
  }

  /** Material a request mints is under no box, and its version was not there. */
  lemma MintIsFresh(p: Prims, s: Sys, i: I.State, op: Op)
    requires Sim(p, s, i) && Legal(p, s, op) && Unrepeated(s, i) && MintsKey(op)
    ensures forall box :: box in i.sealed ==> box.material != op.mint.material
    ensures forall key, v :: !At(i.keys, key, v, op.mint.material)
  {
    hide Sim, At, Distinct, DistinctNonces, ValidName;
    InUseIsMinted(p, s, i);
  }

  lemma AtIsOne(keys: map<Key, I.KeyRecord>, key: Key, v: int, m: Bytes, m': Bytes)
    requires At(keys, key, v, m)
    ensures At(keys, key, v, m') <==> m' == m
    ensures v <= |keys[key].entries|
  {
  }

  lemma AtNeedsKey(keys: map<Key, I.KeyRecord>, key: Key, v: int)
    requires key !in keys
    ensures forall m :: !At(keys, key, v, m)
  {
  }

  lemma KeysTrack(p: Prims, s: Sys, i: I.State, op: Op, x: Ciphertext, plaintext: Option<Bytes>)
    requires Sim(p, s, i) && Legal(p, s, op) && Unrepeated(s, i) && !op.EncryptData? && Tracked(i, x, plaintext)
    ensures Tracked(I.Step(p, i, op).0, x, NextSealed(plaintext, op, I.Step(p, i, op).1, x))
  {
    hide Sim, Legal, Unrepeated, I.Step, At, ValidName;
    var after, answer := I.Step(p, i, op).0, I.Step(p, i, op).1;
    StepFrame(p, i, op);
    AnyMoves(p, i, op);
    if MintsKey(op) {
      MintIsFresh(p, s, i, op);
    }
    if plaintext.Some? {
      var m :| At(i.keys, x.key, x.version, m);
      if Revokes(op, answer, x.key) {
        AtNeedsKey(after.keys, x.key, x.version);
      } else {
        forall m' | At(after.keys, x.key, x.version, m') ensures m' == m {
          AtIsOne(after.keys, x.key, x.version, m, m');
        }
      }
    }
  }

  lemma {:induction false} SealedIsTracked(p: Prims, ops: seq<Op>, x: Ciphertext)
    requires LegalRun(p, ops)
    ensures Tracked(I.Run(p, ops), x, SealedSince(p, ops, x))
  {
    hide Sim, Legal, Unrepeated, I.Step, Machine.Answer, LegalRun, Tracked, NextSealed;
    if ops == [] {
      NothingTracked(x);
    } else {
      var n := |ops| - 1;
      PrefixLegal(p, ops, n);
      SealedIsTracked(p, ops[..n], x);
      StepFacts(p, ops, n);
      assert ops[..n + 1] == ops;
      var i := I.Run(p, ops[..n]);
      if ops[n].EncryptData? {
        EncryptTracks(p, i, ops[n], x, SealedSince(p, ops[..n], x));
      } else {
        KeysTrack(p, Machine.Run(p, ops[..n]), i, ops[n], x, SealedSince(p, ops[..n], x));
      }
    }
  }

  lemma NothingTracked(x: Ciphertext)
    ensures Tracked(I.START, x, None)
  {
  }

  /** The ciphertext a token carries, for the caller who presents it. */
  function Carried(user: string, t: Token): Ciphertext {
    Ciphertext((user, t.name), t.version, Draw(t.blob.nonce, t.blob.ciphertext + t.blob.tag))
  }

  /** The answer a decryption of this token should get. */
  function DecryptAnswer(t: Token, open: bool, life: Option<Life>, plaintext: Option<Bytes>): Resp {
    if life.None? then Failed(KeyUnavailable)
    else if life.value.usage != "ENCRYPT_DECRYPT" then Failed(InvalidKeyUsage)
    else if !open then Failed(VaultLocked)
    else if t.version > life.value.versions then Failed(KeyVersionUnavailable)
    else if plaintext.None? then Failed(TransitTampered)
    else Decrypted(t.name, t.version, Encode(plaintext.value))
  }

  lemma IdealDecrypts(p: Prims, i: I.State, op: Op, t: Token, life: Option<Life>, plaintext: Option<Bytes>)
    requires op.DecryptData? && Parse(op.token) == Some(t) && ValidName(t.name) && t.version >= 1
    requires Lives(i.keys, (op.user, t.name), life) && Tracked(i, Carried(op.user, t), plaintext)
    ensures I.Step(p, i, op).1 == DecryptAnswer(t, I.IsOpen(i), life, plaintext)
  {
    hide Parse, ValidName, Encode;
    var key := (op.user, t.name);
    if key in i.keys && t.version <= |i.keys[key].entries| {
      assert At(i.keys, key, t.version, i.keys[key].entries[t.version - 1].data);
    }
  }

  lemma IdealMalformed(p: Prims, i: I.State, op: Op)
    requires op.DecryptData? && Parse(op.token) == None
    ensures I.Step(p, i, op).1 == Failed(MalformedCiphertext)
  {
    hide Parse;
  }

  /** Decryption, exactly: a text that frames no token is refused before any key is looked
      up; a framed one is refused for the key, its usage, the vault and the version, in this
      order, and otherwise opens to what the run sealed as this very ciphertext under this
      key and version and has not revoked since; all else is refused as tampered. */
  lemma DecryptIsAnswered(p: Prims, ops: seq<Op>, k: nat)
    requires LegalRun(p, ops) && k < |ops| && ops[k].DecryptData?
    ensures (forall t, payload :: !Frames(ops[k].token, t, payload)) ==>
              Machine.Answer(p, ops, k) == Failed(MalformedCiphertext)
    ensures forall t, payload :: Frames(ops[k].token, t, payload) ==>
              Machine.Answer(p, ops, k)
              == DecryptAnswer(t, OpenByAnswers(p, ops[..k]), LifeOf(p, ops[..k], (ops[k].user, t.name)),
                               SealedSince(p, ops[..k], Carried(ops[k].user, t)))
  {
    hide Machine.Answer, Machine.Run, Machine.Step, LegalRun, I.Run, I.Step, Lives, LifeOf, OpenByAnswers,
      DecryptAnswer, Sim, Unrepeated, Frames, Parse, Tracked, SealedSince, ValidName;
    StepFacts(p, ops, k);
    PrefixLegal(p, ops, k);
    OpenAt(p, ops, k);
    forall t, payload | Frames(ops[k].token, t, payload)
      ensures Machine.Answer(p, ops, k)
           == DecryptAnswer(t, OpenByAnswers(p, ops[..k]), LifeOf(p, ops[..k], (ops[k].user, t.name)),
                            SealedSince(p, ops[..k], Carried(ops[k].user, t)))
    {
      FramedParses(ops[k].token, t, payload);
      ParseAccepts(ops[k].token);
      TracksLife(p, ops[..k], (ops[k].user, t.name));
      SealedIsTracked(p, ops[..k], Carried(ops[k].user, t));
      IdealDecrypts(p, I.Run(p, ops[..k]), ops[k], t, LifeOf(p, ops[..k], (ops[k].user, t.name)),
                    SealedSince(p, ops[..k], Carried(ops[k].user, t)));
    }
    if Parse(ops[k].token) == None {
      IdealMalformed(p, I.Run(p, ops[..k]), ops[k]);
    } else {
      ParsedIsFramed(ops[k].token);
    }
  }
}
