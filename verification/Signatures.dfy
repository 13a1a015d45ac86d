/** Signing and verifying over whole runs: what a verification answers is decided by
    the signatures the key was asked to make. */
module Signatures {
  import opened Text
  import opened Base64
  import opened TransitToken
  import opened VersionedTables
  import opened World
  import opened IdealFrames
  import opened Simulation
  import opened Refinement
  import opened DekForLife
  import opened Tokens
  import Machine
  import T = TransitEngine
  import I = Ideal

  /** One signature: made for `key` at `version` over `digest`. */
  datatype Made = Made(key: Key, version: int, digest: Bytes, signature: Bytes)

  /** What is signed of a message: the SHA-256 of the bytes of a RAW one, and of a DIGEST
      those bytes themselves, thirty-two of them. */
  ghost predicate IsDigest(p: Prims, message: string, kind: string, digest: Bytes) {
    && Decode(message).Some?
    && ((IsUppered(kind, "RAW") && digest == p.sha256(Decode(message).value))
        || (IsUppered(kind, "DIGEST") && |Decode(message).value| == 32 && digest == Decode(message).value))
  }

  /** A message is digested so, or refused: first for its base64, then for its type, then
      for its length. */
  lemma DigestMeans(p: Prims, message: string, kind: string)
    ensures forall digest :: T.MessageDigest(p, message, kind) == T.Ok(digest) <==> IsDigest(p, message, kind, digest)
    ensures T.MessageDigest(p, message, kind) == T.Err(InvalidBase64Payload) <==> Decode(message).None?
    ensures T.MessageDigest(p, message, kind) == T.Err(InvalidMessageType)
       <==> Decode(message).Some? && !IsUppered(kind, "RAW") && !IsUppered(kind, "DIGEST")
    ensures T.MessageDigest(p, message, kind) == T.Err(InvalidDigestLength)
       <==> Decode(message).Some? && IsUppered(kind, "DIGEST") && |Decode(message).value| != 32
  {
    hide Decode, Upper, IsUppered;
    LowerMeans(kind, "RAW");
    LowerMeans(kind, "DIGEST");
  }

  lemma DigestOk(p: Prims, message: string, kind: string)
    ensures forall digest :: T.MessageDigest(p, message, kind) == T.Ok(digest) <==> IsDigest(p, message, kind, digest)
  {
    hide T.MessageDigest, IsDigest;
    DigestMeans(p, message, kind);
  }

  /** A message has one digest. */
  lemma OneDigest(p: Prims, message: string, kind: string, digest: Bytes, other: Bytes)
    requires IsDigest(p, message, kind, digest) && IsDigest(p, message, kind, other)
    ensures digest == other
  {
    hide IsDigest, T.MessageDigest;
    DigestMeans(p, message, kind);
  }

  ghost predicate Signs(p: Prims, op: Op, answer: Resp, g: Made) {
    && op.Sign? && (op.user, op.name) == g.key && answer.Signed? && answer.version == g.version
    && IsDigest(p, op.message, op.messageType, g.digest) && op.signed == g.signature
  }

  /** The run made this signature and has not revoked its key since. */
  ghost predicate SignedSince(p: Prims, ops: seq<Op>, g: Made) {
    && ops != []
    && var n := |ops| - 1;
    && var answer := Machine.Answer(p, ops, n);
    && (Signs(p, ops[n], answer, g) || (!Revokes(ops[n], answer, g.key) && SignedSince(p, ops[..n], g)))
  }

  ghost predicate Accepted(i: I.State, g: Made) {
    I.Accepts(i, g.key, g.digest, g.signature, g.version)
  }

  // -------------------------------------------------------------- one step at a time

  lemma SignedIsMinted(p: Prims, s: Sys, i: I.State)
    requires Sim(p, s, i)
    ensures forall b :: b in i.signed ==> b.material in s.minted
  {
    hide SimVault, SimKv, SimKeys, SimSealed, HasSigner;
  }

  lemma SignStep(p: Prims, s: Sys, i: I.State, op: Op, g: Made)
    requires Sim(p, s, i) && Distinct(i.keys) && op.Sign?
    ensures Accepted(I.Step(p, i, op).0, g) <==> Signs(p, op, I.Step(p, i, op).1, g) || Accepted(i, g)
  {
    hide Sim, ValidName, Upper, Encode, T.MessageDigest, IsDigest;
    DigestOk(p, op.message, op.messageType);
    var key := (op.user, op.name);
    if key in i.keys && i.keys[key].entries != [] {
      var n := |i.keys[key].entries|;
      assert At(i.keys, key, n, i.keys[key].entries[n - 1].data);
    }
    if g.key in i.keys && 1 <= g.version <= |i.keys[g.key].entries| {
      assert At(i.keys, g.key, g.version, i.keys[g.key].entries[g.version - 1].data);
    }
  }

  ghost predicate AcceptedAt(i: I.State, g: Made, material: Bytes) {
    At(i.keys, g.key, g.version, material) && I.ISigned(g.key.0, material, g.digest, g.signature) in i.signed
  }

  lemma AcceptedBy(i: I.State, g: Made)
    ensures Accepted(i, g) <==> exists m :: AcceptedAt(i, g, m)
  {
    if Accepted(i, g) {
      assert AcceptedAt(i, g, i.keys[g.key].entries[g.version - 1].data);
    }
  }

  lemma KeyStep(p: Prims, s: Sys, i: I.State, op: Op, g: Made)
    requires Sim(p, s, i) && Legal(p, s, op) && !op.Sign?
    ensures Accepted(I.Step(p, i, op).0, g) <==> Accepted(i, g) && !Revokes(op, I.Step(p, i, op).1, g.key)
  {
    hide Sim, I.Step, I.Accepts, Accepted;
    var i' := I.Step(p, i, op).0;
    StepFrame(p, i, op);
    AnyMoves(p, i, op);
    SignedIsMinted(p, s, i);
    AcceptedBy(i, g);
    AcceptedBy(i', g);
    forall m | AcceptedAt(i', g, m) ensures AcceptedAt(i, g, m) {
      assert At(i'.keys, g.key, g.version, m);
    }
    if !Revokes(op, I.Step(p, i, op).1, g.key) {
      forall m | AcceptedAt(i, g, m) ensures AcceptedAt(i', g, m) {
        assert At(i.keys, g.key, g.version, m);
      }
    }
  }

  /** Accepted signatures are those made and not revoked. */
  lemma {:induction false} AcceptedWasSigned(p: Prims, ops: seq<Op>, g: Made)
    requires LegalRun(p, ops)
    ensures Accepted(I.Run(p, ops), g) <==> SignedSince(p, ops, g)
  {
    hide Sim, Legal, LegalRun, I.Step, Machine.Answer, Accepted, Signs, Distinct, DistinctNonces, MintedBoxes;
    if ops == [] {
      StartAccepts(g);
    } else {
      var n := |ops| - 1;
      PrefixLegal(p, ops, n);
      AcceptedWasSigned(p, ops[..n], g);
      StepFacts(p, ops, n);
      if ops[n].Sign? {
        SignStep(p, Machine.Run(p, ops[..n]), I.Run(p, ops[..n]), ops[n], g);
      } else {
        KeyStep(p, Machine.Run(p, ops[..n]), I.Run(p, ops[..n]), ops[n], g);
        SignsOnlySigning(p, ops[n], Machine.Answer(p, ops, n), g);
      }
    }
  }

  lemma StartAccepts(g: Made)
    ensures !Accepted(I.START, g)
  {
  }

  lemma SignsOnlySigning(p: Prims, op: Op, answer: Resp, g: Made)
    ensures Signs(p, op, answer, g) ==> op.Sign?
  {
  }

  // ------------------------------------------------------------- what verify answers

  /** The verdict on a signature, from the signatures made so far: a pinned version is
      judged alone, otherwise the greatest version that made it is reported. */
  ghost predicate RightVerdict(p: Prims, ops: seq<Op>, op: Op, digest: Bytes, matched: Option<int>)
    requires op.VerifySignature?
  {
    var key := (op.user, op.name);
    match Decode(op.signature)
    case None => matched == None
    case Some(sig) =>
      if op.version.Some? then
        matched == if SignedSince(p, ops, Made(key, op.version.value, digest, sig)) then op.version else None
      else
        && (matched.Some? ==> SignedSince(p, ops, Made(key, matched.value, digest, sig)))
        && forall w :: SignedSince(p, ops, Made(key, w, digest, sig)) ==> matched.Some? && w <= matched.value
  }

  ghost predicate IdealVerdict(i: I.State, op: Op, digest: Bytes, matched: Option<int>)
    requires op.VerifySignature?
  {
    var key := (op.user, op.name);
    match Decode(op.signature)
    case None => matched == None
    case Some(sig) =>
      if op.version.Some? then
        matched == if Accepted(i, Made(key, op.version.value, digest, sig)) then op.version else None
      else
        && (matched.Some? ==> Accepted(i, Made(key, matched.value, digest, sig)))
        && forall w :: Accepted(i, Made(key, w, digest, sig)) ==> matched.Some? && w <= matched.value
  }

  lemma NewestIsGreatest(i: I.State, key: Key, digest: Bytes, sig: Bytes)
    requires key in i.keys
    ensures var v := I.Newest(i, key, digest, sig, |i.keys[key].entries|);
            && (v.Some? ==> Accepted(i, Made(key, v.value, digest, sig)))
            && forall w :: Accepted(i, Made(key, w, digest, sig)) ==> v.Some? && w <= v.value
  {
    hide I.Newest;
    var n := |i.keys[key].entries|;
    var v := I.Newest(i, key, digest, sig, n);
    forall w | Accepted(i, Made(key, w, digest, sig)) ensures v.Some? && w <= v.value {
      assert I.Accepts(i, key, digest, sig, w);
    }
  }

  lemma IdealVerifies(p: Prims, i: I.State, op: Op)
    requires op.VerifySignature? && I.Step(p, i, op).1.Verified?
    ensures var answer := I.Step(p, i, op).1;
            && answer.name == op.name && answer.algorithm == "ED25519" && answer.valid == answer.matched.Some?
            && exists digest ::
                 IsDigest(p, op.message, op.messageType, digest) && IdealVerdict(i, op, digest, answer.matched)
  {
    hide Decode, Upper, T.MessageDigest, I.Newest, I.Accepts, ValidName, IsDigest;
    DigestOk(p, op.message, op.messageType);
    var digest := T.MessageDigest(p, op.message, op.messageType).value;
    if Decode(op.signature).Some? {
      NewestIsGreatest(i, (op.user, op.name), digest, Decode(op.signature).value);
    }
  }

  lemma VerdictsAgree(p: Prims, ops: seq<Op>, op: Op, digest: Bytes, matched: Option<int>)
    requires LegalRun(p, ops) && op.VerifySignature? && IdealVerdict(I.Run(p, ops), op, digest, matched)
    ensures RightVerdict(p, ops, op, digest, matched)
  {
    hide Decode, Accepted, SignedSince, LegalRun, I.Run;
    forall g: Made ensures Accepted(I.Run(p, ops), g) <==> SignedSince(p, ops, g) {
      AcceptedWasSigned(p, ops, g);
    }
  }

  /** Verification tells the truth.  In every run, a verification that gives a verdict
      reports exactly what the run signed: the greatest version under which this key
      made this signature over the message's digest, and none exactly when it made none;
      asked about one version it judges that version only. */
  lemma VerifyTellsTheTruth(p: Prims, ops: seq<Op>, k: nat)
    requires LegalRun(p, ops) && k < |ops| && ops[k].VerifySignature? && Machine.Answer(p, ops, k).Verified?
    ensures var op, answer := ops[k], Machine.Answer(p, ops, k);
            && answer.name == op.name && answer.algorithm == "ED25519" && answer.valid == answer.matched.Some?
            && exists digest :: IsDigest(p, op.message, op.messageType, digest)
                             && RightVerdict(p, ops[..k], op, digest, answer.matched)
  {
    hide Sim, Unrepeated, LegalRun, Machine.Answer, I.Run, I.Step, IdealVerdict, RightVerdict, IsDigest;
    var op, answer := ops[k], Machine.Answer(p, ops, k);
    StepFacts(p, ops, k);
    IdealVerifies(p, I.Run(p, ops[..k]), op);
    PrefixLegal(p, ops, k);
    var digest :| IsDigest(p, op.message, op.messageType, digest)
               && IdealVerdict(I.Run(p, ops[..k]), op, digest, answer.matched);
    VerdictsAgree(p, ops[..k], op, digest, answer.matched);
  }

  /** Request `j` made signature `g`, and its key was not revoked before request `k`. */
  ghost predicate MadeAndKept(p: Prims, ops: seq<Op>, j: nat, k: nat, g: Made) {
    j < k <= |ops| && Signs(p, ops[j], Machine.Answer(p, ops, j), g) && NotRevoked(p, ops, j, k, g.key)
  }

  lemma KeptLonger(p: Prims, ops: seq<Op>, j: nat, g: Made)
    requires ops != [] && j < |ops| - 1
    ensures MadeAndKept(p, ops, j, |ops|, g)
       <==> MadeAndKept(p, ops[..|ops| - 1], j, |ops| - 1, g)
            && !Revokes(ops[|ops| - 1], Machine.Answer(p, ops, |ops| - 1), g.key)
  {
    hide Machine.Step, Machine.Run, Signs, Revokes;
    var n := |ops| - 1;
    forall m: nat | m < n ensures Machine.Answer(p, ops[..n], m) == Machine.Answer(p, ops, m) {
      assert ops[..n][..m] == ops[..m];
    }
  }

  lemma MadeLast(p: Prims, ops: seq<Op>, g: Made)
    requires ops != []
    ensures MadeAndKept(p, ops, |ops| - 1, |ops|, g) <==> Signs(p, ops[|ops| - 1], Machine.Answer(p, ops, |ops| - 1), g)
  {
    hide Machine.Answer, IsDigest;
  }

  /** The two ways to say that a signature stands: step by step, and by the request that
      made it. */
  lemma {:induction false} SignedSinceMeans(p: Prims, ops: seq<Op>, g: Made)
    ensures SignedSince(p, ops, g) <==> exists j: nat :: MadeAndKept(p, ops, j, |ops|, g)
  {
    hide Machine.Answer, Signs, Revokes, MadeAndKept;
    if ops == [] {
      NothingMade(p, g);
    } else {
      var n := |ops| - 1;
      SignedSinceMeans(p, ops[..n], g);
      MadeLast(p, ops, g);
      forall j: nat | MadeAndKept(p, ops, j, |ops|, g) ensures SignedSince(p, ops, g) {
        MadeBefore(p, ops, j, g);
        if j < n {
          KeptLonger(p, ops, j, g);
        }
      }
      if SignedSince(p, ops[..n], g) && !Revokes(ops[n], Machine.Answer(p, ops, n), g.key) {
        var j: nat :| MadeAndKept(p, ops[..n], j, n, g);
        MadeBefore(p, ops[..n], j, g);
        KeptLonger(p, ops, j, g);
      }
    }
  }

  lemma NothingMade(p: Prims, g: Made)
    ensures forall j: nat :: !MadeAndKept(p, [], j, 0, g)
  {
  }

  lemma MadeBefore(p: Prims, ops: seq<Op>, j: nat, g: Made)
    requires MadeAndKept(p, ops, j, |ops|, g)
    ensures j < |ops|
  {
  }

  /** The two messages are one: the same bytes, or a message and its SHA-256, or two
      different ones that collide under it. */
  ghost predicate SameMessage(p: Prims, a: Op, b: Op)
    requires (a.Sign? || a.VerifySignature?) && (b.Sign? || b.VerifySignature?)
  {
    && Decode(a.message).Some? && Decode(b.message).Some?
    && var x, y := Decode(a.message).value, Decode(b.message).value;
       var xRaw, yRaw := IsUppered(a.messageType, "RAW"), IsUppered(b.messageType, "RAW");
       || (x == y && xRaw == yRaw)
       || (xRaw && yRaw && x != y && p.sha256(x) == p.sha256(y))
       || (xRaw && !yRaw && p.sha256(x) == y)
       || (!xRaw && yRaw && x == p.sha256(y))
  }

  lemma SameDigestSameMessage(p: Prims, a: Op, b: Op, digest: Bytes)
    requires (a.Sign? || a.VerifySignature?) && (b.Sign? || b.VerifySignature?)
    requires IsDigest(p, a.message, a.messageType, digest) && IsDigest(p, b.message, b.messageType, digest)
    ensures SameMessage(p, a, b)
  {
    LowerMeans(a.messageType, "RAW");
    LowerMeans(a.messageType, "DIGEST");
    LowerMeans(b.messageType, "RAW");
    LowerMeans(b.messageType, "DIGEST");
    hide Decode, Upper, IsUppered;
  }

  /** No signature passes for another message.  Behind every valid verdict is an earlier
      request that made this very signature with this very key, under the version reported,
      over the same message, and the key was not revoked in between. */
  lemma ValidMeansSigned(p: Prims, ops: seq<Op>, k: nat)
    requires LegalRun(p, ops) && k < |ops| && ops[k].VerifySignature?
    requires Machine.Answer(p, ops, k).Verified? && Machine.Answer(p, ops, k).valid
    ensures var op, answer := ops[k], Machine.Answer(p, ops, k);
            exists j: nat :: && j < k && SignedAt(p, ops, j)
                             && ops[j].user == op.user && ops[j].name == op.name
                             && Some(Machine.Answer(p, ops, j).version) == answer.matched
                             && Some(ops[j].signed) == Decode(op.signature)
                             && NotRevoked(p, ops, j, k, (op.user, op.name)) && SameMessage(p, ops[j], op)
  {
    hide LegalRun, Machine.Run, Machine.Step, IsDigest, Decode, Revokes, SameMessage;
    var op, answer := ops[k], Machine.Answer(p, ops, k);
    VerifyTellsTheTruth(p, ops, k);
    var digest :| IsDigest(p, op.message, op.messageType, digest)
               && RightVerdict(p, ops[..k], op, digest, answer.matched);
    var g := Made((op.user, op.name), answer.matched.value, digest, Decode(op.signature).value);
    assert SignedSince(p, ops[..k], g);
    SignedSinceMeans(p, ops[..k], g);
    var j: nat :| MadeAndKept(p, ops[..k], j, k, g);
    forall m: nat | m < k ensures Machine.Answer(p, ops[..k], m) == Machine.Answer(p, ops, m) {
      assert ops[..k][..m] == ops[..m];
    }
    SameDigestSameMessage(p, ops[j], op, digest);
  }

  // ------------------------------------------------------- signatures live through it

  /** Request `j` made a signature. */
  predicate SignedAt(p: Prims, ops: seq<Op>, j: nat) {
    j < |ops| && ops[j].Sign? && Machine.Answer(p, ops, j).Signed?
  }

  /** The key is there, can sign, and accepts the signature. */
  ghost predicate Ready(i: I.State, g: Made) {
    && Accepted(i, g) && g.key in i.keys && i.keys[g.key].usage == T.SIGN_VERIFY && ValidName(g.key.1)
  }

  lemma SignReadies(p: Prims, i: I.State, op: Op) returns (g: Made)
    requires op.Sign? && I.Step(p, i, op).1.Signed?
    ensures Ready(I.Step(p, i, op).0, g) && Signs(p, op, I.Step(p, i, op).1, g)
    ensures I.Step(p, i, op).1.signature == Encode(g.signature)
  {
    hide ValidName, Upper, Encode, T.MessageDigest, IsDigest;
    DigestOk(p, op.message, op.messageType);
    g := Made((op.user, op.name), I.Step(p, i, op).1.version, T.MessageDigest(p, op.message, op.messageType).value,
              op.signed);
  }

  lemma ReadyStep(p: Prims, i: I.State, op: Op, g: Made)
    requires Ready(i, g) && !Revokes(op, I.Step(p, i, op).1, g.key)
    ensures Ready(I.Step(p, i, op).0, g)
  {
    hide I.Step, ValidName;
    AnyMoves(p, i, op);
    assert At(i.keys, g.key, g.version, i.keys[g.key].entries[g.version - 1].data);
    if op.Sign? {
      SignKeeps(p, i, op);
    } else {
      StepFrame(p, i, op);
    }
  }

  lemma SignKeeps(p: Prims, i: I.State, op: Op)
    requires op.Sign?
    ensures i.signed <= I.Step(p, i, op).0.signed
  {
    hide ValidName, Upper, Encode, T.MessageDigest;
  }

  lemma {:induction false} StaysReady(p: Prims, ops: seq<Op>, j: nat, k: nat, g: Made)
    requires LegalRun(p, ops) && j <= k <= |ops| && Ready(I.Run(p, ops[..j]), g) && NotRevoked(p, ops, j, k, g.key)
    ensures Ready(I.Run(p, ops[..k]), g)
  {
    hide Sim, Unrepeated, LegalRun, Machine.Answer, I.Run, I.Step, Ready;
    if j < k {
      StaysReady(p, ops, j, k - 1, g);
      StepFacts(p, ops, k - 1);
      ReadyStep(p, I.Run(p, ops[..k - 1]), ops[k - 1], g);
    }
  }

  ghost predicate SameDigest(p: Prims, a: Op, b: Op)
    requires (a.Sign? || a.VerifySignature?) && (b.Sign? || b.VerifySignature?)
  {
    exists digest :: IsDigest(p, a.message, a.messageType, digest) && IsDigest(p, b.message, b.messageType, digest)
  }

  /** Request `k` verifies what request `j` signed: the same digest, in whichever form
      the message is given, with the version pinned or not. */
  ghost predicate Rechecks(p: Prims, ops: seq<Op>, j: nat, k: nat) {
    && SignedAt(p, ops, j) && j < k < |ops|
    && var made, check, signed := ops[j], ops[k], Machine.Answer(p, ops, j);
    && check.VerifySignature? && check.user == made.user && check.name == made.name
    && check.signature == signed.signature && IsUppered(check.algorithm, "ED25519") && SameDigest(p, made, check)
    && (check.version == None || check.version == Some(signed.version))
  }

  lemma ReadyVerifies(p: Prims, i: I.State, op: Op, g: Made)
    requires Ready(i, g) && I.IsOpen(i) && op.VerifySignature? && g.key == (op.user, op.name)
    requires IsDigest(p, op.message, op.messageType, g.digest) && op.signature == Encode(g.signature)
    requires Upper(op.algorithm) == T.ED25519 && (op.version == None || op.version == Some(g.version))
    ensures I.Step(p, i, op).1.Verified?
    ensures var matched := I.Step(p, i, op).1.matched;
            && matched.Some? && matched.value >= g.version && (op.version.Some? ==> matched == op.version)
  {
    hide T.MessageDigest, Encode, Decode, Upper, ValidName, IsDigest;
    DigestOk(p, op.message, op.messageType);
    DecodeEncode(g.signature);
  }

  /** Signatures outlive rotation.  A signature verifies in every continuation in which
      its key is not revoked, whenever the vault is open, and is never reported under an
      older version than the one that made it; pinned to that version it matches it. */
  lemma SignaturesOutliveRotation(p: Prims, ops: seq<Op>, j: nat, k: nat)
    requires LegalRun(p, ops) && Rechecks(p, ops, j, k) && OpenByAnswers(p, ops[..k])
    requires NotRevoked(p, ops, j, k, (ops[j].user, ops[j].name))
    ensures var made, answer := Machine.Answer(p, ops, j), Machine.Answer(p, ops, k);
            && answer.Verified? && answer.valid && answer.matched.Some? && answer.matched.value >= made.version
            && (ops[k].version.Some? ==> answer.matched == Some(made.version))
  {
    hide Sim, Unrepeated, LegalRun, Machine.Answer, I.Run, Ready, OpenByAnswers, IsDigest, IsUppered, I.Step, Encode,
      RightVerdict, Upper;
    T.AlgorithmMeans(ops[k].algorithm);
    StepFacts(p, ops, j);
    var g := SignReadies(p, I.Run(p, ops[..j]), ops[j]);
    var digest :| IsDigest(p, ops[j].message, ops[j].messageType, digest)
               && IsDigest(p, ops[k].message, ops[k].messageType, digest);
    OneDigest(p, ops[j].message, ops[j].messageType, digest, g.digest);
    StaysReady(p, ops, j + 1, k, g);
    StepFacts(p, ops, k);
    PrefixLegal(p, ops, k);
    OpenExactlyWhenUnlocked(p, ops[..k]);
    ReadyVerifies(p, I.Run(p, ops[..k]), ops[k], g);
    VerifyTellsTheTruth(p, ops, k);
  }

  /** Signing a message and signing its SHA-256 digest are the same. */
  lemma RawIsDigest(p: Prims, message: string, raw: string, digest: string, hash: Bytes)
    requires IsUppered(raw, "RAW") && IsUppered(digest, "DIGEST") && |hash| == 32
    requires Decode(message).Some? && hash == p.sha256(Decode(message).value)
    ensures T.MessageDigest(p, message, raw) == T.MessageDigest(p, Encode(hash), digest) == T.Ok(hash)
  {
    hide Encode, Decode, IsUppered, T.MessageDigest;
    DigestMeans(p, message, raw);
    DigestMeans(p, Encode(hash), digest);
    DecodeEncode(hash);
  }
}
