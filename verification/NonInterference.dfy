/** One user's answers do not depend on what other users do. */
module NonInterference {
  import opened Text
  import opened Base64
  import Crypto
  import opened Names
  import opened TransitToken
  import opened VersionedTables
  import opened World
  import opened Refinement
  import KvPaths
  import Machine
  import T = TransitEngine
  import I = Ideal

  /** A request `user` made, or one of the shared vault steps. */
  predicate Visible(op: Op, user: string) {
    IsVaultOp(op) || op.user == user
  }

  /** The run without anybody else's requests. */
  function Purge(ops: seq<Op>, user: string): seq<Op> {
    if ops == [] then []
    else
      var rest, op := Purge(ops[..|ops| - 1], user), ops[|ops| - 1];
      if Visible(op, user) then rest + [op] else rest
  }

  /** The answers to the visible requests of a run, in order. */
  function Answers(p: Prims, ops: seq<Op>, user: string): seq<Resp> {
    if ops == [] then []
    else
      var before, op := ops[..|ops| - 1], ops[|ops| - 1];
      var rest := Answers(p, before, user);
      if Visible(op, user) then rest + [Machine.Step(p, Machine.Run(p, before), op).1] else rest
  }

  function IdealAnswers(p: Prims, ops: seq<Op>, user: string): seq<Resp> {
    if ops == [] then []
    else
      var before, op := ops[..|ops| - 1], ops[|ops| - 1];
      var rest := IdealAnswers(p, before, user);
      if Visible(op, user) then rest + [I.Step(p, I.Run(p, before), op).1] else rest
  }

  ghost predicate SameFor<V>(a: map<Key, V>, b: map<Key, V>, user: string) {
    forall name: string ::
      ((user, name) in a <==> (user, name) in b) && ((user, name) in a ==> a[(user, name)] == b[(user, name)])
  }

  ghost predicate SameSealed(a: map<I.IBox, Bytes>, b: map<I.IBox, Bytes>, user: string) {
    forall box: I.IBox :: box.owner == user ==>
      (box in a <==> box in b) && (box in a ==> a[box] == b[box])
  }

  ghost predicate SameSigned(a: set<I.ISigned>, b: set<I.ISigned>, user: string) {
    forall g: I.ISigned :: g.owner == user ==> (g in a <==> g in b)
  }

  /** Two states that look the same to `user`. */
  ghost predicate SameView(a: I.State, b: I.State, user: string) {
    && a.vault == b.vault
    && SameFor(a.kv, b.kv, user)
    && SameFor(a.keys, b.keys, user)
    && SameSealed(a.sealed, b.sealed, user)
    && SameSigned(a.signed, b.signed, user)
  }

  ghost predicate SameOutcome(x: (I.State, Resp), y: (I.State, Resp), user: string) {
    x.1 == y.1 && SameView(x.0, y.0, user)
  }

  lemma SameForPut<V>(a: map<Key, V>, b: map<Key, V>, user: string, key: Key, v: V)
    requires SameFor(a, b, user)
    ensures SameFor(a[key := v], b[key := v], user)
    ensures key.0 != user ==> SameFor(a, b[key := v], user)
  {
  }

  lemma SameForRemove<V>(a: map<Key, V>, b: map<Key, V>, user: string, key: Key)
    requires SameFor(a, b, user)
    ensures SameFor(a - {key}, b - {key}, user)
    ensures key.0 != user ==> SameFor(a, b - {key}, user)
  {
  }

  lemma SameViewSelf(a: I.State, user: string)
    ensures SameView(a, a, user)
  {
  }

  lemma SameViewTransitive(a: I.State, b: I.State, c: I.State, user: string)
    requires SameView(a, b, user) && SameView(b, c, user)
    ensures SameView(a, c, user)
  {
  }

  // --------------------------------------------- other users' requests are unseen

  /** Somebody else's request changes nothing `user` can see. */
  lemma OthersUnseen(p: Prims, s: I.State, op: Op, user: string)
    requires !Visible(op, user)
    ensures SameView(s, I.Step(p, s, op).0, user)
  {
    hide SameView, I.Write, I.Delete, I.CreateKey, I.CreateSigning, I.RotateKey, I.DeleteKey, I.EncryptData, I.Sign;
    SameViewSelf(s, user);
    match op
    case KvWrite(other, path, data, now, _) => WriteUnseen(s, user, other, path, data, now);
    case KvDelete(other, path, _) => DeleteUnseen(s, user, other, path);
    case CreateKey(other, name, now, mint) => InstallUnseen(s, user, other, name, "", now, mint.material);
    case CreateSigningKey(other, name, algorithm, now, mint) =>
      InstallUnseen(s, user, other, name, algorithm, now, mint.material);
    case RotateKey(other, name, now, mint) => RotateUnseen(s, user, other, name, now, mint.material);
    case DeleteKey(other, name, _) => RevokeUnseen(s, user, other, name);
    case EncryptData(other, name, text, _, draw) => EncryptUnseen(s, user, other, name, text, draw);
    case Sign(other, name, message, kind, algorithm, _, signed) =>
      SignUnseen(p, s, user, other, name, message, kind, algorithm, signed);
    case _ =>
  }

  lemma WriteUnseen(s: I.State, user: string, other: string, path: string, data: Bytes, now: string)
    requires other != user
    ensures SameView(s, I.Write(s, other, path, data, now).0, user)
  {
    hide KvPaths.Authorized;
  }

  lemma DeleteUnseen(s: I.State, user: string, other: string, path: string)
    requires other != user
    ensures SameView(s, I.Delete(s, other, path).0, user)
  {
    hide KvPaths.Authorized;
  }

  lemma InstallUnseen(s: I.State, user: string, other: string, name: string, algorithm: string, now: string,
                      material: Bytes)
    requires other != user
    ensures SameView(s, I.CreateKey(s, other, name, now, material).0, user)
    ensures SameView(s, I.CreateSigning(s, other, name, algorithm, now, material).0, user)
  {
    hide ValidName, Upper, I.InfoOf;
  }

  lemma RotateUnseen(s: I.State, user: string, other: string, name: string, now: string, material: Bytes)
    requires other != user
    ensures SameView(s, I.RotateKey(s, other, name, now, material).0, user)
  {
    hide ValidName, I.InfoOf;
  }

  lemma RevokeUnseen(s: I.State, user: string, other: string, name: string)
    requires other != user
    ensures SameView(s, I.DeleteKey(s, other, name).0, user)
  {
    hide ValidName;
  }

  lemma EncryptUnseen(s: I.State, user: string, other: string, name: string, text: string, draw: Crypto.Draw)
    requires other != user
    ensures SameView(s, I.EncryptData(s, other, name, text, draw).0, user)
  {
    hide ValidName, Decode, Format;
  }

  lemma SignUnseen(p: Prims, s: I.State, user: string, other: string, name: string, message: string, kind: string,
                   algorithm: string, signed: Bytes)
    requires other != user
    ensures SameView(s, I.Sign(p, s, other, name, message, kind, algorithm, signed).0, user)
  {
    hide ValidName, I.SigningError, T.MessageDigest, Encode;
  }

  // -------------------------------------- visible requests are answered the same

  lemma VaultSeen(p: Prims, a: I.State, b: I.State, op: Op, user: string)
    requires SameView(a, b, user) && IsVaultOp(op)
    ensures SameOutcome(I.Step(p, a, op), I.Step(p, b, op), user)
  {
    hide I.Initialize, I.Unlock, I.Lock;
  }

  lemma WriteSeen(a: I.State, b: I.State, user: string, path: string, data: Bytes, now: string)
    requires SameView(a, b, user)
    ensures SameOutcome(I.Write(a, user, path, data, now), I.Write(b, user, path, data, now), user)
  {
    hide KvPaths.Authorized;
    var r := I.Write(a, user, path, data, now).0.kv;
    if (user, path) in r {
      SameForPut(a.kv, b.kv, user, (user, path), r[(user, path)]);
    }
  }

  lemma ReadSeen(a: I.State, b: I.State, user: string, path: string, version: Option<int>)
    requires SameView(a, b, user)
    ensures I.Read(a, user, path, version) == I.Read(b, user, path, version)
    ensures I.ListHistory(a, user, path) == I.ListHistory(b, user, path)
  {
    hide KvPaths.Authorized, I.Listing;
  }

  lemma DeleteSeen(a: I.State, b: I.State, user: string, path: string)
    requires SameView(a, b, user)
    ensures SameOutcome(I.Delete(a, user, path), I.Delete(b, user, path), user)
  {
    hide KvPaths.Authorized;
    SameForRemove(a.kv, b.kv, user, (user, path));
  }

  lemma InstallSeen(a: I.State, b: I.State, user: string, name: string, usage: string, now: string, material: Bytes)
    requires SameView(a, b, user)
    ensures SameOutcome(I.Install(a, user, name, usage, now, material),
                        I.Install(b, user, name, usage, now, material), user)
  {
    hide I.InfoOf;
    SameForPut(a.keys, b.keys, user, (user, name), I.KeyRecord(usage, now, now, [I.Entry(material, now)]));
  }

  lemma CreateSeen(a: I.State, b: I.State, user: string, name: string, algorithm: string, now: string, material: Bytes)
    requires SameView(a, b, user)
    ensures SameOutcome(I.CreateKey(a, user, name, now, material), I.CreateKey(b, user, name, now, material), user)
    ensures SameOutcome(I.CreateSigning(a, user, name, algorithm, now, material),
                        I.CreateSigning(b, user, name, algorithm, now, material), user)
  {
    hide ValidName, Upper, I.Install, SameFor, SameSealed, SameSigned;
    InstallSeen(a, b, user, name, T.ENCRYPT_DECRYPT, now, material);
    InstallSeen(a, b, user, name, T.SIGN_VERIFY, now, material);
  }

  lemma RotateSeen(a: I.State, b: I.State, user: string, name: string, now: string, material: Bytes)
    requires SameView(a, b, user)
    ensures SameOutcome(I.RotateKey(a, user, name, now, material), I.RotateKey(b, user, name, now, material), user)
  {
    hide ValidName, I.InfoOf;
    var r := I.RotateKey(a, user, name, now, material).0.keys;
    if (user, name) in r {
      SameForPut(a.keys, b.keys, user, (user, name), r[(user, name)]);
    }
  }

  lemma RevokeSeen(a: I.State, b: I.State, user: string, name: string)
    requires SameView(a, b, user)
    ensures SameOutcome(I.DeleteKey(a, user, name), I.DeleteKey(b, user, name), user)
  {
    hide ValidName;
    SameForRemove(a.keys, b.keys, user, (user, name));
  }

  lemma ListSeen(a: I.State, b: I.State, user: string)
    requires SameView(a, b, user)
    ensures I.ListKeys(a, user) == I.ListKeys(b, user)
  {
    hide I.InfosOf, I.InfoOf, NamesOf;
    var names := NamesOf(a.keys, user);
    OrderIsUnique(names, NamesOf(b.keys, user));
    var x, y := I.InfosOf(a.keys, user), I.InfosOf(b.keys, user);
    forall k | 0 <= k < |names| ensures x[k] == y[k] {
      assert names[k] in names;
    }
    assert x == y;
  }

  lemma EncryptSeen(a: I.State, b: I.State, user: string, name: string, text: string, draw: Crypto.Draw)
    requires SameView(a, b, user)
    ensures SameOutcome(I.EncryptData(a, user, name, text, draw), I.EncryptData(b, user, name, text, draw), user)
  {
    hide ValidName, Decode, Format;
  }

  lemma DecryptSeen(a: I.State, b: I.State, user: string, text: string)
    requires SameView(a, b, user)
    ensures I.DecryptData(a, user, text) == I.DecryptData(b, user, text)
  {
    hide ValidName, Parse, Encode;
  }

  lemma SignSeen(p: Prims, a: I.State, b: I.State, user: string, name: string, message: string, kind: string,
                 algorithm: string, signed: Bytes)
    requires SameView(a, b, user)
    ensures SameOutcome(I.Sign(p, a, user, name, message, kind, algorithm, signed),
                        I.Sign(p, b, user, name, message, kind, algorithm, signed), user)
  {
    hide ValidName, Encode, Upper, T.MessageDigest;
  }

  lemma AcceptsSeen(a: I.State, b: I.State, user: string, name: string, digest: Bytes, signature: Bytes, version: int)
    requires SameView(a, b, user)
    ensures I.Accepts(a, (user, name), digest, signature, version)
         == I.Accepts(b, (user, name), digest, signature, version)
  {
  }

  lemma {:induction false} NewestSeen(a: I.State, b: I.State, user: string, name: string, digest: Bytes,
                                      signature: Bytes, n: nat)
    requires SameView(a, b, user)
    ensures I.Newest(a, (user, name), digest, signature, n) == I.Newest(b, (user, name), digest, signature, n)
  {
    hide I.Accepts, SameView;
    if n > 0 {
      AcceptsSeen(a, b, user, name, digest, signature, n);
      NewestSeen(a, b, user, name, digest, signature, n - 1);
    }
  }

  lemma VerifySeen(p: Prims, a: I.State, b: I.State, user: string, name: string, message: string, kind: string,
                   signature: string, algorithm: string, version: Option<int>)
    requires SameView(a, b, user)
    ensures I.Verify(p, a, user, name, message, kind, signature, algorithm, version)
         == I.Verify(p, b, user, name, message, kind, signature, algorithm, version)
  {
    hide ValidName, Decode, Upper, T.MessageDigest, I.Accepts, I.Newest;
    var digest := T.MessageDigest(p, message, kind);
    if digest.Ok? && Decode(signature).Some? && (user, name) in a.keys {
      NewestSeen(a, b, user, name, digest.value, Decode(signature).value, |a.keys[(user, name)].entries|);
      if version.Some? {
        AcceptsSeen(a, b, user, name, digest.value, Decode(signature).value, version.value);
      }
    }
  }

  /** A visible request is answered alike, and keeps the views alike. */
  lemma VisibleSeen(p: Prims, a: I.State, b: I.State, op: Op, user: string)
    requires SameView(a, b, user) && Visible(op, user)
    ensures SameOutcome(I.Step(p, a, op), I.Step(p, b, op), user)
  {
    hide SameView, I.Write, I.Read, I.ListHistory, I.Delete, I.CreateKey, I.CreateSigning, I.RotateKey, I.ListKeys,
      I.DeleteKey, I.EncryptData, I.DecryptData, I.Sign, I.Verify;
    match op
    case Initialize(_, _, _, _, _) => VaultSeen(p, a, b, op, user);
    case Unlock(_) => VaultSeen(p, a, b, op, user);
    case Lock => VaultSeen(p, a, b, op, user);
    case Restart => VaultSeen(p, a, b, op, user);
    case KvWrite(_, path, data, now, _) => WriteSeen(a, b, user, path, data, now);
    case KvRead(_, path, version, _) => ReadSeen(a, b, user, path, version);
    case KvVersions(_, path, _) => ReadSeen(a, b, user, path, None);
    case KvDelete(_, path, _) => DeleteSeen(a, b, user, path);
    case CreateKey(_, name, now, mint) => CreateSeen(a, b, user, name, "", now, mint.material);
    case CreateSigningKey(_, name, algorithm, now, mint) => CreateSeen(a, b, user, name, algorithm, now, mint.material);
    case RotateKey(_, name, now, mint) => RotateSeen(a, b, user, name, now, mint.material);
    case ListKeys(_) => ListSeen(a, b, user);
    case DeleteKey(_, name, _) => RevokeSeen(a, b, user, name);
    case EncryptData(_, name, text, _, draw) => EncryptSeen(a, b, user, name, text, draw);
    case DecryptData(_, token, _) => DecryptSeen(a, b, user, token);
    case Sign(_, name, message, kind, algorithm, _, signed) =>
      SignSeen(p, a, b, user, name, message, kind, algorithm, signed);
    case VerifySignature(_, name, message, kind, signature, algorithm, version, _) =>
      VerifySeen(p, a, b, user, name, message, kind, signature, algorithm, version);
  }

  /** Dropping everybody else's requests leaves the user's view and answers alone. */
  lemma {:induction false} PurgeIsUnseen(p: Prims, ops: seq<Op>, user: string)
    ensures SameView(I.Run(p, Purge(ops, user)), I.Run(p, ops), user)
    ensures IdealAnswers(p, ops, user) == IdealAnswers(p, Purge(ops, user), user)
  {
    if ops != [] {
      var before, op := ops[..|ops| - 1], ops[|ops| - 1];
      PurgeIsUnseen(p, before, user);
      hide SameView, I.Step;
      var purged := Purge(before, user);
      var x, y := I.Run(p, purged), I.Run(p, before);
      if Visible(op, user) {
        assert Purge(ops, user)[..|purged|] == purged;
        VisibleSeen(p, x, y, op, user);
      } else {
        OthersUnseen(p, y, op, user);
        SameViewTransitive(x, y, I.Step(p, y, op).0, user);
      }
    }
  }

  lemma {:induction false} AnswersAreIdealAnswers(p: Prims, ops: seq<Op>, user: string)
    requires LegalRun(p, ops)
    ensures Answers(p, ops, user) == IdealAnswers(p, ops, user)
  {
    if ops != [] {
      var n := |ops| - 1;
      PrefixLegal(p, ops, n);
      AnswersAreIdealAnswers(p, ops[..n], user);
      AnswersAreIdeal(p, ops, n);
      hide Machine.Step, I.Step;
    }
  }

  /** Owner non-interference.  Two runs in which `user` makes the same requests, with
      the same randomness and clock readings, between the same vault steps, give that
      user the same answers, whatever anybody else does: a foreign key name or path
      answers exactly like a missing one. */
  lemma OwnersDoNotInterfere(p: Prims, ops: seq<Op>, ops': seq<Op>, user: string)
    requires LegalRun(p, ops) && LegalRun(p, ops')
    requires Purge(ops, user) == Purge(ops', user)
    ensures Answers(p, ops, user) == Answers(p, ops', user)
  {
    AnswersAreIdealAnswers(p, ops, user);
    AnswersAreIdealAnswers(p, ops', user);
    PurgeIsUnseen(p, ops, user);
    PurgeIsUnseen(p, ops', user);
  }
}
