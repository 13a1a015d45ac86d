/** The life of named keys, said without their tables: what a caller may conclude from
    the requests made and the answers given so far. */
module KeyHistory {
  import opened Text
  import opened Names
  import opened Sorting
  import opened TransitToken
  import Base64
  import opened VersionedTables
  import opened World
  import opened IdealFrames
  import opened Refinement
  import opened DekForLife
  import Machine
  import Simulation
  import T = TransitEngine
  import I = Ideal

  /** A key that lives: what it is for, when it was made and last rotated, and how many
      versions it has. */
  datatype Life = Life(usage: string, created: string, updated: string, versions: nat)

  /** What one more request and its answer make of the life of `key`. */
  function Next(life: Option<Life>, op: Op, answer: Resp, key: Key): Option<Life> {
    match op
    case CreateKey(user, name, now, _) =>
      if (user, name) == key && answer.KeyInfo? then Some(Life("ENCRYPT_DECRYPT", now, now, 1)) else life
    case CreateSigningKey(user, name, _, now, _) =>
      if (user, name) == key && answer.KeyInfo? then Some(Life("SIGN_VERIFY", now, now, 1)) else life
    case RotateKey(user, name, now, _) =>
      if (user, name) == key && answer.KeyInfo? && life.Some? then
        Some(life.value.(updated := now, versions := life.value.versions + 1))
      else life
    case DeleteKey(user, name, _) => if (user, name) == key && answer.Deleted? then None else life
    case _ => life
  }

  /** The life of `key` as far as the answers tell. */
  function LifeOf(p: Prims, ops: seq<Op>, key: Key): Option<Life> {
    if ops == [] then None
    else Next(LifeOf(p, ops[..|ops| - 1], key), ops[|ops| - 1], Machine.Answer(p, ops, |ops| - 1), key)
  }

  /** What the owner is told about a key: versions exactly 1..n, no material. */
  function Told(name: string, life: Life): Info {
    Info(name, life.usage, if life.usage == "SIGN_VERIFY" then Some("ED25519") else None, life.versions,
         Count(life.versions), life.created, life.updated)
  }

  /** The answer a request about a key's life should get. */
  ghost function Expected(op: Op, open: bool, life: Option<Life>): Resp
    requires MintsKey(op) || op.DeleteKey?
  {
    if !IsName(op.name) then Failed(InvalidKeyName)
    else
      match op
      case CreateKey(_, name, now, _) =>
        if !open then Failed(VaultLocked)
        else if life.Some? then Failed(KeyAlreadyExists)
        else KeyInfo(Told(name, Life("ENCRYPT_DECRYPT", now, now, 1)))
      case CreateSigningKey(_, name, algorithm, now, _) =>
        if !IsUppered(algorithm, "ED25519") then Failed(InvalidSigningAlgorithm)
        else if !open then Failed(VaultLocked)
        else if life.Some? then Failed(KeyAlreadyExists)
        else KeyInfo(Told(name, Life("SIGN_VERIFY", now, now, 1)))
      case RotateKey(_, name, now, _) =>
        if life.None? then Failed(KeyUnavailable)
        else if !open then Failed(VaultLocked)
        else KeyInfo(Told(name, life.value.(updated := now, versions := life.value.versions + 1)))
      case DeleteKey(_, _, _) =>
        if life.None? then Failed(KeyUnavailable) else if !open then Failed(VaultLocked) else Deleted
  }

  ghost predicate Lives(keys: map<Key, I.KeyRecord>, key: Key, life: Option<Life>) {
    && (key in keys <==> life.Some?)
    && (key in keys ==>
          life.value == Life(keys[key].usage, keys[key].created, keys[key].updated, |keys[key].entries|))
  }

  lemma CreateLives(p: Prims, s: I.State, op: Op, key: Key, life: Option<Life>)
    requires (op.CreateKey? || op.CreateSigningKey?) && Lives(s.keys, key, life)
    ensures Lives(I.Step(p, s, op).0.keys, key, Next(life, op, I.Step(p, s, op).1, key))
    ensures (op.user, op.name) == key ==> I.Step(p, s, op).1 == Expected(op, I.IsOpen(s), life)
  {
    hide ValidName, IsName, Upper, IsUppered, Count;
    NameMeans(op.name);
    if op.CreateSigningKey? {
      T.AlgorithmMeans(op.algorithm);
    }
  }

  lemma RotateLives(p: Prims, s: I.State, op: Op, key: Key, life: Option<Life>)
    requires (op.RotateKey? || op.DeleteKey?) && Lives(s.keys, key, life)
    ensures Lives(I.Step(p, s, op).0.keys, key, Next(life, op, I.Step(p, s, op).1, key))
    ensures (op.user, op.name) == key ==> I.Step(p, s, op).1 == Expected(op, I.IsOpen(s), life)
  {
    hide ValidName, IsName, Count;
    NameMeans(op.name);
  }

  lemma StepLives(p: Prims, s: I.State, op: Op, key: Key, life: Option<Life>)
    requires Lives(s.keys, key, life)
    ensures Lives(I.Step(p, s, op).0.keys, key, Next(life, op, I.Step(p, s, op).1, key))
  {
    hide I.Step, Lives;
    if op.CreateKey? || op.CreateSigningKey? {
      CreateLives(p, s, op, key, life);
    } else if op.RotateKey? || op.DeleteKey? {
      RotateLives(p, s, op, key, life);
    } else {
      StepFrame(p, s, op);
    }
  }

  lemma {:induction false} TracksLife(p: Prims, ops: seq<Op>, key: Key)
    requires LegalRun(p, ops)
    ensures Lives(I.Run(p, ops).keys, key, LifeOf(p, ops, key))
  {
    hide Machine.Answer, LegalRun, I.Step, Lives, Next;
    if ops == [] {
      NothingLives(key);
    } else {
      var n := |ops| - 1;
      PrefixLegal(p, ops, n);
      TracksLife(p, ops[..n], key);
      AnswersAreIdeal(p, ops, n);
      StepLives(p, I.Run(p, ops[..n]), ops[n], key, LifeOf(p, ops[..n], key));
    }
  }

  lemma NothingLives(key: Key)
    ensures Lives(I.START.keys, key, None)
  {
  }

  lemma OpenAt(p: Prims, ops: seq<Op>, n: nat)
    requires LegalRun(p, ops) && n <= |ops|
    ensures I.IsOpen(I.Run(p, ops[..n])) == OpenByAnswers(p, ops[..n])
  {
    hide LegalRun, I.Run, OpenByAnswers, Machine.Run;
    PrefixLegal(p, ops, n);
    OpenExactlyWhenUnlocked(p, ops[..n]);
  }

  /** Key lifecycle refinement.  In every run each request that creates, rotates or revokes
      a key is answered from that key's own life since it was last revoked: a name in use
      is refused, a rotation adds one version and reports versions 1..n, a revoked name is
      as unknown as one that never was. */
  lemma KeyAnswersFromHistory(p: Prims, ops: seq<Op>, k: nat)
    requires LegalRun(p, ops) && k < |ops| && (MintsKey(ops[k]) || ops[k].DeleteKey?)
    ensures Machine.Answer(p, ops, k)
         == Expected(ops[k], OpenByAnswers(p, ops[..k]), LifeOf(p, ops[..k], (ops[k].user, ops[k].name)))
  {
    hide Machine.Answer, Machine.Run, Machine.Step, LegalRun, I.Run, I.Step, Lives, Expected, OpenByAnswers, LifeOf;
    var key := (ops[k].user, ops[k].name);
    RequestFacts(p, ops, k);
    PrefixLegal(p, ops, k);
    TracksLife(p, ops[..k], key);
    OpenAt(p, ops, k);
    var life := LifeOf(p, ops[..k], key);
    if ops[k].CreateKey? || ops[k].CreateSigningKey? {
      CreateLives(p, I.Run(p, ops[..k]), ops[k], key, life);
    } else {
      RotateLives(p, I.Run(p, ops[..k]), ops[k], key, life);
    }
  }

  /** These are exactly the living keys of `user`, in the order of their names. */
  ghost predicate TellsLiving(p: Prims, ops: seq<Op>, user: string, infos: seq<Info>) {
    && (forall i, j :: 0 <= i < j < |infos| ==> Before(infos[i].name, infos[j].name))
    && (forall k :: 0 <= k < |infos| ==>
          LifeOf(p, ops, (user, infos[k].name)).Some?
          && infos[k] == Told(infos[k].name, LifeOf(p, ops, (user, infos[k].name)).value))
    && forall name :: LifeOf(p, ops, (user, name)).Some? ==> exists k :: 0 <= k < |infos| && infos[k].name == name
  }

  lemma InfoTells(s: I.State, user: string, name: string, life: Option<Life>)
    requires Lives(s.keys, (user, name), life) && (user, name) in s.keys
    ensures life.Some? && I.InfoOf(name, s.keys[(user, name)]) == Told(name, life.value)
  {
    hide Count;
  }

  lemma ListTells(p: Prims, ops: seq<Op>, s: I.State, user: string)
    requires forall name :: Lives(s.keys, (user, name), LifeOf(p, ops, (user, name)))
    ensures TellsLiving(p, ops, user, I.InfosOf(s.keys, user))
  {
    hide LifeOf, Told, I.InfoOf, I.InfosOf, NamesOf;
    var infos, names := I.InfosOf(s.keys, user), NamesOf(s.keys, user);
    forall k | 0 <= k < |infos|
      ensures infos[k].name == names[k] && LifeOf(p, ops, (user, names[k])).Some?
      ensures infos[k] == Told(names[k], LifeOf(p, ops, (user, names[k])).value)
    {
      assert names[k] in names;
      InfoTells(s, user, names[k], LifeOf(p, ops, (user, names[k])));
      ToldName(names[k], LifeOf(p, ops, (user, names[k])).value);
    }
    forall name | LifeOf(p, ops, (user, name)).Some? ensures exists k :: 0 <= k < |infos| && infos[k].name == name {
      assert Lives(s.keys, (user, name), LifeOf(p, ops, (user, name)));
      assert name in names;
      var k :| 0 <= k < |names| && names[k] == name;
      assert infos[k].name == name;
    }
  }

  lemma ToldName(name: string, life: Life)
    ensures Told(name, life).name == name
  {
  }

  /** A listing names exactly the caller's living keys, in the order of their names, each
      with what its life says. */
  lemma ListsTheLiving(p: Prims, ops: seq<Op>, k: nat)
    requires LegalRun(p, ops) && k < |ops| && ops[k].ListKeys?
    ensures if !OpenByAnswers(p, ops[..k]) then Machine.Answer(p, ops, k) == Failed(VaultLocked)
            else Machine.Answer(p, ops, k).KeyList?
                 && TellsLiving(p, ops[..k], ops[k].user, Machine.Answer(p, ops, k).infos)
  {
    hide Machine.Answer, Machine.Run, Machine.Step, LegalRun, I.Run, Lives, OpenByAnswers, LifeOf, I.InfosOf,
      TellsLiving,
      Simulation.Sim, Simulation.Legal;
    AnswersAreIdeal(p, ops, k);
    PrefixLegal(p, ops, k);
    OpenAt(p, ops, k);
    var s, user := I.Run(p, ops[..k]), ops[k].user;
    forall name ensures Lives(s.keys, (user, name), LifeOf(p, ops[..k], (user, name))) {
      TracksLife(p, ops[..k], (user, name));
    }
    ListTells(p, ops[..k], s, user);
  }

  lemma UsesNewest(p: Prims, s: I.State, op: Op, life: Option<Life>)
    requires op.EncryptData? || op.Sign?
    requires I.Step(p, s, op).1.Encrypted? || I.Step(p, s, op).1.Signed?
    requires Lives(s.keys, (op.user, op.name), life)
    ensures life.Some? && I.Step(p, s, op).1.version == life.value.versions
    ensures life.value.usage == if op.Sign? then "SIGN_VERIFY" else "ENCRYPT_DECRYPT"
  {
    hide ValidName, Upper, Base64.Decode, Base64.Encode, Format, T.MessageDigest;
  }

  /** Encrypting and signing use the newest version at the time, of a key of the right usage. */
  lemma NewestIsUsed(p: Prims, ops: seq<Op>, k: nat)
    requires LegalRun(p, ops) && k < |ops| && (ops[k].EncryptData? || ops[k].Sign?)
    requires Machine.Answer(p, ops, k).Encrypted? || Machine.Answer(p, ops, k).Signed?
    ensures var life := LifeOf(p, ops[..k], (ops[k].user, ops[k].name));
            && life.Some? && Machine.Answer(p, ops, k).version == life.value.versions
            && life.value.usage == if ops[k].Sign? then "SIGN_VERIFY" else "ENCRYPT_DECRYPT"
  {
    hide Machine.Answer, Machine.Run, Machine.Step, LegalRun, I.Run, I.Step, Lives, LifeOf;
    var key := (ops[k].user, ops[k].name);
    RequestFacts(p, ops, k);
    PrefixLegal(p, ops, k);
    TracksLife(p, ops[..k], key);
    UsesNewest(p, I.Run(p, ops[..k]), ops[k], LifeOf(p, ops[..k], key));
  }
}
