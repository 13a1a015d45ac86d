/** The key-value engine, said once more without its state: what a caller may
    conclude from the requests made and the answers given so far. */
module KvHistory {
  import opened Base64
  import opened KvPaths
  import opened VersionedTables
  import opened KvStore
  import opened World
  import opened IdealFrames
  import opened Refinement
  import opened DekForLife
  import Machine
  import I = Ideal

  /** What one more request and its answer add to the acknowledged values of `key`. */
  function Next(values: seq<I.Entry>, op: Op, answer: Resp, key: Key): seq<I.Entry> {
    match op
    case KvWrite(user, path, data, now, _) =>
      if (user, path) == key && answer.Written? then values + [I.Entry(data, now)] else values
    case KvDelete(user, path, _) => if (user, path) == key && answer.Deleted? then [] else values
    case _ => values
  }

  /** The values acknowledged for `key` since it was last deleted, oldest first. */
  function Acknowledged(p: Prims, ops: seq<Op>, key: Key): seq<I.Entry> {
    if ops == [] then []
    else Next(Acknowledged(p, ops[..|ops| - 1], key), ops[|ops| - 1], Machine.Answer(p, ops, |ops| - 1), key)
  }

  /** The answer a caller should get, given the acknowledged values. */
  ghost function Expected(op: Op, open: bool, values: seq<I.Entry>): Resp
    requires IsKvOp(op)
  {
    var n := |values|;
    if !Owns(op.user, op.path) then Failed(PermissionDenied)
    else if op.KvRead? && op.version.Some? && op.version.value < 1 then Failed(InvalidVersion)
    else if !open then Failed(VaultLocked)
    else
      match op
      case KvWrite(_, _, _, now, _) => Written(if n == 0 then now else values[0].created, now, n + 1)
      case KvRead(_, _, version, _) =>
        var wanted := if version.Some? then version.value else n;
        if wanted < 1 || n < wanted then Failed(RecordNotFound)
        else Value(values[wanted - 1].data, wanted, n, values[wanted - 1].created)
      case KvVersions(_, _, _) =>
        if n == 0 then Failed(RecordNotFound)
        else Versions(n, Numbered(values))
      case KvDelete(_, _, _) => if n == 0 then Failed(RecordNotFound) else Deleted
  }

  ghost predicate Holds(kv: map<Key, I.Record>, key: Key, values: seq<I.Entry>) {
    && (key in kv <==> values != [])
    && (key in kv ==> kv[key] == I.Record(values[0].created, values))
  }

  predicate Touches(op: Op, key: Key) {
    (op.KvWrite? || op.KvDelete?) && (op.user, op.path) == key
  }

  lemma Untouched(p: Prims, s: I.State, op: Op, key: Key)
    requires !Touches(op, key)
    ensures var kv := I.Step(p, s, op).0.kv;
            (key in kv <==> key in s.kv) && (key in kv ==> kv[key] == s.kv[key])
  {
    hide I.Step;
    if op.KvWrite? || op.KvDelete? {
      UntouchedKv(p, s, op, key);
    } else {
      StepFrame(p, s, op);
    }
  }

  lemma UntouchedKv(p: Prims, s: I.State, op: Op, key: Key)
    requires (op.KvWrite? || op.KvDelete?) && (op.user, op.path) != key
    ensures var kv := I.Step(p, s, op).0.kv;
            (key in kv <==> key in s.kv) && (key in kv ==> kv[key] == s.kv[key])
  {
    hide Authorized;
  }

  lemma TracksStep(p: Prims, s: I.State, op: Op, key: Key, values: seq<I.Entry>)
    requires Holds(s.kv, key, values)
    ensures Holds(I.Step(p, s, op).0.kv, key, Next(values, op, I.Step(p, s, op).1, key))
  {
    if Touches(op, key) {
      TouchedTracks(p, s, op, values);
    } else {
      hide I.Step, Holds;
      Untouched(p, s, op, key);
      SameHolds(s.kv, I.Step(p, s, op).0.kv, key, values);
    }
  }

  lemma TouchedTracks(p: Prims, s: I.State, op: Op, values: seq<I.Entry>)
    requires op.KvWrite? || op.KvDelete?
    requires Holds(s.kv, (op.user, op.path), values)
    ensures Holds(I.Step(p, s, op).0.kv, (op.user, op.path), Next(values, op, I.Step(p, s, op).1, (op.user, op.path)))
  {
    hide Holds, I.Write, I.Delete;
    match op
    case KvWrite(user, path, data, now, _) => WriteTracks(s, user, path, data, now, values);
    case KvDelete(user, path, _) => DeleteTracks(s, user, path, values);
  }

  lemma SameHolds(kv: map<Key, I.Record>, kv': map<Key, I.Record>, key: Key, values: seq<I.Entry>)
    requires Holds(kv, key, values) && (key in kv' <==> key in kv) && (key in kv' ==> kv'[key] == kv[key])
    ensures Holds(kv', key, values)
  {
  }

  lemma WriteTracks(s: I.State, user: string, path: string, data: Bytes, now: string, values: seq<I.Entry>)
    requires Holds(s.kv, (user, path), values)
    ensures var (s', r) := I.Write(s, user, path, data, now);
            Holds(s'.kv, (user, path), if r.Written? then values + [I.Entry(data, now)] else values)
  {
    hide Authorized;
  }

  lemma DeleteTracks(s: I.State, user: string, path: string, values: seq<I.Entry>)
    requires Holds(s.kv, (user, path), values)
    ensures var (s', r) := I.Delete(s, user, path);
            Holds(s'.kv, (user, path), if r.Deleted? then [] else values)
  {
    hide Authorized;
  }

  lemma {:induction false} Tracks(p: Prims, ops: seq<Op>, key: Key)
    requires LegalRun(p, ops)
    ensures Holds(I.Run(p, ops).kv, key, Acknowledged(p, ops, key))
  {
    if ops != [] {
      var n := |ops| - 1;
      PrefixLegal(p, ops, n);
      Tracks(p, ops[..n], key);
      AnswersAreIdeal(p, ops, n);
      hide Machine.Answer, LegalRun, I.Step, Holds, Next;
      TracksStep(p, I.Run(p, ops[..n]), ops[n], key, Acknowledged(p, ops[..n], key));
    }
  }

  lemma IdealIsExpected(p: Prims, s: I.State, op: Op, values: seq<I.Entry>)
    requires IsKvOp(op) && Holds(s.kv, (op.user, op.path), values)
    ensures I.Step(p, s, op).1 == Expected(op, I.IsOpen(s), values)
  {
    hide Authorized, Owns;
    AuthorizedMeans(op.user, op.path);
    if op.KvVersions? && values != [] {
      ListingIs(values);
    }
  }

  /** Versions exactly 1..n, each with its own creation time. */
  function Numbered(values: seq<I.Entry>): seq<Listed> {
    if values == [] then []
    else Numbered(values[..|values| - 1]) + [Listed(|values|, values[|values| - 1].created)]
  }

  lemma {:induction false} ListingIs(values: seq<I.Entry>)
    ensures I.Listing(values) == Numbered(values)
  {
    if values != [] {
      var before := values[..|values| - 1];
      ListingIs(before);
      assert I.Listing(values) == I.Listing(before) + [Listed(|values|, values[|values| - 1].created)];
    }
  }

  /** Key-value refinement.  In every run, through any locking, unlocking and
      restarting and whatever else is stored, each key-value request is answered from
      the values acknowledged for its owner and path since the last delete: a write
      adds one and reports how many there are, a read without a version gives the
      last, a read of version N the N-th, a listing numbers them 1..n, a delete
      forgets them all. */
  lemma KvAnswersFromHistory(p: Prims, ops: seq<Op>, k: nat)
    requires LegalRun(p, ops) && k < |ops| && IsKvOp(ops[k])
    ensures Machine.Answer(p, ops, k)
         == Expected(ops[k], OpenByAnswers(p, ops[..k]),
                     Acknowledged(p, ops[..k], (ops[k].user, ops[k].path)))
  {
    var key := (ops[k].user, ops[k].path);
    PrefixLegal(p, ops, k);
    Tracks(p, ops[..k], key);
    AnswersAreIdeal(p, ops, k);
    hide Machine.Answer, Machine.Run, LegalRun, I.Step, I.Run, Holds, Expected, OpenByAnswers;
    OpenExactlyWhenUnlocked(p, ops[..k]);
    IdealIsExpected(p, I.Run(p, ops[..k]), ops[k], Acknowledged(p, ops[..k], key));
  }
}
