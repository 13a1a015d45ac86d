/** Any number of clients on one database, one SQL statement at a time: the
    transactions of src/storage/database.py under the four read-then-write programs
    of the repositories and their two single-statement deletes. */
module Transactions {
  import opened Text
  import opened Crypto
  import opened AuditEntry
  import opened AuditChain
  import opened VersionedTables
  import Sorting
  import K = KvStore
  import N = KeyStore

  /** Everything the transactions touch. */
  datatype Db = Db(audit: Log, kv: K.KvTables, keys: N.KeyTables)

  const EMPTY_DB := Db(AuditChain.EMPTY, K.EMPTY, N.EMPTY)

  /** What a client asks for.  Clock readings are taken before the lock; what is stored
      is encrypted once the version is known. */
  datatype Job =
    | LogJob(call: Call)
    | WriteJob(key: Key, now: string, encrypt: int -> Columns)
    | CreateJob(key: Key, usage: string, algorithm: Option<string>, now: string, wrap: int -> N.Material)
    | RotateJob(key: Key, now: string, wrap: int -> N.Material)
    | DropRecordJob(key: Key)
    | DropKeyJob(key: Key)

  /** A whole committed transaction. */
  datatype Txn =
    | Logged(call: Call)
    | Wrote(key: Key, now: string, encrypt: int -> Columns)
    | Created(key: Key, usage: string, algorithm: Option<string>, now: string, wrap: int -> N.Material)
    | Rotated(key: Key, now: string, wrap: int -> N.Material)
    | NoSuchKey(key: Key)
    | DroppedRecord(key: Key)
    | DroppedKey(key: Key)

  /** Where a client is inside its transaction, with what it has read so far. */
  datatype Phase =
    | Begun
    | LastRowRead(sequence: int, prevHash: string)
    | RowInserted(entryHash: string)
    | RecordRead(record: Option<Parent<K.Times>>)
    | RecordPointed(id: int, version: int)
    | KeyInserted(id: int)
    | KeyRead(row: Parent<N.KeyMeta>)
    | VersionInserted(row: Parent<N.KeyMeta>)
    | Done(txn: Txn)

  /** A client waits for the write lock, or runs on its own uncommitted copy. */
  datatype Client = Waiting(job: Job) | Running(job: Job, phase: Phase, work: Db)

  /** The committed database, the holder of the write lock, the clients, and the
      transactions committed so far. */
  datatype State = State(db: Db, lock: Option<int>, clients: map<int, Client>, history: seq<Txn>)

  const START := State(EMPTY_DB, None, map[], [])

  datatype Event =
    | Submit(id: int, job: Job)
    | Begin(id: int)
    | Statement(id: int)
    | Commit(id: int)
    | Abort(id: int)  // an exception, in encryption too, a busy timeout, a lost client: rolled back

  // ----------------------------------------------------------- the programs, stepwise

  /** One statement; None is an IntegrityError, or no statement being due. */
  function Advance(h: Hash, job: Job, phase: Phase, work: Db): Option<(Phase, Db)> {
    match (job, phase)
    case (LogJob(call), Begun) =>
      var rows := work.audit.rows;
      Some((LastRowRead(if rows == [] then 1 else rows[|rows| - 1].entry.sequence + 1, HashBefore(rows, |rows|)), work))
    case (LogJob(call), LastRowRead(sequence, prevHash)) =>
      var entry := Entry(sequence, call.requester, call.action, call.targetType, call.targetIdentifier, call.result,
                         call.now);
      var hash := h(Preimage(prevHash, entry));
      Some((RowInserted(hash), work.(audit := work.audit.(rows := work.audit.rows + [Row(entry, prevHash, hash)]))))
    case (LogJob(call), RowInserted(hash)) =>
      Some((Done(Logged(call)), work.(audit := work.audit.(head := Some(hash)))))

    case (WriteJob(key, _, _), Begun) =>
      Some((RecordRead(if key in work.kv.parents then Some(work.kv.parents[key]) else None), work))
    case (WriteJob(key, now, _), RecordRead(record)) =>
      var kv := work.kv;
      if record.None? then
        if key in kv.parents then None
        else Some((RecordPointed(kv.nextId, 1),
                   work.(kv := kv.(parents := kv.parents[key := Parent(kv.nextId, 1, K.Times(now, now))],
                                   nextId := kv.nextId + 1))))
      else
        var r := record.value;
        Some((RecordPointed(r.id, r.latest + 1),
              work.(kv := kv.(parents := kv.parents[key := Parent(r.id, r.latest + 1, r.meta.(updated := now))]))))
    case (WriteJob(key, now, encrypt), RecordPointed(id, version)) =>
      if (id, version) in work.kv.rows then None
      else Some((Done(Wrote(key, now, encrypt)),
                 work.(kv := work.kv.(rows := work.kv.rows[(id, version) := K.Version(encrypt(version), now)]))))

    case (CreateJob(key, usage, algorithm, now, _), Begun) =>
      var keys := work.keys;
      if key in keys.parents then None
      else Some((KeyInserted(keys.nextId),
                 work.(keys := keys.(parents := keys.parents[key :=
                                                         Parent(keys.nextId, 1, N.KeyMeta(usage, algorithm, now, now))],
                                     nextId := keys.nextId + 1))))
    case (CreateJob(key, usage, algorithm, now, wrap), KeyInserted(id)) =>
      if (id, 1) in work.keys.rows then None
      else Some((Done(Created(key, usage, algorithm, now, wrap)),
                 work.(keys := work.keys.(rows := work.keys.rows[(id, 1) := N.Version(wrap(1), now)]))))

    case (RotateJob(key, _, _), Begun) =>
      if key in work.keys.parents then Some((KeyRead(work.keys.parents[key]), work))
      else Some((Done(NoSuchKey(key)), work))
    case (RotateJob(key, now, wrap), KeyRead(row)) =>
      var version := row.latest + 1;
      if (row.id, version) in work.keys.rows then None
      else Some((VersionInserted(row),
                 work.(keys := work.keys.(rows := work.keys.rows[(row.id, version) := N.Version(wrap(version), now)]))))
    case (RotateJob(key, now, wrap), VersionInserted(row)) =>
      var meta := row.meta.(updated := now);
      Some((Done(Rotated(key, now, wrap)),
            work.(keys := work.keys.(parents := work.keys.parents[key := Parent(row.id, row.latest + 1, meta)]))))

    case (DropRecordJob(key), Begun) => Some((Done(DroppedRecord(key)), work.(kv := K.Delete(work.kv, key).0)))
    case (DropKeyJob(key), Begun) => Some((Done(DroppedKey(key)), work.(keys := N.DeleteOwned(work.keys, key).0)))
    case _ => None
  }

  /** Forget a client, and free the lock if it held it. */
  function Leave(s: State, id: int): State {
    s.(clients := s.clients - {id}, lock := if s.lock == Some(id) then None else s.lock)
  }

  /** An event that is not enabled changes nothing: the client waits. */
  function Next(h: Hash, s: State, e: Event): State {
    match e
    case Submit(id, job) => if id in s.clients then s else s.(clients := s.clients[id := Waiting(job)])
    case Begin(id) =>
      if id in s.clients && s.clients[id].Waiting? && s.lock.None? then
        s.(lock := Some(id), clients := s.clients[id := Running(s.clients[id].job, Begun, s.db)])
      else s
    case Statement(id) =>
      if id in s.clients && s.clients[id].Running? && !s.clients[id].phase.Done? then
        var c := s.clients[id];
        match Advance(h, c.job, c.phase, c.work)
        case None => Leave(s, id)
        case Some((phase, work)) => s.(clients := s.clients[id := Running(c.job, phase, work)])
      else s
    case Commit(id) =>
      if id in s.clients && s.clients[id].Running? && s.clients[id].phase.Done? then
        Leave(s, id).(db := s.clients[id].work, history := s.history + [s.clients[id].phase.txn])
      else s
    case Abort(id) => Leave(s, id)
  }

  function Run(h: Hash, events: seq<Event>): State {
    if events == [] then START else Next(h, Run(h, events[..|events| - 1]), events[|events| - 1])
  }

  // --------------------------------------------------------------- serial execution

  /** A whole transaction at once, as the repositories are modelled elsewhere. */
  function Serial(h: Hash, db: Db, txn: Txn): Db {
    match txn
    case Logged(call) => db.(audit := AuditChain.Append(h, db.audit, call))
    case Wrote(key, now, encrypt) => db.(kv := K.Append(db.kv, key, now, encrypt(NextVersion(db.kv, key))).0)
    case Created(key, usage, algorithm, now, wrap) =>
      (match N.Create(db.keys, key, usage, algorithm, now, wrap(1))
       case Some(keys) => db.(keys := keys)
       case None => db)
    case Rotated(key, now, wrap) =>
      (match N.Rotate(db.keys, key, now, wrap(NextVersion(db.keys, key)))
       case Rotated(keys) => db.(keys := keys)
       case _ => db)
    case NoSuchKey(_) => db
    case DroppedRecord(key) => db.(kv := K.Delete(db.kv, key).0)
    case DroppedKey(key) => db.(keys := N.DeleteOwned(db.keys, key).0)
  }

  function SerialAll(h: Hash, txns: seq<Txn>): Db {
    if txns == [] then EMPTY_DB else Serial(h, SerialAll(h, txns[..|txns| - 1]), txns[|txns| - 1])
  }

  /** The transaction carries out the job. */
  ghost predicate Fits(job: Job, txn: Txn) {
    match job
    case LogJob(call) => txn == Logged(call)
    case WriteJob(key, now, encrypt) => txn == Wrote(key, now, encrypt)
    case CreateJob(key, usage, algorithm, now, wrap) => txn == Created(key, usage, algorithm, now, wrap)
    case RotateJob(key, now, wrap) => txn == NoSuchKey(key) || txn == Rotated(key, now, wrap)
    case DropRecordJob(key) => txn == DroppedRecord(key)
    case DropKeyJob(key) => txn == DroppedKey(key)
  }

  /** The key is there, or not, as the transaction needs. */
  predicate Finds(db: Db, txn: Txn) {
    match txn
    case Created(key, _, _, _, _) => key !in db.keys.parents
    case Rotated(key, _, _) => key in db.keys.parents
    case NoSuchKey(key) => key !in db.keys.parents
    case _ => true
  }

  // ------------------------------------------------------------------ the invariant

  /** What a running client has read and done is what its program does to the committed
      database, up to where it is. */
  ghost predicate OnTrack(h: Hash, db: Db, job: Job, phase: Phase, work: Db) {
    match (job, phase)
    case (_, Begun) => work == db
    case (LogJob(call), LastRowRead(sequence, prevHash)) =>
      var row := NextRow(h, db.audit.rows, call);
      work == db && sequence == row.entry.sequence && prevHash == row.prevHash
    case (LogJob(call), RowInserted(hash)) =>
      var row := NextRow(h, db.audit.rows, call);
      work == db.(audit := Log(db.audit.rows + [row], db.audit.head)) && hash == row.entryHash
    case (WriteJob(key, now, _), RecordRead(record)) =>
      work == db && record == (if key in db.kv.parents then Some(db.kv.parents[key]) else None)
    case (WriteJob(key, now, _), RecordPointed(id, version)) =>
      var created := if key in db.kv.parents then db.kv.parents[key].meta.created else now;
      && id == IdFor(db.kv, key) && version == NextVersion(db.kv, key)
      && work == db.(kv := Tables(db.kv.parents[key := Parent(id, version, K.Times(created, now))], db.kv.rows,
                                  if key in db.kv.parents then db.kv.nextId else db.kv.nextId + 1))
    case (CreateJob(key, usage, algorithm, now, _), KeyInserted(id)) =>
      && key !in db.keys.parents && id == db.keys.nextId
      && work == db.(keys := Tables(db.keys.parents[key := Parent(id, 1, N.KeyMeta(usage, algorithm, now, now))],
                                    db.keys.rows, id + 1))
    case (RotateJob(key, now, _), KeyRead(row)) => work == db && key in db.keys.parents && row == db.keys.parents[key]
    case (RotateJob(key, now, wrap), VersionInserted(row)) =>
      && key in db.keys.parents && row == db.keys.parents[key] && (row.id, row.latest + 1) !in db.keys.rows
      && var version := row.latest + 1;
      work == db.(keys := db.keys.(rows := db.keys.rows[(row.id, version) := N.Version(wrap(version), now)]))
    case (_, Done(txn)) => Fits(job, txn) && Finds(db, txn) && work == Serial(h, db, txn)
    case _ => false
  }

  /** Only the holder of the lock runs, and it is on track. */
  ghost predicate Isolated(h: Hash, s: State) {
    && (forall id :: id in s.clients && s.clients[id].Running? ==>
          s.lock == Some(id) && OnTrack(h, s.db, s.clients[id].job, s.clients[id].phase, s.clients[id].work))
    && (s.lock.Some? ==> s.lock.value in s.clients && s.clients[s.lock.value].Running?)
  }

  ghost predicate Serialized(h: Hash, s: State) {
    Isolated(h, s) && s.db == SerialAll(h, s.history)
  }

  // ------------------------------------------------------------ it holds in every run

  lemma LogStays(h: Hash, db: Db, job: Job, phase: Phase, work: Db)
    requires job.LogJob? && OnTrack(h, db, job, phase, work)
    ensures var r := Advance(h, job, phase, work);
            r.Some? ==> OnTrack(h, db, job, r.value.0, r.value.1)
  {
    hide Preimage;
  }

  lemma WriteStays(h: Hash, db: Db, job: Job, phase: Phase, work: Db)
    requires job.WriteJob? && OnTrack(h, db, job, phase, work)
    ensures var r := Advance(h, job, phase, work);
            r.Some? ==> OnTrack(h, db, job, r.value.0, r.value.1)
  {
    hide NextRow;
  }

  lemma CreateStays(h: Hash, db: Db, job: Job, phase: Phase, work: Db)
    requires job.CreateJob? && OnTrack(h, db, job, phase, work)
    ensures var r := Advance(h, job, phase, work);
            r.Some? ==> OnTrack(h, db, job, r.value.0, r.value.1)
  {
    hide NextRow;
  }

  lemma RotateStays(h: Hash, db: Db, job: Job, phase: Phase, work: Db)
    requires job.RotateJob? && OnTrack(h, db, job, phase, work)
    ensures var r := Advance(h, job, phase, work);
            r.Some? ==> OnTrack(h, db, job, r.value.0, r.value.1)
  {
    hide NextRow;
  }

  /** Every statement of every program keeps its client on track. */
  lemma StaysOnTrack(h: Hash, db: Db, job: Job, phase: Phase, work: Db)
    requires OnTrack(h, db, job, phase, work)
    ensures var r := Advance(h, job, phase, work);
            r.Some? ==> OnTrack(h, db, job, r.value.0, r.value.1)
  {
    if job.LogJob? {
      LogStays(h, db, job, phase, work);
    } else if job.WriteJob? {
      WriteStays(h, db, job, phase, work);
    } else if job.CreateJob? {
      CreateStays(h, db, job, phase, work);
    } else if job.RotateJob? {
      RotateStays(h, db, job, phase, work);
    } else {
      hide NextRow;
    }
  }

  lemma NextSerialized(h: Hash, s: State, e: Event)
    requires Serialized(h, s)
    ensures Serialized(h, Next(h, s, e))
  {
    hide Advance, OnTrack, Serial;
    if e.Statement? && e.id in s.clients && s.clients[e.id].Running? {
      var c := s.clients[e.id];
      StaysOnTrack(h, s.db, c.job, c.phase, c.work);
    } else if e.Begin? && e.id in s.clients {
      BegunOnTrack(h, s.db, s.clients[e.id].job);
    } else if e.Commit? && e.id in s.clients && s.clients[e.id].Running? && s.clients[e.id].phase.Done? {
      var c := s.clients[e.id];
      DoneIsSerial(h, s.db, c.job, c.phase.txn, c.work);
      var after := s.history + [c.phase.txn];
      assert after[..|after| - 1] == s.history;
    }
  }

  lemma BegunOnTrack(h: Hash, db: Db, job: Job)
    ensures OnTrack(h, db, job, Begun, db)
  {
  }

  lemma DoneIsSerial(h: Hash, db: Db, job: Job, txn: Txn, work: Db)
    requires OnTrack(h, db, job, Done(txn), work)
    ensures work == Serial(h, db, txn) && Fits(job, txn) && Finds(db, txn)
  {
    hide Serial, Fits, Finds;
  }

  /** Serialisability.  However the statements of however many clients interleave, and
      wherever transactions abort, the committed database is what the committed
      transactions make of an empty one, executed whole, one after the other. */
  lemma {:induction false} RunSerialized(h: Hash, events: seq<Event>)
    ensures Serialized(h, Run(h, events))
  {
    if events != [] {
      RunSerialized(h, events[..|events| - 1]);
      hide Serialized, Next;
      NextSerialized(h, Run(h, events[..|events| - 1]), events[|events| - 1]);
    }
  }

  /** The client has executed its last statement. */
  predicate Finished(s: State, id: int) {
    id in s.clients && s.clients[id].Running? && s.clients[id].phase.Done?
  }

  /** The committed database changes by commits only, and by each finished one: it adds
      the transaction its client asked for and frees the lock. */
  lemma CommitsWhatWasAsked(h: Hash, events: seq<Event>, e: Event)
    ensures var s := Run(h, events);
            var s' := Next(h, s, e);
            if e.Commit? && Finished(s, e.id) then
              var c := s.clients[e.id];
              && Fits(c.job, c.phase.txn) && Finds(s.db, c.phase.txn) && s'.history == s.history + [c.phase.txn]
              && s'.db == Serial(h, s.db, c.phase.txn) && s'.lock.None? && e.id !in s'.clients
            else s'.history == s.history && s'.db == s.db
  {
    RunSerialized(h, events);
    var s := Run(h, events);
    hide OnTrack, Serial, Fits, Finds, Run, Advance;
    if e.Commit? && Finished(s, e.id) {
      var c := s.clients[e.id];
      DoneIsSerial(h, s.db, c.job, c.phase.txn, c.work);
    }
  }

  // -------------------------------------------------- what every committed state keeps

  /** The audit calls of a history, in order. */
  function Calls(txns: seq<Txn>): seq<Call> {
    if txns == [] then []
    else
      var before, txn := Calls(txns[..|txns| - 1]), txns[|txns| - 1];
      if txn.Logged? then before + [txn.call] else before
  }

  lemma {:induction false} SerialAudit(h: Hash, txns: seq<Txn>)
    ensures SerialAll(h, txns).audit == AppendAll(h, AuditChain.EMPTY, Calls(txns))
  {
    if txns != [] {
      var before, txn := txns[..|txns| - 1], txns[|txns| - 1];
      SerialAudit(h, before);
      hide AuditChain.Append;
      if txn.Logged? {
        assert Calls(txns)[..|Calls(before)|] == Calls(before);
      }
    }
  }

  lemma SerialKeepsTables(h: Hash, db: Db, txn: Txn)
    requires Consistent(db.kv) && Consistent(db.keys)
    ensures Consistent(Serial(h, db, txn).kv) && Consistent(Serial(h, db, txn).keys)
  {
    hide Consistent, AuditChain.Append, Put, Remove;
    match txn
    case Wrote(key, now, encrypt) =>
      var created := if key in db.kv.parents then db.kv.parents[key].meta.created else now;
      PutKeepsConsistent(db.kv, key, K.Times(created, now), K.Version(encrypt(NextVersion(db.kv, key)), now));
    case Created(key, usage, algorithm, now, wrap) =>
      PutKeepsConsistent(db.keys, key, N.KeyMeta(usage, algorithm, now, now), N.Version(wrap(1), now));
    case Rotated(key, now, wrap) =>
      if key in db.keys.parents {
        PutKeepsConsistent(db.keys, key, db.keys.parents[key].meta.(updated := now),
                           N.Version(wrap(NextVersion(db.keys, key)), now));
      }
    case DroppedRecord(key) =>
      if key in db.kv.parents {
        RemoveKeepsConsistent(db.kv, key);
      }
    case DroppedKey(key) =>
      if key in db.keys.parents {
        RemoveKeepsConsistent(db.keys, key);
      }
    case _ =>
  }

  lemma {:induction false} SerialTables(h: Hash, txns: seq<Txn>)
    ensures Consistent(SerialAll(h, txns).kv) && Consistent(SerialAll(h, txns).keys)
  {
    if txns != [] {
      SerialTables(h, txns[..|txns| - 1]);
      hide Consistent, Serial;
      SerialKeepsTables(h, SerialAll(h, txns[..|txns| - 1]), txns[|txns| - 1]);
    }
  }

  /** Concurrent appends never fork.  In every committed state of every interleaving
      the audit log has sequences 1..n in one chain that ends in the stored head, with
      exactly the committed entries in commit order, and `verify` accepts it. */
  lemma AuditNeverForks(h: Hash, events: seq<Event>)
    ensures var s := Run(h, events);
            var calls := Calls(s.history);
            && |s.db.audit.rows| == |calls| && Chained(h, s.db.audit.rows)
            && (forall k :: 0 <= k < |calls| ==> s.db.audit.rows[k].entry.sequence == k + 1)
            && s.db.audit == AppendAll(h, AuditChain.EMPTY, calls)
            && (calls != [] ==> s.db.audit.head == Some(HashBefore(s.db.audit.rows, |calls|)))
            && AuditChain.Verify(h, s.db.audit).valid
  {
    RunSerialized(h, events);
    var s := Run(h, events);
    SerialAudit(h, s.history);
    GenuineChains(h, Calls(s.history));
    hide Run, SerialAll, Isolated, AppendAll, AuditChain.Verify;
    VerifyAccepts(h, s.db.audit);
    forall k | 0 <= k < |s.db.audit.rows| ensures s.db.audit.rows[k].entry.sequence == k + 1 {
      ChainedRow(h, s.db.audit.rows, k);
    }
  }

  /** In every committed state every record and every key has exactly its versions
      1..latest, listed in order, and no version row is left without its parent. */
  lemma VersionsNeverSkip(h: Hash, events: seq<Event>)
    ensures var db := Run(h, events).db;
            && (forall key :: key in db.kv.parents ==>
                  db.kv.parents[key].latest >= 1
                  && ListVersions(db.kv, key) == Sorting.Count(db.kv.parents[key].latest))
            && (forall key :: key in db.keys.parents ==>
                  db.keys.parents[key].latest >= 1
                  && ListVersions(db.keys, key) == Sorting.Count(db.keys.parents[key].latest))
            && NoOrphans(db.kv) && NoOrphans(db.keys)
  {
    RunSerialized(h, events);
    var s := Run(h, events);
    SerialTables(h, s.history);
    hide Run, SerialAll, Isolated, ListVersions, IdsDistinct, VersionsPresent, NoOrphans;
    forall key | key in s.db.kv.parents
      ensures s.db.kv.parents[key].latest >= 1
           && ListVersions(s.db.kv, key) == Sorting.Count(s.db.kv.parents[key].latest)
    {
      ListIsContiguous(s.db.kv, key);
    }
    forall key | key in s.db.keys.parents
      ensures s.db.keys.parents[key].latest >= 1
           && ListVersions(s.db.keys, key) == Sorting.Count(s.db.keys.parents[key].latest)
    {
      ListIsContiguous(s.db.keys, key);
    }
  }

  // ------------------------------------------------------- what the rows were made of

  /** Transaction `n` of the history wrote this row of `key`, encrypting for this version. */
  ghost predicate WroteRow(txns: seq<Txn>, n: nat, key: Key, version: int, row: K.Version) {
    n < |txns| && txns[n].Wrote? && txns[n].key == key && row == K.Version(txns[n].encrypt(version), txns[n].now)
  }

  /** Likewise for a row of a named key, which a creation makes as version 1 only. */
  ghost predicate WrappedRow(txns: seq<Txn>, n: nat, key: Key, version: int, row: N.Version) {
    && n < |txns| && (txns[n].Rotated? || (txns[n].Created? && version == 1))
    && txns[n].key == key && row == N.Version(txns[n].wrap(version), txns[n].now)
  }

  ghost predicate KvSourced(txns: seq<Txn>, kv: K.KvTables) {
    forall key, v :: key in kv.parents && 1 <= v <= kv.parents[key].latest && (kv.parents[key].id, v) in kv.rows ==>
      exists n: nat :: WroteRow(txns, n, key, v, kv.rows[(kv.parents[key].id, v)])
  }

  ghost predicate KeysSourced(txns: seq<Txn>, keys: N.KeyTables) {
    forall key, v :: key in keys.parents && 1 <= v <= keys.parents[key].latest
                     && (keys.parents[key].id, v) in keys.rows ==>
      exists n: nat :: WrappedRow(txns, n, key, v, keys.rows[(keys.parents[key].id, v)])
  }

  lemma KvSourcedLater(txns: seq<Txn>, txn: Txn, kv: K.KvTables)
    requires KvSourced(txns, kv)
    ensures KvSourced(txns + [txn], kv)
  {
    var later := txns + [txn];
    forall key, v | key in kv.parents && 1 <= v <= kv.parents[key].latest && (kv.parents[key].id, v) in kv.rows
      ensures exists n: nat :: WroteRow(later, n, key, v, kv.rows[(kv.parents[key].id, v)])
    {
      var n: nat :| WroteRow(txns, n, key, v, kv.rows[(kv.parents[key].id, v)]);
      assert WroteRow(later, n, key, v, kv.rows[(kv.parents[key].id, v)]);
    }
  }

  lemma KeysSourcedLater(txns: seq<Txn>, txn: Txn, keys: N.KeyTables)
    requires KeysSourced(txns, keys)
    ensures KeysSourced(txns + [txn], keys)
  {
    var later := txns + [txn];
    forall key, v | key in keys.parents && 1 <= v <= keys.parents[key].latest && (keys.parents[key].id, v) in keys.rows
      ensures exists n: nat :: WrappedRow(later, n, key, v, keys.rows[(keys.parents[key].id, v)])
    {
      var n: nat :| WrappedRow(txns, n, key, v, keys.rows[(keys.parents[key].id, v)]);
      assert WrappedRow(later, n, key, v, keys.rows[(keys.parents[key].id, v)]);
    }
  }

  /** The rows an insertion leaves: those of before, and its own. */
  lemma PutRows<M, R>(t: Tables<M, R>, key: Key, meta: M, row: R, other: Key, v: int)
    requires Consistent(t) && Put(t, key, meta, row).Some?
    requires var t' := Put(t, key, meta, row).value; other in t'.parents && 1 <= v <= t'.parents[other].latest
    ensures var t' := Put(t, key, meta, row).value;
            var r := (t'.parents[other].id, v);
            if other == key && v == NextVersion(t, key) then r in t'.rows && t'.rows[r] == row
            else && other in t.parents && t.parents[other].id == r.0 && v <= t.parents[other].latest
                 && r in t.rows && r in t'.rows && t'.rows[r] == t.rows[r]
  {
    hide Consistent;
    NewRow(t, key, meta, row);
    if other in t.parents && v <= t.parents[other].latest {
      PutShape(t, key, meta, row, other, v);
    }
  }

  lemma WriteSourced(txns: seq<Txn>, txn: Txn, kv: K.KvTables)
    requires txn.Wrote? && Consistent(kv) && KvSourced(txns, kv)
    ensures KvSourced(txns + [txn], K.Append(kv, txn.key, txn.now, txn.encrypt(NextVersion(kv, txn.key))).0)
  {
    hide Consistent, Put, NextVersion;
    var later := txns + [txn];
    KvSourcedLater(txns, txn, kv);
    var created := if txn.key in kv.parents then kv.parents[txn.key].meta.created else txn.now;
    var meta, row := K.Times(created, txn.now), K.Version(txn.encrypt(NextVersion(kv, txn.key)), txn.now);
    PutKeepsConsistent(kv, txn.key, meta, row);
    var t' := Put(kv, txn.key, meta, row).value;
    forall key, v | key in t'.parents && 1 <= v <= t'.parents[key].latest && (t'.parents[key].id, v) in t'.rows
      ensures exists n: nat :: WroteRow(later, n, key, v, t'.rows[(t'.parents[key].id, v)])
    {
      PutRows(kv, txn.key, meta, row, key, v);
      if key == txn.key && v == NextVersion(kv, key) {
        assert WroteRow(later, |txns|, key, v, row);
      }
    }
  }

  lemma MintSourced(txns: seq<Txn>, txn: Txn, keys: N.KeyTables, meta: N.KeyMeta)
    requires txn.Rotated? || (txn.Created? && txn.key !in keys.parents)
    requires Consistent(keys) && KeysSourced(txns, keys)
    ensures var put := Put(keys, txn.key, meta, N.Version(txn.wrap(NextVersion(keys, txn.key)), txn.now));
            put.Some? && KeysSourced(txns + [txn], put.value)
  {
    assert txn.Created? ==> NextVersion(keys, txn.key) == 1;
    hide Consistent, Put, NextVersion;
    var later := txns + [txn];
    KeysSourcedLater(txns, txn, keys);
    var row := N.Version(txn.wrap(NextVersion(keys, txn.key)), txn.now);
    PutKeepsConsistent(keys, txn.key, meta, row);
    var t' := Put(keys, txn.key, meta, row).value;
    forall key, v | key in t'.parents && 1 <= v <= t'.parents[key].latest && (t'.parents[key].id, v) in t'.rows
      ensures exists n: nat :: WrappedRow(later, n, key, v, t'.rows[(t'.parents[key].id, v)])
    {
      PutRows(keys, txn.key, meta, row, key, v);
      if key == txn.key && v == NextVersion(keys, key) {
        assert WrappedRow(later, |txns|, key, v, row);
      }
    }
  }

  lemma DropSourced(txns: seq<Txn>, kv: K.KvTables, keys: N.KeyTables, key: Key)
    requires Consistent(kv) && Consistent(keys) && KvSourced(txns, kv) && KeysSourced(txns, keys)
    ensures KvSourced(txns, K.Delete(kv, key).0) && KeysSourced(txns, N.DeleteOwned(keys, key).0)
  {
    hide Consistent;
  }

  lemma SerialSourced(h: Hash, txns: seq<Txn>, txn: Txn, db: Db)
    requires Consistent(db.kv) && Consistent(db.keys) && KvSourced(txns, db.kv) && KeysSourced(txns, db.keys)
    ensures KvSourced(txns + [txn], Serial(h, db, txn).kv) && KeysSourced(txns + [txn], Serial(h, db, txn).keys)
  {
    hide Consistent, KvSourced, KeysSourced, AuditChain.Append, Put, K.Append, K.Delete, N.DeleteOwned;
    KvSourcedLater(txns, txn, db.kv);
    KeysSourcedLater(txns, txn, db.keys);
    match txn
    case Wrote(_, _, _) => WriteSourced(txns, txn, db.kv);
    case Created(key, usage, algorithm, now, _) =>
      if key !in db.keys.parents {
        assert NextVersion(db.keys, key) == 1;
        MintSourced(txns, txn, db.keys, N.KeyMeta(usage, algorithm, now, now));
      }
    case Rotated(key, now, _) =>
      if key in db.keys.parents {
        MintSourced(txns, txn, db.keys, db.keys.parents[key].meta.(updated := now));
      }
    case DroppedRecord(key) => DropSourced(txns + [txn], db.kv, db.keys, key);
    case DroppedKey(key) => DropSourced(txns + [txn], db.kv, db.keys, key);
    case _ =>
  }

  lemma EmptySourced()
    ensures KvSourced([], EMPTY_DB.kv) && KeysSourced([], EMPTY_DB.keys)
  {
  }

  lemma {:induction false} AllSourced(h: Hash, txns: seq<Txn>)
    ensures KvSourced(txns, SerialAll(h, txns).kv) && KeysSourced(txns, SerialAll(h, txns).keys)
  {
    hide Serial, KvSourced, KeysSourced, Consistent;
    if txns == [] {
      EmptySourced();
    } else {
      var n := |txns| - 1;
      AllSourced(h, txns[..n]);
      SerialTables(h, txns[..n]);
      SerialSourced(h, txns[..n], txns[n], SerialAll(h, txns[..n]));
      assert txns[..n] + [txns[n]] == txns;
    }
  }

  /** No version is ever encrypted for another.  In every committed state of every
      interleaving each version row of each record and key is there and holds what a
      committed job of that very record or key encrypted for that very version. */
  lemma RowsHoldTheirVersion(h: Hash, events: seq<Event>, key: Key, version: int)
    ensures var s := Run(h, events);
            key in s.db.kv.parents && 1 <= version <= s.db.kv.parents[key].latest ==>
              var r := (s.db.kv.parents[key].id, version);
              r in s.db.kv.rows && exists n: nat :: WroteRow(s.history, n, key, version, s.db.kv.rows[r])
    ensures var s := Run(h, events);
            key in s.db.keys.parents && 1 <= version <= s.db.keys.parents[key].latest ==>
              var r := (s.db.keys.parents[key].id, version);
              r in s.db.keys.rows && exists n: nat :: WrappedRow(s.history, n, key, version, s.db.keys.rows[r])
  {
    RunSerialized(h, events);
    var s := Run(h, events);
    AllSourced(h, s.history);
    SerialTables(h, s.history);
    hide Run, SerialAll, Isolated, IdsDistinct, NoOrphans;
  }

  lemma FailsOnlyOn(h: Hash, db: Db, job: Job, phase: Phase, work: Db)
    requires OnTrack(h, db, job, phase, work) && Consistent(db.kv) && Consistent(db.keys) && !phase.Done?
    ensures Advance(h, job, phase, work) == None
       <==> job.CreateJob? && phase.Begun? && job.key in db.keys.parents
  {
    hide Consistent, Preimage;
    if job.WriteJob? {
      NextVersionIsFree(db.kv, job.key);
    } else if job.CreateJob? || job.RotateJob? {
      NextVersionIsFree(db.keys, job.key);
    }
  }

  /** The only statement the constraints ever refuse is the creation of a key whose
      owner has one of that name. */
  lemma OnlyDuplicateNamesFail(h: Hash, events: seq<Event>, id: int)
    requires var s := Run(h, events); id in s.clients && s.clients[id].Running? && !s.clients[id].phase.Done?
    ensures var s := Run(h, events);
            var c := s.clients[id];
            Advance(h, c.job, c.phase, c.work) == None
            <==> c.job.CreateJob? && c.phase.Begun? && c.job.key in s.db.keys.parents
  {
    RunSerialized(h, events);
    hide Run, OnTrack, Advance, SerialAll, Consistent;
    var s := Run(h, events);
    SerialTables(h, s.history);
    FailsOnlyOn(h, s.db, s.clients[id].job, s.clients[id].phase, s.clients[id].work);
  }

  /** How many statements a client has before it at most. */
  function StatementsLeft(job: Job, phase: Phase): nat {
    match phase
    case Done(_) => 0
    case Begun =>
      if job.LogJob? || job.WriteJob? || job.RotateJob? then 3 else if job.CreateJob? then 2 else 1
    case LastRowRead(_, _) => 2
    case RecordRead(_) => 2
    case KeyRead(_) => 2
    case _ => 1
  }

  /** Every statement brings its transaction nearer to the commit: the holder of the lock
      is done after at most three. */
  lemma EveryStatementAdvances(h: Hash, db: Db, job: Job, phase: Phase, work: Db)
    requires OnTrack(h, db, job, phase, work)
    ensures StatementsLeft(job, phase) <= 3 && (StatementsLeft(job, phase) == 0 <==> phase.Done?)
    ensures var r := Advance(h, job, phase, work);
            r.Some? ==> StatementsLeft(job, r.value.0) < StatementsLeft(job, phase)
  {
    hide Preimage, NextRow, Serial, Fits;
  }

  // --------------------------------------------------- how many versions there are

  /** The newest version of a record or key, nought when there is none. */
  function Latest<M, R>(t: Tables<M, R>, key: Key): int {
    if key in t.parents then t.parents[key].latest else 0
  }

  /** How often a record was written since it was last deleted. */
  function WritesSince(txns: seq<Txn>, key: Key): nat {
    if txns == [] then 0
    else
      var before, txn := WritesSince(txns[..|txns| - 1], key), txns[|txns| - 1];
      if txn.Wrote? && txn.key == key then before + 1
      else if txn.DroppedRecord? && txn.key == key then 0
      else before
  }

  /** How often a key was created and rotated since it was last revoked. */
  function MintsSince(txns: seq<Txn>, key: Key): nat {
    if txns == [] then 0
    else
      var before, txn := MintsSince(txns[..|txns| - 1], key), txns[|txns| - 1];
      if txn.Created? && txn.key == key && before == 0 then 1
      else if txn.Rotated? && txn.key == key && before > 0 then before + 1
      else if txn.DroppedKey? && txn.key == key then 0
      else before
  }

  lemma SerialCounts(h: Hash, db: Db, txn: Txn, key: Key)
    requires Consistent(db.kv) && Consistent(db.keys)
    ensures var db' := Serial(h, db, txn);
            && Latest(db'.kv, key) == (if txn.Wrote? && txn.key == key then Latest(db.kv, key) + 1
                                       else if txn.DroppedRecord? && txn.key == key then 0 else Latest(db.kv, key))
            && Latest(db'.keys, key)
               == (if txn.Created? && txn.key == key && Latest(db.keys, key) == 0 then 1
                   else if txn.Rotated? && txn.key == key && Latest(db.keys, key) > 0 then Latest(db.keys, key) + 1
                   else if txn.DroppedKey? && txn.key == key then 0 else Latest(db.keys, key))
  {
    hide AuditChain.Append, NoOrphans, VersionsPresent, HasParent;
    match txn
    case Wrote(other, _, _) => NextVersionIsFree(db.kv, other);
    case Created(other, _, _, _, _) => NextVersionIsFree(db.keys, other);
    case Rotated(other, _, _) => NextVersionIsFree(db.keys, other);
    case _ =>
  }

  /** In every committed state of every interleaving a record has as many versions as
      writes to it were committed since its last deletion, and a key as many as its
      creation and rotations since it was last revoked. */
  lemma VersionsAreCounted(h: Hash, events: seq<Event>, key: Key)
    ensures var s := Run(h, events);
            Latest(s.db.kv, key) == WritesSince(s.history, key) && Latest(s.db.keys, key) == MintsSince(s.history, key)
  {
    RunSerialized(h, events);
    CountsSerial(h, Run(h, events).history, key);
    hide Run, SerialAll, Isolated;
  }

  lemma {:induction false} CountsSerial(h: Hash, txns: seq<Txn>, key: Key)
    ensures Latest(SerialAll(h, txns).kv, key) == WritesSince(txns, key)
    ensures Latest(SerialAll(h, txns).keys, key) == MintsSince(txns, key)
  {
    hide Serial, Consistent;
    if txns != [] {
      var n := |txns| - 1;
      CountsSerial(h, txns[..n], key);
      SerialTables(h, txns[..n]);
      SerialCounts(h, SerialAll(h, txns[..n]), txns[n], key);
    }
  }

  // -------------------------------------------------------- every transaction can commit

  /** The events go on from a state, first one first. */
  function RunFrom(h: Hash, s: State, events: seq<Event>): State
    decreases |events|
  {
    if events == [] then s else RunFrom(h, Next(h, s, events[0]), events[1..])
  }

  lemma {:induction false} RunGoesOn(h: Hash, events: seq<Event>, more: seq<Event>)
    ensures Run(h, events + more) == RunFrom(h, Run(h, events), more)
    decreases |more|
  {
    hide Next;
    if more == [] {
      assert events + more == events;
    } else {
      var next := events + [more[0]];
      assert next[..|events|] == events && events + more == next + more[1..];
      RunGoesOn(h, next, more[1..]);
    }
  }

  /** The client holds the lock in the middle of its transaction. */
  ghost predicate Underway(h: Hash, s: State, id: int, job: Job) {
    && id in s.clients && s.clients[id].Running? && s.clients[id].job == job && s.lock == Some(id)
    && OnTrack(h, s.db, job, s.clients[id].phase, s.clients[id].work)
    && Consistent(s.db.kv) && Consistent(s.db.keys)
    && !(job.CreateJob? && s.clients[id].phase.Begun? && job.key in s.db.keys.parents)
  }

  function Left(s: State, id: int): nat
    requires id in s.clients && s.clients[id].Running?
  {
    StatementsLeft(s.clients[id].job, s.clients[id].phase)
  }

  lemma StatementTurns(h: Hash, s: State, id: int, job: Job)
    requires Underway(h, s, id, job)
    ensures var s' := Next(h, s, Statement(id));
            && Underway(h, s', id, job) && s'.db == s.db && s'.history == s.history
            && (Left(s, id) > 0 ==> Left(s', id) < Left(s, id)) && (Left(s, id) == 0 ==> s' == s)
  {
    hide Consistent, OnTrack, Advance, StatementsLeft;
    var c := s.clients[id];
    EveryStatementAdvances(h, s.db, job, c.phase, c.work);
    if !c.phase.Done? {
      FailsOnlyOn(h, s.db, job, c.phase, c.work);
      StaysOnTrack(h, s.db, job, c.phase, c.work);
      NeverBeginsAgain(h, job, c.phase, c.work);
    }
  }

  lemma NeverBeginsAgain(h: Hash, job: Job, phase: Phase, work: Db)
    ensures var r := Advance(h, job, phase, work); r.Some? ==> !r.value.0.Begun?
  {
    hide Preimage;
  }

  function OneTransaction(id: int, job: Job): seq<Event> {
    [Submit(id, job), Begin(id), Statement(id), Statement(id), Statement(id), Commit(id)]
  }

  /** A transaction carried out: committed as the job asked, with the lock free again. */
  ghost predicate CarriedOut(s: State, s': State, id: int, job: Job) {
    && s'.lock.None? && id !in s'.clients
    && |s'.history| == |s.history| + 1 && s'.history[..|s.history|] == s.history
    && Fits(job, s'.history[|s.history|]) && Finds(s.db, s'.history[|s.history|])
  }

  lemma CommitsWhenDone(h: Hash, s: State, s0: State, id: int, job: Job)
    requires Underway(h, s, id, job) && Left(s, id) == 0 && s.db == s0.db && s.history == s0.history
    ensures CarriedOut(s0, Next(h, s, Commit(id)), id, job)
  {
    hide Consistent, OnTrack, Serial, Fits, Finds;
    var c := s.clients[id];
    EveryStatementAdvances(h, s.db, job, c.phase, c.work);
    DoneIsSerial(h, s.db, job, c.phase.txn, c.work);
  }

  lemma BeginsUnderway(h: Hash, s: State, id: int, job: Job)
    requires s.lock.None? && id !in s.clients && Consistent(s.db.kv) && Consistent(s.db.keys)
    requires !(job.CreateJob? && job.key in s.db.keys.parents)
    ensures var s' := Next(h, Next(h, s, Submit(id, job)), Begin(id));
            Underway(h, s', id, job) && s'.db == s.db && s'.history == s.history && Left(s', id) <= 3
  {
    hide Consistent, OnTrack;
    BegunOnTrack(h, s.db, job);
  }

  lemma NextFirst(h: Hash, s: State, e: Event, more: seq<Event>)
    ensures RunFrom(h, s, [e] + more) == RunFrom(h, Next(h, s, e), more)
  {
    hide Next;
    assert ([e] + more)[1..] == more;
  }

  lemma SixEvents(h: Hash, s: State, id: int, job: Job)
    ensures RunFrom(h, s, OneTransaction(id, job))
         == Next(h, Next(h, Next(h, Next(h, Next(h, Next(h, s, Submit(id, job)), Begin(id)), Statement(id)),
                                 Statement(id)), Statement(id)), Commit(id))
  {
    hide Next, RunFrom;
    var four := [Statement(id), Statement(id), Statement(id), Commit(id)];
    var three, two := [Statement(id), Statement(id), Commit(id)], [Statement(id), Commit(id)];
    var s1 := Next(h, s, Submit(id, job));
    var s2 := Next(h, s1, Begin(id));
    var s3 := Next(h, s2, Statement(id));
    var s4 := Next(h, s3, Statement(id));
    var s5 := Next(h, s4, Statement(id));
    assert OneTransaction(id, job) == [Submit(id, job)] + ([Begin(id)] + four);
    assert four == [Statement(id)] + three && three == [Statement(id)] + two && two == [Statement(id)] + [Commit(id)];
    NextFirst(h, s, Submit(id, job), [Begin(id)] + four);
    NextFirst(h, s1, Begin(id), four);
    NextFirst(h, s2, Statement(id), three);
    NextFirst(h, s3, Statement(id), two);
    NextFirst(h, s4, Statement(id), [Commit(id)]);
    assert [Commit(id)] == [Commit(id)] + [];
    NextFirst(h, s5, Commit(id), []);
    NothingMore(h, Next(h, s5, Commit(id)));
  }

  lemma NothingMore(h: Hash, s: State)
    ensures RunFrom(h, s, []) == s
  {
  }

  /** Nothing keeps a transaction from its commit but a name that is taken: after any run
      that leaves the lock free, any job of a new client, submitted, begun and executed, is
      committed as asked. */
  lemma TransactionsGoThrough(h: Hash, events: seq<Event>, id: int, job: Job)
    requires Run(h, events).lock.None? && id !in Run(h, events).clients
    requires !(job.CreateJob? && job.key in Run(h, events).db.keys.parents)
    ensures CarriedOut(Run(h, events), Run(h, events + OneTransaction(id, job)), id, job)
  {
    hide Run, Next, Underway, CarriedOut, Consistent, Left, Isolated, SerialAll;
    var s := Run(h, events);
    RunSerialized(h, events);
    SerialTables(h, s.history);
    RunGoesOn(h, events, OneTransaction(id, job));
    var s2 := Next(h, Next(h, s, Submit(id, job)), Begin(id));
    BeginsUnderway(h, s, id, job);
    var s3 := Next(h, s2, Statement(id));
    StatementTurns(h, s2, id, job);
    var s4 := Next(h, s3, Statement(id));
    StatementTurns(h, s3, id, job);
    var s5 := Next(h, s4, Statement(id));
    StatementTurns(h, s4, id, job);
    CommitsWhenDone(h, s5, s, id, job);
    SixEvents(h, s, id, job);
  }
}
