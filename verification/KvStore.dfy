/** The KV tables and their transactions: src/kv/repository.py. */
module KvStore {
  import opened Text
  import opened Crypto
  import opened VersionedTables

  datatype Times = Times(created: string, updated: string)

  datatype Version = Version(columns: Columns, created: string)

  type KvTables = Tables<Times, Version>

  const EMPTY: KvTables := Tables(map[], map[], 1)

  datatype Outcome = Appended(created: string, updated: string, version: int) | IntegrityError

  /** One whole `append_version` transaction with the ciphertext it was given. */
  function Append(t: KvTables, key: Key, now: string, columns: Columns): (KvTables, Outcome) {
    var created := if key in t.parents then t.parents[key].meta.created else now;
    match Put(t, key, Times(created, now), Version(columns, now))
    case None => (t, IntegrityError)
    case Some(t') => (t', Appended(created, now, NextVersion(t, key)))
  }

  datatype Found = Found(version: int, row: Version, latest: int)

  /** `get_version`; no version means the current one. */
  function GetVersion(t: KvTables, key: Key, version: Option<int>): Option<Found> {
    if key !in t.parents then None
    else
      var parent := t.parents[key];
      var wanted := if version.Some? then version.value else parent.latest;
      if (parent.id, wanted) in t.rows then Some(Found(wanted, t.rows[(parent.id, wanted)], parent.latest)) else None
  }

  datatype Listed = Listed(version: int, created: string)

  /** `list_versions`: version and creation time, versions ascending. */
  function History(t: KvTables, key: Key): seq<Listed> {
    var numbers := ListVersions(t, key);
    seq(|numbers|, k requires 0 <= k < |numbers| => Listed(numbers[k], CreatedAt(t, key, numbers[k])))
  }

  function CreatedAt(t: KvTables, key: Key, version: int): string {
    if key in t.parents && (t.parents[key].id, version) in t.rows then t.rows[(t.parents[key].id, version)].created
    else ""
  }

  /** `delete`; the flag is `rowcount > 0`. */
  function Delete(t: KvTables, key: Key): (KvTables, bool) {
    if key in t.parents then (Remove(t, key), true) else (t, false)
  }

  /** The repository as an object whose tables the transactions update. */
  class KvRepository {
    var records: map<Key, Parent<Times>>
    var versions: map<(int, int), Version>
    var nextId: int

    function State(): KvTables
      reads this
    {
      Tables(records, versions, nextId)
    }

    constructor ()
      ensures State() == EMPTY
    {
      records, versions, nextId := map[], map[], 1;
    }

    /** `encrypt` runs inside the transaction, once the version is allotted; None is its
        ValueError, which rolls everything back. */
    method AppendVersion(key: Key, now: string, encrypt: int -> Option<(Ledger, Columns)>)
      returns (done: Option<(Ledger, Outcome)>)
      modifies this
      ensures match encrypt(NextVersion(old(State()), key))
              case None => done == None && State() == old(State())
              case Some((ledger, columns)) =>
                var (after, outcome) := Append(old(State()), key, now, columns);
                done == Some((ledger, outcome)) && State() == after
    {
      var before := State();
      var recordId, version, createdAt;
      if key !in records {
        version := 1;
        recordId := nextId;
        createdAt := now;
        nextId := nextId + 1;
        records := records[key := Parent(recordId, version, Times(now, now))];
      } else {
        var record := records[key];
        recordId := record.id;
        version := record.latest + 1;
        createdAt := record.meta.created;
        records := records[key := Parent(recordId, version, record.meta.(updated := now))];
      }
      var sealed := encrypt(version);
      if sealed.None? {
        records, versions, nextId := before.parents, before.rows, before.nextId;
        return None;
      }
      var (ledger, columns) := sealed.value;
      if (recordId, version) in versions {
        records, versions, nextId := before.parents, before.rows, before.nextId;
        return Some((ledger, IntegrityError));
      }
      versions := versions[(recordId, version) := Version(columns, now)];
      return Some((ledger, Appended(createdAt, now, version)));
    }

    method DeleteRecord(key: Key) returns (deleted: bool)
      modifies this
      ensures (State(), deleted) == Delete(old(State()), key)
    {
      deleted := key in records;
      if deleted {
        versions := WithoutId(versions, records[key].id);
        records := records - {key};
      }
    }
  }
}
