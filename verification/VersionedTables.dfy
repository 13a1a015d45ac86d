/** The pair of tables both stores of src/storage/database.py use: a parent row
    for each (owner, name) that points at its newest version, and one row a
    version.  A map keyed by (owner, name) is the UNIQUE constraint of the parent
    table, a map keyed by (parent id, version) that of the version table, and
    `nextId` is AUTOINCREMENT, so an id is never given out twice. */
module VersionedTables {
  import opened Text
  import opened Sorting

  type Key = (string, string)

  datatype Parent<+M> = Parent(id: int, latest: int, meta: M)

  datatype Tables<+M, +R> = Tables(parents: map<Key, Parent<M>>, rows: map<(int, int), R>, nextId: int)

  /** The id and the version the next row under `key` gets. */
  function IdFor<M, R>(t: Tables<M, R>, key: Key): int {
    if key in t.parents then t.parents[key].id else t.nextId
  }

  function NextVersion<M, R>(t: Tables<M, R>, key: Key): int {
    if key in t.parents then t.parents[key].latest + 1 else 1
  }

  /** Point the parent at its next version and insert that version; None is the
      IntegrityError of a version row that exists, which rolls everything back. */
  function Put<M, R>(t: Tables<M, R>, key: Key, meta: M, row: R): Option<Tables<M, R>> {
    var id, version := IdFor(t, key), NextVersion(t, key);
    if (id, version) in t.rows then None
    else Some(Tables(t.parents[key := Parent(id, version, meta)], t.rows[(id, version) := row],
                     if key in t.parents then t.nextId else t.nextId + 1))
  }

  /** Delete the parent; the foreign key cascades to all its versions. */
  function Remove<M, R>(t: Tables<M, R>, key: Key): Tables<M, R>
    requires key in t.parents
  {
    Tables(t.parents - {key}, WithoutId(t.rows, t.parents[key].id), t.nextId)
  }

  function WithoutId<R>(rows: map<(int, int), R>, id: int): map<(int, int), R> {
    map k | k in rows && k.0 != id :: rows[k]
  }

  function VersionsOf<R>(rows: map<(int, int), R>, id: int): set<int> {
    set k | k in rows && k.0 == id :: k.1
  }

  /** A listing of the versions of one parent, ascending. */
  function ListVersions<M, R>(t: Tables<M, R>, key: Key): seq<int> {
    if key in t.parents then Ascending(VersionsOf(t.rows, t.parents[key].id)) else []
  }

  // --------------------------------------------------- what the tables always keep

  ghost predicate IdsDistinct<M, R>(t: Tables<M, R>) {
    && (forall k :: k in t.parents ==> t.parents[k].id < t.nextId && t.parents[k].latest >= 1)
    && (forall k, l :: k in t.parents && l in t.parents && t.parents[k].id == t.parents[l].id ==> k == l)
  }

  ghost predicate VersionsPresent<M, R>(t: Tables<M, R>) {
    forall k, v :: k in t.parents && 1 <= v <= t.parents[k].latest ==> (t.parents[k].id, v) in t.rows
  }

  ghost predicate HasParent<M, R>(t: Tables<M, R>, row: (int, int)) {
    exists k :: k in t.parents && t.parents[k].id == row.0 && 1 <= row.1 <= t.parents[k].latest
  }

  ghost predicate NoOrphans<M, R>(t: Tables<M, R>) {
    forall r :: r in t.rows ==> HasParent(t, r)
  }

  /** Ids are distinct and below the counter, every parent has its versions
      1..latest, and no version is left without its parent. */
  ghost predicate Consistent<M, R>(t: Tables<M, R>) {
    IdsDistinct(t) && VersionsPresent(t) && NoOrphans(t)
  }

  lemma NextVersionIsFree<M, R>(t: Tables<M, R>, key: Key)
    requires Consistent(t)
    ensures (IdFor(t, key), NextVersion(t, key)) !in t.rows
  {
    var row := (IdFor(t, key), NextVersion(t, key));
    assert row in t.rows ==> HasParent(t, row);
  }

  /** On consistent tables an insertion never fails, and leaves them consistent. */
  lemma PutKeepsConsistent<M, R>(t: Tables<M, R>, key: Key, meta: M, row: R)
    requires Consistent(t)
    ensures Put(t, key, meta, row).Some? && Consistent(Put(t, key, meta, row).value)
  {
    NextVersionIsFree(t, key);
    var t' := Put(t, key, meta, row).value;
    var id, version := IdFor(t, key), NextVersion(t, key);
    assert t'.rows.Keys == t.rows.Keys + {(id, version)};
    PutKeepsParents(t, t', key, id, version);
    hide HasParent;
  }

  lemma PutKeepsParents<M, R>(t: Tables<M, R>, t': Tables<M, R>, key: Key, id: int, version: int)
    requires NoOrphans(t) && IdsDistinct(t)
    requires key in t'.parents && t'.parents == t.parents[key := t'.parents[key]]
    requires t'.parents[key].id == id && t'.parents[key].latest == version >= 1
    requires key in t.parents ==> t.parents[key].id == id && t.parents[key].latest < version
    requires t'.rows.Keys == t.rows.Keys + {(id, version)}
    ensures NoOrphans(t')
  {
    forall r | r in t'.rows ensures HasParent(t', r) {
      if r == (id, version) {
        assert key in t'.parents;
      } else {
        assert r in t.rows.Keys;
        KeepsParent(t, t', r);
      }
    }
  }

  lemma KeepsParent<M, R>(t: Tables<M, R>, t': Tables<M, R>, row: (int, int))
    requires HasParent(t, row)
    requires forall k :: k in t.parents && t.parents[k].id == row.0 ==>
               k in t'.parents && t'.parents[k].id == row.0 && t.parents[k].latest <= t'.parents[k].latest
    ensures HasParent(t', row)
  {
    var k :| k in t.parents && t.parents[k].id == row.0 && 1 <= row.1 <= t.parents[k].latest;
    assert k in t'.parents;
  }

  lemma RemoveKeepsConsistent<M, R>(t: Tables<M, R>, key: Key)
    requires Consistent(t) && key in t.parents
    ensures Consistent(Remove(t, key))
  {
    var t' := Remove(t, key);
    forall r | r in t'.rows ensures HasParent(t', r) {
      KeepsParent(t, t', r);
    }
  }

  /** The listing of a parent is exactly 1, 2, .., latest. */
  lemma ListIsContiguous<M, R>(t: Tables<M, R>, key: Key)
    requires Consistent(t) && key in t.parents
    ensures t.parents[key].latest >= 1 && ListVersions(t, key) == Count(t.parents[key].latest)
  {
    var id, n := t.parents[key].id, t.parents[key].latest;
    forall v ensures v in VersionsOf(t.rows, id) <==> v in Range(n) {
      InRange(n, v);
      if (id, v) in t.rows {
        assert HasParent(t, (id, v));
      }
    }
    assert VersionsOf(t.rows, id) == Range(n);
    AscendingRange(n);
  }

  /** A version beyond the newest is not there. */
  lemma VersionInTable<M, R>(t: Tables<M, R>, key: Key, version: int)
    requires Consistent(t) && key in t.parents
    ensures (t.parents[key].id, version) in t.rows <==> 1 <= version <= t.parents[key].latest
  {
    var r := (t.parents[key].id, version);
    if r in t.rows {
      assert HasParent(t, r);
    }
  }

  /** What an insertion adds. */
  lemma NewRow<M, R>(t: Tables<M, R>, key: Key, meta: M, row: R)
    requires Put(t, key, meta, row).Some?
    ensures var t' := Put(t, key, meta, row).value; var r := (IdFor(t, key), NextVersion(t, key));
            && key in t'.parents && t'.parents[key] == Parent(r.0, r.1, meta)
            && r in t'.rows && t'.rows[r] == row
            && t'.parents.Keys == t.parents.Keys + {key}
  {
  }

  lemma PutParent<M, R>(t: Tables<M, R>, key: Key, meta: M, row: R, other: Key)
    requires Put(t, key, meta, row).Some? && other in t.parents && other != key
    ensures other in Put(t, key, meta, row).value.parents
    ensures Put(t, key, meta, row).value.parents[other] == t.parents[other]
  {
  }

  /** What an insertion leaves of every other parent, and adds to its own. */
  lemma PutShape<M, R>(t: Tables<M, R>, key: Key, meta: M, row: R, other: Key, version: int)
    requires Consistent(t) && Put(t, key, meta, row).Some?
    requires other in t.parents && 1 <= version <= t.parents[other].latest
    ensures var t' := Put(t, key, meta, row).value; var r := (t.parents[other].id, version);
            && other in t'.parents && t'.parents[other].id == r.0
            && (other != key ==> t'.parents[other] == t.parents[other])
            && r in t.rows && r in t'.rows && t'.rows[r] == t.rows[r]
  {
  }

  /** What a deletion leaves of every other parent. */
  lemma RemoveShape<M, R>(t: Tables<M, R>, key: Key, other: Key, version: int)
    requires Consistent(t) && key in t.parents && other != key
    requires other in t.parents && 1 <= version <= t.parents[other].latest
    ensures var t' := Remove(t, key); var r := (t.parents[other].id, version);
            && other in t'.parents && t'.parents[other] == t.parents[other]
            && r in t.rows && r in t'.rows && t'.rows[r] == t.rows[r]
  {
  }
}
