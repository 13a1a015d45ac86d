/** The named-key tables and their transactions: src/transit/repository.py. */
module KeyStore {
  import opened Text
  import opened Crypto
  import opened VersionedTables

  datatype KeyMeta = KeyMeta(usage: string, algorithm: Option<string>, created: string, updated: string)

  /** Wrapped material, and the public half of a signing key. */
  datatype Material = Material(columns: Columns, publicKey: Option<string>)

  datatype Version = Version(material: Material, created: string)

  type KeyTables = Tables<KeyMeta, Version>

  const EMPTY: KeyTables := Tables(map[], map[], 1)

  /** `create`; None is KeyAlreadyExistsError, raised for any UNIQUE violation. */
  function Create(t: KeyTables, key: Key, usage: string, algorithm: Option<string>, now: string, material: Material)
    : Option<KeyTables>
  {
    if key in t.parents then None
    else Put(t, key, KeyMeta(usage, algorithm, now, now), Version(material, now))
  }

  datatype Rotated = Unknown | IntegrityError | Rotated(tables: KeyTables)

  /** `rotate`. */
  function Rotate(t: KeyTables, key: Key, now: string, material: Material): Rotated {
    if key !in t.parents then Unknown
    else
      match Put(t, key, t.parents[key].meta.(updated := now), Version(material, now))
      case None => IntegrityError
      case Some(t') => Rotated(t')
  }

  /** `delete_owned`; the flag is `rowcount > 0`. */
  function DeleteOwned(t: KeyTables, key: Key): (KeyTables, bool) {
    if key in t.parents then (Remove(t, key), true) else (t, false)
  }

  /** How a transaction that stores new material ends: refused before `wrap` ran, `wrap`
      raised, the version row refused, or committed. */
  datatype Ending = NotWrapped | Raised | Violated(ledger: Ledger) | Stored(ledger: Ledger)

  /** The repository as an object whose tables the transactions update. */
  class NamedKeyRepository {
    var keys: map<Key, Parent<KeyMeta>>
    var versions: map<(int, int), Version>
    var nextId: int

    function State(): KeyTables
      reads this
    {
      Tables(keys, versions, nextId)
    }

    constructor ()
      ensures State() == EMPTY
    {
      keys, versions, nextId := map[], map[], 1;
    }

    /** The key row, then its first version; a failure of either rolls both back. */
    method CreateKey(key: Key, usage: string, algorithm: Option<string>, now: string,
                     wrap: int -> Option<(Ledger, Material)>) returns (ending: Ending)
      modifies this
      ensures key in old(keys) ==> ending == NotWrapped && State() == old(State())
      ensures key !in old(keys) ==>
                match wrap(1)
                case None => ending == Raised && State() == old(State())
                case Some((ledger, material)) =>
                  match Create(old(State()), key, usage, algorithm, now, material)
                  case None => ending == Violated(ledger) && State() == old(State())
                  case Some(t) => ending == Stored(ledger) && State() == t
    {
      var before := State();
      if key in keys {
        return NotWrapped;
      }
      var keyId := nextId;
      nextId := nextId + 1;
      keys := keys[key := Parent(keyId, 1, KeyMeta(usage, algorithm, now, now))];
      ending := InsertVersion(keyId, 1, wrap, now);
      if !ending.Stored? {
        keys, versions, nextId := before.parents, before.rows, before.nextId;
      }
    }

    /** The new version first, then the pointer to it. */
    method RotateKey(key: Key, now: string, wrap: int -> Option<(Ledger, Material)>) returns (ending: Ending)
      modifies this
      ensures key !in old(keys) ==> ending == NotWrapped && State() == old(State())
      ensures key in old(keys) ==>
                match wrap(NextVersion(old(State()), key))
                case None => ending == Raised && State() == old(State())
                case Some((ledger, material)) =>
                  match Rotate(old(State()), key, now, material)
                  case Rotated(t) => ending == Stored(ledger) && State() == t
                  case _ => ending == Violated(ledger) && State() == old(State())
    {
      if key !in keys {
        return NotWrapped;
      }
      var row := keys[key];
      var version := row.latest + 1;
      ending := InsertVersion(row.id, version, wrap, now);
      if ending.Stored? {
        keys := keys[key := row.(latest := version, meta := row.meta.(updated := now))];
      }
    }

    /** `_insert_version`: wrap for this version, then insert; the row is refused when the
        version exists. */
    method InsertVersion(keyId: int, version: int, wrap: int -> Option<(Ledger, Material)>, now: string)
      returns (ending: Ending)
      modifies this`versions
      ensures match wrap(version)
              case None => ending == Raised && versions == old(versions)
              case Some((ledger, material)) =>
                if (keyId, version) in old(versions) then ending == Violated(ledger) && versions == old(versions)
                else ending == Stored(ledger) && versions == old(versions)[(keyId, version) := Version(material, now)]
    {
      var wrapped := wrap(version);
      if wrapped.None? {
        return Raised;
      }
      var (ledger, material) := wrapped.value;
      if (keyId, version) in versions {
        return Violated(ledger);
      }
      versions := versions[(keyId, version) := Version(material, now)];
      return Stored(ledger);
    }

    method DeleteKey(key: Key) returns (deleted: bool)
      modifies this
      ensures (State(), deleted) == DeleteOwned(old(State()), key)
    {
      deleted := key in keys;
      if deleted {
        versions := WithoutId(versions, keys[key].id);
        keys := keys - {key};
      }
    }
  }
}
