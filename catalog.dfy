/**
 * The metadata store behind the Tantalus client: storages, file resources
 * and file instances, and the generic get / get_or_create / update calls the
 * client issues against it.  The store's own code is not part of this model;
 * its replies are modelled here as functions on a `Store` value.
 */
module Catalog {
  import opened Wrappers

  /** A creation time as a storage reports it; only compared for equality. */
  type Timestamp = string

  /** A named storage backend; `prefix` turns absolute paths into file names. */
  datatype Storage = Storage(
    name: string,
    storageType: string,
    prefix: string,
    storageAccount: string,
    storageContainer: string,
    storageDirectory: string)

  /** The logical identity of a file's content. */
  datatype FileResource = FileResource(id: nat, filename: string, size: int, created: Timestamp)

  /**
   * A claim that a resource is materialised on one storage, soft-deletable.
   * The storage is referred to by its name, which the store keeps unique.
   */
  datatype FileInstance = FileInstance(id: nat, fileResource: nat, storage: string, isDeleted: bool)

  /** What a storage backend reports about one file. */
  datatype FileStat = FileStat(size: int, created: Timestamp)

  /** The files a storage backend holds right now, by storage-relative name. */
  type Listing = map<string, FileStat>

  datatype ApiError =
    | NotFound                 // no record matches the query
    | FieldMismatch            // get_or_create found the identity with other field values
    | Rejected                 // the store refuses a record that refers to a missing resource or storage
    | NotInStorage             // ValueError: path not under the storage prefix
    | NotRelative              // ValueError: file name starts with '/' or contains ".."
    | FileAbsent               // a storage client was asked about a file it does not hold
    | NotAClient               // AttributeError: the ValueError returned in place of a client was used as one
    | MissingDatasetType       // ValueError: 'require dataset type'
    | DatasetIdAndTag          // ValueError: 'require at most one of dataset id or tag name'
    | UnrecognizedDatasetModel // ValueError: 'unrecognized dataset model'
    | FiltersNotMapping        // TypeError: `**filters` applied to None
    | BadPageParams            // KeyError/TypeError: offset or limit missing, or a number added to text
    | IngestSizeMismatch       // the blob already exists with another size than the local file

  /** The store's three tables and the next primary key it will hand out. */
  datatype Store = Store(
    storages: map<string, Storage>,
    resources: map<nat, FileResource>,
    instances: map<nat, FileInstance>,
    nextId: nat)

  /** Two instances claiming the same resource on the same storage. */
  predicate SamePlace(a: FileInstance, b: FileInstance) {
    a.fileResource == b.fileResource && a.storage == b.storage
  }

  ghost predicate InstanceWellFormed(db: Store, id: nat)
    requires id in db.instances
  {
    var inst := db.instances[id];
    inst.id == id && id < db.nextId && inst.fileResource in db.resources && inst.storage in db.storages
  }

  /**
   * The store's integrity constraints: storages are keyed by their names,
   * primary keys agree with records, file names are unique, instances refer to
   * existing records, and there is at most one instance per (resource, storage).
   */
  ghost predicate Valid(db: Store) {
    && (forall n :: n in db.storages ==> db.storages[n].name == n)
    && (forall id :: id in db.resources ==> db.resources[id].id == id && id < db.nextId)
    && (forall a, b :: a in db.resources && b in db.resources && a != b ==>
          db.resources[a].filename != db.resources[b].filename)
    && (forall id :: id in db.instances ==> InstanceWellFormed(db, id))
    && (forall a, b :: a in db.instances && b in db.instances && a != b ==>
          !SamePlace(db.instances[a], db.instances[b]))
  }

  /** `get('file_resource', filename=...)`: the unique resource with that file name. */
  function ResourceNamed(db: Store, filename: string): (r: Option<FileResource>)
    requires Valid(db)
    ensures r.Some? <==> exists id :: id in db.resources && db.resources[id].filename == filename
    ensures r.Some? ==> r.value.id in db.resources && db.resources[r.value.id] == r.value && r.value.filename == filename
  {
    if exists id :: id in db.resources && db.resources[id].filename == filename then
      var id :| id in db.resources && db.resources[id].filename == filename;
      Some(db.resources[id])
    else
      None
  }

  /** `get('file_instance', file_resource=rid, storage__name=storageName)`: the unique instance of that pair. */
  function InstanceOn(db: Store, rid: nat, storageName: string): (r: Option<FileInstance>)
    requires Valid(db)
    ensures r.Some? <==>
      exists id :: id in db.instances && db.instances[id].fileResource == rid && db.instances[id].storage == storageName
    ensures r.Some? ==> r.value.id in db.instances && db.instances[r.value.id] == r.value
    ensures r.Some? ==> r.value.fileResource == rid && r.value.storage == storageName
  {
    if exists id :: id in db.instances && db.instances[id].fileResource == rid && db.instances[id].storage == storageName then
      var id :| id in db.instances && db.instances[id].fileResource == rid && db.instances[id].storage == storageName;
      Some(db.instances[id])
    else
      None
  }

  /** Any instance of the pair is the one `InstanceOn` returns: the store holds at most one. */
  lemma InstanceOnUnique(db: Store, inst: FileInstance)
    requires Valid(db)
    requires inst.id in db.instances && db.instances[inst.id] == inst
    ensures InstanceOn(db, inst.fileResource, inst.storage) == Some(inst)
  {
    var found := InstanceOn(db, inst.fileResource, inst.storage);
    assert found.Some?;
    if found.value.id != inst.id {
      assert SamePlace(db.instances[found.value.id], db.instances[inst.id]);
    }
  }

  /** Two stores that hold the same instances of a resource agree on its instance on any storage. */
  lemma InstanceOnAgrees(db1: Store, db2: Store, rid: nat, storageName: string)
    requires Valid(db1) && Valid(db2)
    requires InstancesOf(db1, rid) == InstancesOf(db2, rid)
    requires forall id :: id in InstancesOf(db1, rid) ==> db1.instances[id] == db2.instances[id]
    ensures InstanceOn(db1, rid, storageName) == InstanceOn(db2, rid, storageName)
  {
    var found1 := InstanceOn(db1, rid, storageName);
    if found1.Some? {
      assert found1.value.id in InstancesOf(db1, rid);
      InstanceOnUnique(db2, found1.value);
    }
  }

  /** `after` holds every other resource than `rid`, and every instance of another resource, as `before` did. */
  ghost predicate OthersKept(before: Store, after: Store, rid: nat) {
    && (forall id :: id in before.resources && id != rid ==>
          id in after.resources && after.resources[id] == before.resources[id])
    && (forall id :: id in before.instances && before.instances[id].fileResource != rid ==>
          id in after.instances && after.instances[id] == before.instances[id])
  }

  /** Two changes that each keep the records of other resources keep them together. */
  lemma OthersKeptTrans(a: Store, b: Store, c: Store, rid: nat)
    requires OthersKept(a, b, rid) && OthersKept(b, c, rid)
    ensures OthersKept(a, c, rid)
  {
  }

  /** The ids of every instance of resource `rid`, on any storage (`file_resource['file_instances']`). */
  function InstancesOf(db: Store, rid: nat): (ids: set<nat>)
    ensures forall id :: id in ids <==> id in db.instances && db.instances[id].fileResource == rid
  {
    set id | id in db.instances && db.instances[id].fileResource == rid
  }

  /**
   * `get_or_create('file_resource', filename, created, size)`: the existing
   * resource when every field agrees, `FieldMismatch` when the file name is
   * taken with another size or creation time, otherwise a new resource.
   */
  function GetOrCreateResource(db: Store, filename: string, created: Timestamp, size: int)
    : (r: (Store, Result<FileResource, ApiError>))
    requires Valid(db)
    ensures Valid(r.0)
    ensures r.1.Err? <==>
      exists id :: id in db.resources && db.resources[id].filename == filename &&
        (db.resources[id].size != size || db.resources[id].created != created)
    ensures r.1.Err? ==> r.1.error == FieldMismatch && r.0 == db
    ensures r.1.Ok? ==> r.1.value == FileResource(r.1.value.id, filename, size, created)
    ensures r.1.Ok? ==> r.1.value.id in r.0.resources && r.0.resources[r.1.value.id] == r.1.value
    ensures r.0.storages == db.storages && r.0.instances == db.instances
    ensures forall id :: id in db.resources ==> id in r.0.resources && r.0.resources[id] == db.resources[id]
    ensures ResourceNamed(db, filename).Some? ==> r.0 == db
    ensures r.1.Ok? ==> r.0.resources == db.resources[r.1.value.id := r.1.value]
  {
    match ResourceNamed(db, filename)
    case Some(res) =>
      if res.size == size && res.created == created then (db, Ok(res)) else (db, Err(FieldMismatch))
    case None =>
      var res := FileResource(db.nextId, filename, size, created);
      AddResourceKeepsValid(db, res);
      (db.(resources := db.resources[res.id := res], nextId := db.nextId + 1), Ok(res))
  }

  /** A fresh resource under a file name no resource holds keeps the store valid. */
  lemma AddResourceKeepsValid(db: Store, res: FileResource)
    requires Valid(db)
    requires res.id == db.nextId && ResourceNamed(db, res.filename).None?
    ensures Valid(db.(resources := db.resources[res.id := res], nextId := db.nextId + 1))
  {
    var db' := db.(resources := db.resources[res.id := res], nextId := db.nextId + 1);
    forall id | id in db'.instances
      ensures InstanceWellFormed(db', id)
    {
      assert InstanceWellFormed(db, id);
    }
  }

  /**
   * `get_or_create('file_instance', file_resource=rid, storage=...)`: the
   * existing instance for that pair, deleted or not, or a new live one; the
   * store refuses a pair whose resource or storage does not exist.
   */
  function GetOrCreateInstance(db: Store, rid: nat, storageName: string): (r: (Store, Result<FileInstance, ApiError>))
    requires Valid(db)
    ensures Valid(r.0)
    ensures r.1.Err? <==> rid !in db.resources || storageName !in db.storages
    ensures r.1.Err? ==> r.1.error == Rejected && r.0 == db
    ensures r.1.Ok? ==> r.1.value.fileResource == rid && r.1.value.storage == storageName
    ensures r.1.Ok? ==> r.1.value.id in r.0.instances && r.0.instances[r.1.value.id] == r.1.value
    ensures InstanceOn(db, rid, storageName).Some? ==> r.0 == db && r.1 == Ok(InstanceOn(db, rid, storageName).value)
    ensures r.1.Ok? && InstanceOn(db, rid, storageName).None? ==>
      !r.1.value.isDeleted && r.1.value.id !in db.instances &&
      r.0.instances.Keys == db.instances.Keys + {r.1.value.id}
    ensures r.0.storages == db.storages && r.0.resources == db.resources
    ensures forall id :: id in db.instances ==> id in r.0.instances && r.0.instances[id] == db.instances[id]
  {
    if rid !in db.resources || storageName !in db.storages then
      (db, Err(Rejected))
    else
      match InstanceOn(db, rid, storageName)
      case Some(inst) => (db, Ok(inst))
      case None =>
        var inst := FileInstance(db.nextId, rid, storageName, false);
        AddInstanceKeepsValid(db, inst);
        (db.(instances := db.instances[inst.id := inst], nextId := db.nextId + 1), Ok(inst))
  }

  /** A fresh instance of an existing (resource, storage) pair that has none keeps the store valid. */
  lemma AddInstanceKeepsValid(db: Store, inst: FileInstance)
    requires Valid(db)
    requires inst.id == db.nextId && inst.fileResource in db.resources && inst.storage in db.storages
    requires InstanceOn(db, inst.fileResource, inst.storage).None?
    ensures Valid(db.(instances := db.instances[inst.id := inst], nextId := db.nextId + 1))
  {
    var db' := db.(instances := db.instances[inst.id := inst], nextId := db.nextId + 1);
    forall id | id in db'.instances
      ensures InstanceWellFormed(db', id)
    {
      if id != inst.id {
        assert InstanceWellFormed(db, id);
      }
    }
    forall a, b | a in db'.instances && b in db'.instances && a != b
      ensures !SamePlace(db'.instances[a], db'.instances[b])
    {
      if a != inst.id && b != inst.id {
        assert !SamePlace(db.instances[a], db.instances[b]);
      }
    }
  }

  /** `update('file_instance', id=iid, is_deleted=deleted)`. */
  function UpdateInstanceDeleted(db: Store, iid: nat, deleted: bool): (r: (Store, Result<FileInstance, ApiError>))
    ensures Valid(db) ==> Valid(r.0)
    ensures r.1.Err? <==> iid !in db.instances
    ensures r.1.Err? ==> r.1.error == NotFound && r.0 == db
    ensures r.1.Ok? ==> r.1.value == db.instances[iid].(isDeleted := deleted)
    ensures r.1.Ok? ==> r.0 == db.(instances := db.instances[iid := r.1.value])
  {
    if iid !in db.instances then
      (db, Err(NotFound))
    else
      var inst := db.instances[iid].(isDeleted := deleted);
      (db.(instances := db.instances[iid := inst]), Ok(inst))
  }

  /** `update('file_resource', id=rid, created=..., size=...)`: only size and creation time change. */
  function UpdateResourceStat(db: Store, rid: nat, stat: FileStat): (r: (Store, Result<FileResource, ApiError>))
    requires Valid(db)
    ensures Valid(r.0)
    ensures r.1.Err? <==> rid !in db.resources
    ensures r.1.Err? ==> r.1.error == NotFound && r.0 == db
    ensures r.1.Ok? ==> r.1.value == FileResource(rid, db.resources[rid].filename, stat.size, stat.created)
    ensures r.1.Ok? ==> r.0 == db.(resources := db.resources[rid := r.1.value])
  {
    if rid !in db.resources then
      (db, Err(NotFound))
    else
      var res := db.resources[rid].(size := stat.size, created := stat.created);
      (db.(resources := db.resources[rid := res]), Ok(res))
  }
}
