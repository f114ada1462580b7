/**
 * The Tantalus client (`TantalusApi`): storage and storage-client caches,
 * file registration, integrity check and repair of one instance, lookups over
 * a resource's instance list, and the offset/limit pagination helpers.  The
 * storage backends are reduced to what their clients report: a `Listing` of
 * file names to size and creation time.
 */
module Tantalus {
  import opened Wrappers
  import opened Catalog
  import Paths

  /* ---------------------------------------------------------------------- */
  /* Storage clients                                                          */
  /* ---------------------------------------------------------------------- */

  /**
   * What `get_storage_client` hands back.  For a storage type other than
   * 'blob' or 'server' the source returns (does not raise) a ValueError, which
   * then stands where a client is expected: `ReturnedValueError`.
   */
  datatype StorageClient =
    | BlobClient(storageAccount: string, storageContainer: string, prefix: string)
    | ServerClient(storageDirectory: string, prefix: string)
    | ReturnedValueError(storageType: string)

  /** The client `get_storage_client` builds for a storage record. */
  function ClientFor(storage: Storage): (c: StorageClient)
    ensures c.ReturnedValueError? <==> storage.storageType != "blob" && storage.storageType != "server"
    ensures c.BlobClient? <==> storage.storageType == "blob"
    ensures !c.ReturnedValueError? ==> c.prefix == storage.prefix
  {
    if storage.storageType == "blob" then
      BlobClient(storage.storageAccount, storage.storageContainer, storage.prefix)
    else if storage.storageType == "server" then
      ServerClient(storage.storageDirectory, storage.prefix)
    else
      ReturnedValueError(storage.storageType)
  }

  /**
   * `get_created_time` followed by `get_size` on a client: the backend's
   * record of the file, `FileAbsent` when it holds no such file, and
   * `NotAClient` when the "client" is the returned ValueError.
   */
  function ClientStat(client: StorageClient, live: Listing, filename: string): (r: Result<FileStat, ApiError>)
    ensures r.Ok? <==> !client.ReturnedValueError? && filename in live
    ensures r.Ok? ==> r.value == live[filename]
    ensures r.Err? ==> r.error == (if client.ReturnedValueError? then NotAClient else FileAbsent)
  {
    if client.ReturnedValueError? then Err(NotAClient)
    else if filename !in live then Err(FileAbsent)
    else Ok(live[filename])
  }

  /* ---------------------------------------------------------------------- */
  /* Records as the REST interface returns them                              */
  /* ---------------------------------------------------------------------- */

  /** One element of `file_resource['file_instances']`. */
  datatype InstanceEntry = InstanceEntry(id: nat, storage: Storage, isDeleted: bool)

  /** A file resource together with its list of instances. */
  datatype ResourceView = ResourceView(resource: FileResource, fileInstances: seq<InstanceEntry>)

  /** A file instance with its storage and its file resource attached. */
  datatype InstanceView = InstanceView(id: nat, storage: Storage, isDeleted: bool, fileResource: FileResource)

  /* ---------------------------------------------------------------------- */
  /* Checking one instance                                                    */
  /* ---------------------------------------------------------------------- */

  /**
   * The three outcomes of checking an instance against its storage.  The
   * source raises one exception class for both failures; the integrity sweep
   * branches on them separately, and so does this model.
   */
  datatype CheckOutcome = Passed | Missing | SizeMismatch

  /** The test of `check_file`: the file must exist, then its live size must equal the recorded one. */
  function CheckAgainst(resource: FileResource, live: Listing): (o: CheckOutcome)
    ensures o == Missing <==> resource.filename !in live
    ensures o == SizeMismatch <==> resource.filename in live && live[resource.filename].size != resource.size
    ensures o == Passed <==> resource.filename in live && live[resource.filename].size == resource.size
  {
    if resource.filename !in live then Missing
    else if live[resource.filename].size != resource.size then SizeMismatch
    else Passed
  }

  /* ---------------------------------------------------------------------- */
  /* Lookups over a resource's instance list                                  */
  /* ---------------------------------------------------------------------- */

  /** Some entry of the list is on the named storage, deleted or not. */
  predicate OnStorage(entries: seq<InstanceEntry>, storageName: string) {
    exists i :: 0 <= i < |entries| && entries[i].storage.name == storageName
  }

  /** `i` is the first position in the list whose storage has that name. */
  predicate IsFirstOnStorage(entries: seq<InstanceEntry>, storageName: string, i: int) {
    && 0 <= i < |entries|
    && entries[i].storage.name == storageName
    && forall j :: 0 <= j < i ==> entries[j].storage.name != storageName
  }

  /**
   * `get_file_instance`: a copy of the first instance, in list order, that is
   * on the named storage, with the resource attached; `NotFound` when there is
   * none.  The resource view itself is a value and is left as it was.
   */
  method GetFileInstance(fileResource: ResourceView, storageName: string) returns (r: Result<InstanceView, ApiError>)
    ensures r.Err? <==> !OnStorage(fileResource.fileInstances, storageName)
    ensures r.Err? ==> r.error == NotFound
    ensures r.Ok? ==>
      exists i :: (IsFirstOnStorage(fileResource.fileInstances, storageName, i) &&
        r.value == InstanceView(fileResource.fileInstances[i].id, fileResource.fileInstances[i].storage,
                                fileResource.fileInstances[i].isDeleted, fileResource.resource))
  {
    var entries := fileResource.fileInstances;
    var i := 0;
    while i < |entries|
      invariant 0 <= i <= |entries|
      invariant forall j :: 0 <= j < i ==> entries[j].storage.name != storageName
    {
      if entries[i].storage.name == storageName {
        assert IsFirstOnStorage(entries, storageName, i);
        return Ok(InstanceView(entries[i].id, entries[i].storage, entries[i].isDeleted, fileResource.resource));
      }
      i := i + 1;
    }
    return Err(NotFound);
  }

  /**
   * `is_sequence_dataset_on_storage`: every file resource of the dataset (in
   * the order the store lists them) has an instance on the named storage,
   * deleted or not.
   */
  method IsSequenceDatasetOnStorage(datasetResources: seq<ResourceView>, storageName: string) returns (b: bool)
    ensures b <==> forall k :: 0 <= k < |datasetResources| ==> OnStorage(datasetResources[k].fileInstances, storageName)
  {
    var k := 0;
    while k < |datasetResources|
      invariant 0 <= k <= |datasetResources|
      invariant forall m :: 0 <= m < k ==> OnStorage(datasetResources[m].fileInstances, storageName)
    {
      var found := GetFileInstance(datasetResources[k], storageName);
      if found.Err? {
        return false;
      }
      k := k + 1;
    }
    return true;
  }

  /* ---------------------------------------------------------------------- */
  /* Offset/limit pagination                                                  */
  /* ---------------------------------------------------------------------- */

  /** The page size the client asks the store for. */
  const PageLimit: nat := 100

  /** A query parameter value: pagination counters are numbers, filters are text. */
  datatype ParamValue = IntParam(n: int) | TextParam(s: string)

  /** The query-parameter dictionary of a list call, changed in place by the pagination helpers. */
  class QueryParams {
    var fields: map<string, ParamValue>

    constructor (fields: map<string, ParamValue>)
      ensures this.fields == fields
    {
      this.fields := fields;
    }
  }

  /**
   * Python's `a + b` on two parameter values: numbers add, text concatenates,
   * and a number with text is a TypeError.
   */
  function PlusParam(a: ParamValue, b: ParamValue): Option<ParamValue> {
    match (a, b)
    case (IntParam(x), IntParam(y)) => Some(IntParam(x + y))
    case (TextParam(x), TextParam(y)) => Some(TextParam(x + y))
    case _ => None
  }

  /** The parameters after `get_list_pagination_initial_params`. */
  function InitialParams(fields: map<string, ParamValue>): (f: map<string, ParamValue>)
    ensures f.Keys == fields.Keys + {"limit", "offset"}
    ensures f["limit"] == IntParam(PageLimit) && f["offset"] == IntParam(0)
    ensures forall k :: k in fields && k != "limit" && k != "offset" ==> f[k] == fields[k]
  {
    fields["limit" := IntParam(PageLimit)]["offset" := IntParam(0)]
  }

  /**
   * The parameters after `get_list_pagination_next_page_params`: a missing
   * counter is a KeyError, a number added to text a TypeError.
   */
  function NextParams(fields: map<string, ParamValue>): (r: Result<map<string, ParamValue>, ApiError>)
    ensures r.Ok? <==>
      "offset" in fields && "limit" in fields && fields["offset"].IntParam? == fields["limit"].IntParam?
    ensures r.Err? ==> r.error == BadPageParams
    ensures r.Ok? ==> r.value.Keys == fields.Keys && forall k :: k in fields && k != "offset" ==> r.value[k] == fields[k]
    ensures r.Ok? && fields["offset"].IntParam? ==>
      r.value["offset"] == IntParam(fields["offset"].n + fields["limit"].n)
    ensures r.Ok? && fields["offset"].TextParam? ==>
      r.value["offset"] == TextParam(fields["offset"].s + fields["limit"].s)
  {
    if "offset" !in fields || "limit" !in fields then Err(BadPageParams)
    else
      match PlusParam(fields["offset"], fields["limit"])
      case None => Err(BadPageParams)
      case Some(v) => Ok(fields["offset" := v])
  }

  /** `get_list_pagination_initial_params`: limit 100, offset 0, every other parameter kept. */
  method InitialPageParams(params: QueryParams)
    modifies params
    ensures params.fields == InitialParams(old(params.fields))
  {
    params.fields := params.fields["limit" := IntParam(PageLimit)];
    params.fields := params.fields["offset" := IntParam(0)];
  }

  /**
   * `get_list_pagination_next_page_params`: `params["offset"] += params["limit"]`
   * in place; when it raises, nothing changes.
   */
  method NextPageParams(params: QueryParams) returns (r: Result<(), ApiError>)
    modifies params
    ensures NextParams(old(params.fields)) == if r.Ok? then Ok(params.fields) else Err(r.error)
    ensures r.Err? ==> params.fields == old(params.fields)
  {
    if "offset" !in params.fields || "limit" !in params.fields {
      return Err(BadPageParams);
    }
    var sum := PlusParam(params.fields["offset"], params.fields["limit"]);
    if sum.None? {
      return Err(BadPageParams);
    }
    params.fields := params.fields["offset" := sum.value];
    return Ok(());
  }

  /** The page the store answers for one offset, at the client's page size. */
  function PageAt<T>(records: seq<T>, offset: nat): (page: seq<T>)
    requires offset <= |records|
    ensures |page| <= PageLimit
    ensures offset < |records| ==> |page| > 0
  {
    if offset + PageLimit <= |records| then records[offset..offset + PageLimit] else records[offset..]
  }

  /** Parameters as the pagination helpers leave them: a numeric offset and the client's limit. */
  predicate Cursor(params: map<string, ParamValue>) {
    && "offset" in params && params["offset"].IntParam? && params["offset"].n >= 0
    && "limit" in params && params["limit"] == IntParam(PageLimit)
  }

  /**
   * The pages a list call fetches from `params` on: the page at the current
   * offset, then the pages from the parameters `NextParams` gives, until the
   * offset passes the last record.
   */
  function PagesFrom<T>(records: seq<T>, params: map<string, ParamValue>): (pages: seq<seq<T>>)
    requires Cursor(params)
    ensures forall i :: 0 <= i < |pages| ==> 0 < |pages[i]| <= PageLimit
    decreases |records| - params["offset"].n
  {
    var offset := params["offset"].n;
    if offset >= |records| then []
    else [PageAt(records, offset)] + PagesFrom(records, NextParams(params).value)
  }

  function Concat<T>(pages: seq<seq<T>>): seq<T> {
    if pages == [] then [] else pages[0] + Concat(pages[1..])
  }

  /**
   * Walking the cursor from `params` visits every remaining record exactly
   * once, in order, in ceil(remaining / 100) pages.
   */
  lemma {:induction false} PagesTileRecords<T>(records: seq<T>, params: map<string, ParamValue>)
    requires Cursor(params) && params["offset"].n <= |records|
    ensures Concat(PagesFrom(records, params)) == records[params["offset"].n..]
    ensures |PagesFrom(records, params)| == (|records| - params["offset"].n + PageLimit - 1) / PageLimit
    decreases |records| - params["offset"].n
  {
    var offset := params["offset"].n;
    if offset < |records| {
      var next := NextParams(params).value;
      var pages := PagesFrom(records, params);
      if offset + PageLimit <= |records| {
        PagesTileRecords(records, next);
        assert pages[1..] == PagesFrom(records, next);
        assert records[offset..] == PageAt(records, offset) + records[offset + PageLimit..];
      } else {
        assert PagesFrom(records, next) == [];
        assert pages == [PageAt(records, offset)];
      }
    }
  }

  /** A list call, started from `get_list_pagination_initial_params`, fetches every record once, in order. */
  lemma ListFetchesAll<T>(records: seq<T>, fields: map<string, ParamValue>)
    ensures Cursor(InitialParams(fields))
    ensures Concat(PagesFrom(records, InitialParams(fields))) == records
    ensures |PagesFrom(records, InitialParams(fields))| == (|records| + PageLimit - 1) / PageLimit
  {
    PagesTileRecords(records, InitialParams(fields));
  }

  /* ---------------------------------------------------------------------- */
  /* Idempotent ingest of a local file into blob storage                      */
  /* ---------------------------------------------------------------------- */

  datatype IngestAction = AlreadyPresent | Upload

  /**
   * `BlobStorageClient.create`: an existing blob of the same size is left
   * alone, an existing blob of another size is an error, an absent blob is
   * uploaded.
   */
  function IngestDecision(live: Listing, blobname: string, localSize: int): (r: Result<IngestAction, ApiError>)
    ensures r == Ok(Upload) <==> blobname !in live
    ensures r == Ok(AlreadyPresent) <==> blobname in live && live[blobname].size == localSize
    ensures r.Err? <==> blobname in live && live[blobname].size != localSize
    ensures r.Err? ==> r.error == IngestSizeMismatch
  {
    if blobname in live then
      if live[blobname].size != localSize then Err(IngestSizeMismatch) else Ok(AlreadyPresent)
    else
      Ok(Upload)
  }

  /** The storage's listing after `create`; `created` is the time the upload would be stamped with. */
  function Ingest(live: Listing, blobname: string, localSize: int, created: Timestamp): (r: Result<Listing, ApiError>)
    ensures r.Ok? <==> IngestDecision(live, blobname, localSize).Ok?
    ensures r.Ok? ==> blobname in r.value && r.value[blobname].size == localSize
    ensures r.Ok? ==> forall f :: f != blobname ==> (f in r.value <==> f in live) && (f in live ==> r.value[f] == live[f])
  {
    match IngestDecision(live, blobname, localSize)
    case Err(e) => Err(e)
    case Ok(AlreadyPresent) => Ok(live)
    case Ok(Upload) => Ok(live[blobname := FileStat(localSize, created)])
  }

  /** Ingesting the same local file twice: the second call finds the blob and changes nothing. */
  lemma IngestIdempotent(live: Listing, blobname: string, localSize: int, created: Timestamp, later: Timestamp)
    requires Ingest(live, blobname, localSize, created).Ok?
    ensures var after := Ingest(live, blobname, localSize, created).value;
      IngestDecision(after, blobname, localSize) == Ok(AlreadyPresent) &&
      Ingest(after, blobname, localSize, later) == Ok(after)
  {
  }

  /* ---------------------------------------------------------------------- */
  /* The client object                                                        */
  /* ---------------------------------------------------------------------- */

  /** Every entry of `before` is still in `after` with the same value: a cache that only grows. */
  predicate Extends<K, V(==)>(before: map<K, V>, after: map<K, V>) {
    forall k :: k in before ==> k in after && after[k] == before[k]
  }

  /** Every instance of resource `rid` marked deleted; every other instance as it was. */
  function SoftDeleted(instances: map<nat, FileInstance>, rid: nat): (m: map<nat, FileInstance>)
    ensures m.Keys == instances.Keys
    ensures forall id :: id in m ==> m[id] == instances[id].(isDeleted := m[id].isDeleted)
    ensures forall id :: id in m ==> m[id].isDeleted == (instances[id].isDeleted || instances[id].fileResource == rid)
  {
    map id | id in instances :: if instances[id].fileResource == rid then instances[id].(isDeleted := true) else instances[id]
  }

  /** The instances of `rid` whose ids are in `done` marked deleted; every other instance as it was. */
  function PartlySoftDeleted(instances: map<nat, FileInstance>, rid: nat, done: set<nat>): (m: map<nat, FileInstance>)
    ensures m.Keys == instances.Keys
  {
    map id | id in instances :: if instances[id].fileResource == rid && id in done then instances[id].(isDeleted := true) else instances[id]
  }

  /** Soft-deleting instances changes no key, reference or (resource, storage) pair, so the store stays consistent. */
  lemma SoftDeletedKeepsValid(db: Store, rid: nat)
    requires Catalog.Valid(db)
    ensures Catalog.Valid(db.(instances := SoftDeleted(db.instances, rid)))
  {
    var m := SoftDeleted(db.instances, rid);
    var after := db.(instances := m);
    forall id | id in m
      ensures InstanceWellFormed(after, id)
    {
      assert InstanceWellFormed(db, id);
    }
    forall a, b | a in m && b in m && a != b
      ensures !SamePlace(m[a], m[b])
    {
      assert !SamePlace(db.instances[a], db.instances[b]);
    }
  }

  /** Soft-deleting one more instance of `rid` through the store extends the set of deleted ones by that instance. */
  lemma PartlySoftDeletedStep(before: Store, rid: nat, done: set<nat>, id: nat)
    requires id in before.instances && before.instances[id].fileResource == rid && id !in done
    ensures UpdateInstanceDeleted(before.(instances := PartlySoftDeleted(before.instances, rid, done)), id, true).0 ==
            before.(instances := PartlySoftDeleted(before.instances, rid, done + {id}))
  {
    var db := before.(instances := PartlySoftDeleted(before.instances, rid, done));
    assert db.instances[id] == before.instances[id];
    assert PartlySoftDeleted(before.instances, rid, done + {id}) ==
           db.instances[id := before.instances[id].(isDeleted := true)];
  }

  /** Once every instance of `rid` is done, the partial deletion is the full one. */
  lemma PartlySoftDeletedAll(instances: map<nat, FileInstance>, rid: nat, done: set<nat>)
    requires forall id :: id in instances && instances[id].fileResource == rid ==> id in done
    ensures PartlySoftDeleted(instances, rid, done) == SoftDeleted(instances, rid)
  {
  }

  /**
   * The `for file_instance in file_resource['file_instances']` loop of
   * `add_file`: one `update(is_deleted=True)` per instance of the resource.
   */
  method SoftDeleteInstances(db: Store, rid: nat) returns (store: Store)
    ensures store == db.(instances := SoftDeleted(db.instances, rid))
  {
    store := db;
    var pending := InstancesOf(db, rid);
    ghost var done: set<nat> := {};
    while pending != {}
      invariant store == db.(instances := PartlySoftDeleted(db.instances, rid, done))
      invariant done + pending == InstancesOf(db, rid) && done !! pending
      decreases pending
    {
      var id :| id in pending;
      PartlySoftDeletedStep(db, rid, done, id);
      var (next, _) := UpdateInstanceDeleted(store, id, true);
      store := next;
      pending := pending - {id};
      done := done + {id};
    }
    PartlySoftDeletedAll(db.instances, rid, done);
  }

  /**
   * `TantalusApi`.  `db` is the metadata store as the client sees it through
   * its REST calls; the two caches are the client's own per-process state.
   */
  class TantalusApi {
    var db: Store
    var cachedStorages: map<string, Storage>
    var cachedStorageClients: map<string, StorageClient>

    /** The store is consistent and each cache entry agrees with what a lookup would return. */
    ghost predicate Valid()
      reads this
    {
      && Catalog.Valid(db)
      && (forall n :: n in cachedStorages ==> n in db.storages && cachedStorages[n] == db.storages[n])
      && (forall n :: n in cachedStorageClients ==>
            && n in cachedStorages
            && cachedStorageClients[n] == ClientFor(cachedStorages[n])
            && !cachedStorageClients[n].ReturnedValueError?)
    }

    constructor (store: Store)
      requires Catalog.Valid(store)
      ensures Valid()
      ensures db == store && cachedStorages == map[] && cachedStorageClients == map[]
    {
      db := store;
      cachedStorages := map[];
      cachedStorageClients := map[];
    }

    /**
     * `get_storage`: a cached record is returned without asking the store;
     * otherwise the store's record is fetched and cached.  The cache only grows.
     */
    method GetStorage(storageName: string) returns (r: Result<Storage, ApiError>)
      requires Valid()
      modifies this`cachedStorages
      ensures Valid()
      ensures r.Err? <==> storageName !in db.storages
      ensures r.Err? ==> r.error == NotFound
      ensures r.Ok? ==> r.value == db.storages[storageName] && r.value.name == storageName
      ensures old(storageName in cachedStorages) ==> r == Ok(old(cachedStorages[storageName]))
      ensures cachedStorages == if r.Ok? then old(cachedStorages)[storageName := r.value] else old(cachedStorages)
    {
      if storageName in cachedStorages {
        return Ok(cachedStorages[storageName]);
      }
      if storageName !in db.storages {
        return Err(NotFound);
      }
      var storage := db.storages[storageName];
      cachedStorages := cachedStorages[storageName := storage];
      return Ok(storage);
    }

    /**
     * `get_storage_client`: memoised by storage name.  An unsupported storage
     * type yields the returned ValueError, which is never cached.
     */
    method GetStorageClient(storageName: string) returns (r: Result<StorageClient, ApiError>)
      requires Valid()
      modifies this`cachedStorages, this`cachedStorageClients
      ensures Valid()
      ensures r.Err? <==> storageName !in db.storages
      ensures r.Err? ==> r.error == NotFound
      ensures r.Ok? ==> r.value == ClientFor(db.storages[storageName])
      ensures old(storageName in cachedStorageClients) ==>
        r == Ok(old(cachedStorageClients[storageName])) && cachedStorages == old(cachedStorages)
      ensures cachedStorageClients ==
        if r.Ok? && !r.value.ReturnedValueError? then old(cachedStorageClients)[storageName := r.value]
        else old(cachedStorageClients)
      ensures cachedStorages == if r.Ok? then old(cachedStorages)[storageName := db.storages[storageName]] else old(cachedStorages)
      ensures Extends(old(cachedStorages), cachedStorages)
    {
      if storageName in cachedStorageClients {
        return Ok(cachedStorageClients[storageName]);
      }
      var storage :- GetStorage(storageName);
      var client := ClientFor(storage);
      if client.ReturnedValueError? {
        return Ok(client);
      }
      cachedStorageClients := cachedStorageClients[storageName := client];
      return Ok(client);
    }

    /** `get_file_resource_filename`, with the prefix of the named storage. */
    method FileResourceFilename(storageName: string, filepath: string) returns (r: Result<string, ApiError>)
      requires Valid()
      modifies this`cachedStorages
      ensures Valid()
      ensures r == if storageName !in db.storages then Err(NotFound)
                   else Paths.FileResourceFilename(db.storages[storageName].prefix, filepath)
      ensures Extends(old(cachedStorages), cachedStorages)
    {
      var storage :- GetStorage(storageName);
      return Paths.FileResourceFilename(storage.prefix, filepath);
    }

    /** `get_filepath`, with the prefix of the named storage. */
    method Filepath(storageName: string, filename: string) returns (r: Result<string, ApiError>)
      requires Valid()
      modifies this`cachedStorages
      ensures Valid()
      ensures r == if storageName !in db.storages then Err(NotFound)
                   else Paths.Filepath(db.storages[storageName].prefix, filename)
      ensures Extends(old(cachedStorages), cachedStorages)
    {
      var storage :- GetStorage(storageName);
      return Paths.Filepath(storage.prefix, filename);
    }

    /**
     * `add_instance`: the instance of the resource on the storage, never a
     * second one.  A deleted instance is revived under its own id; a live one
     * is returned as it is.
     */
    method AddInstance(fileResource: FileResource, storage: Storage) returns (r: Result<FileInstance, ApiError>)
      requires Valid()
      modifies this`db
      ensures Valid()
      ensures db.storages == old(db.storages) && db.resources == old(db.resources)
      ensures r.Err? <==> fileResource.id !in old(db.resources) || storage.name !in old(db.storages)
      ensures r.Err? ==> r.error == Rejected && db == old(db)
      ensures r.Ok? ==> !r.value.isDeleted && r.value.fileResource == fileResource.id && r.value.storage == storage.name
      ensures r.Ok? ==> r.value.id in db.instances && db.instances[r.value.id] == r.value
      ensures r.Ok? ==> InstanceOn(db, fileResource.id, storage.name) == Some(r.value)
      ensures r.Ok? && old(InstanceOn(db, fileResource.id, storage.name)).Some? ==>
        var before := old(InstanceOn(db, fileResource.id, storage.name)).value;
        r.value == before.(isDeleted := false) && db.instances == old(db.instances)[before.id := r.value]
      ensures r.Ok? && old(InstanceOn(db, fileResource.id, storage.name)).None? ==>
        r.value.id !in old(db.instances) && db.instances == old(db.instances)[r.value.id := r.value]
      ensures old(InstanceOn(db, fileResource.id, storage.name)).Some? && !old(InstanceOn(db, fileResource.id, storage.name)).value.isDeleted ==>
        db == old(db)
      ensures r.Ok? ==> db.instances == old(db.instances)[r.value.id := r.value]
      ensures OthersKept(old(db), db, fileResource.id)
    {
      var (db1, got) := GetOrCreateInstance(db, fileResource.id, storage.name);
      db := db1;
      var inst :- got;
      if inst.isDeleted {
        var (db2, revived) := UpdateInstanceDeleted(db, inst.id, false);
        db := db2;
        inst := revived.value;
      }
      InstanceOnUnique(db, inst);
      return Ok(inst);
    }

    /**
     * The first steps of `add_file`: the storage record, its client, the
     * storage-relative file name, and the size and creation time the client
     * reports for it.  Only the caches change.
     */
    method LocateFile(storageName: string, filepath: string, live: Listing)
      returns (r: Result<(Storage, string, FileStat), ApiError>)
      requires Valid()
      modifies this`cachedStorages, this`cachedStorageClients
      ensures Valid()
      ensures r.Ok? <==>
        && storageName in db.storages
        && !ClientFor(db.storages[storageName]).ReturnedValueError?
        && Paths.FileResourceFilename(db.storages[storageName].prefix, filepath).Ok?
        && Paths.FileResourceFilename(db.storages[storageName].prefix, filepath).value in live
      ensures r.Err? ==> r.error in {NotFound, NotAClient, NotInStorage, NotRelative, FileAbsent}
      ensures (storageName !in db.storages) ==> r == Err(NotFound)
      ensures (storageName in db.storages && Paths.FileResourceFilename(db.storages[storageName].prefix, filepath).Err?) ==>
        r == Err(NotInStorage)
      ensures (storageName in db.storages && Paths.FileResourceFilename(db.storages[storageName].prefix, filepath).Ok? &&
               ClientFor(db.storages[storageName]).ReturnedValueError?) ==>
        r == Err(NotAClient)
      ensures (storageName in db.storages && Paths.FileResourceFilename(db.storages[storageName].prefix, filepath).Ok? &&
               !ClientFor(db.storages[storageName]).ReturnedValueError? &&
               Paths.FileResourceFilename(db.storages[storageName].prefix, filepath).value !in live) ==>
        r == Err(FileAbsent)
      ensures Extends(old(cachedStorages), cachedStorages) && Extends(old(cachedStorageClients), cachedStorageClients)
      ensures r.Ok? ==>
        var (storage, filename, stat) := r.value;
        && storage == db.storages[storageName]
        && Paths.FileResourceFilename(storage.prefix, filepath) == Ok(filename)
        && filename in live && stat == live[filename]
    {
      var storage :- GetStorage(storageName);
      var client := GetStorageClient(storageName);
      var filename :- FileResourceFilename(storageName, filepath);
      var stat :- ClientStat(client.value, live, filename);
      return Ok((storage, filename, stat));
    }

    /**
     * `add_file`: register the file at `filepath` on the named storage.  A
     * resource with that file name and other size or creation time is a
     * `FieldMismatch`, raised with nothing changed unless `update` is set; with
     * `update` every instance of the resource is soft-deleted, the resource
     * takes the live size and creation time, and the instance on this storage
     * is (re)activated.
     */
    method AddFile(storageName: string, filepath: string, update: bool, live: Listing)
      returns (r: Result<(FileResource, FileInstance), ApiError>)
      requires Valid()
      modifies this`cachedStorages, this`cachedStorageClients, this`db
      ensures Valid()
      ensures db.storages == old(db.storages)
      ensures Extends(old(cachedStorages), cachedStorages) && Extends(old(cachedStorageClients), cachedStorageClients)
      ensures r.Err? ==> db == old(db)
      ensures r.Err? && r.error == FieldMismatch ==> !update
      ensures (storageName !in db.storages) ==> r == Err(NotFound)
      ensures (storageName in db.storages && Paths.FileResourceFilename(db.storages[storageName].prefix, filepath).Err?) ==>
        r == Err(NotInStorage)
      ensures (storageName in db.storages && Paths.FileResourceFilename(db.storages[storageName].prefix, filepath).Ok? &&
               ClientFor(db.storages[storageName]).ReturnedValueError?) ==>
        r == Err(NotAClient)
      ensures (storageName in db.storages && Paths.FileResourceFilename(db.storages[storageName].prefix, filepath).Ok? &&
               !ClientFor(db.storages[storageName]).ReturnedValueError? &&
               Paths.FileResourceFilename(db.storages[storageName].prefix, filepath).value !in live) ==>
        r == Err(FileAbsent)
      ensures (storageName in db.storages && Paths.FileResourceFilename(db.storages[storageName].prefix, filepath).Ok? &&
               !ClientFor(db.storages[storageName]).ReturnedValueError? &&
               Paths.FileResourceFilename(db.storages[storageName].prefix, filepath).value in live && r.Err?) ==>
        r.error == FieldMismatch
      ensures r.Ok? ==> db.resources == old(db.resources)[r.value.0.id := r.value.0]
      ensures r.Ok? <==>
        && storageName in db.storages
        && !ClientFor(db.storages[storageName]).ReturnedValueError?
        && Paths.FileResourceFilename(db.storages[storageName].prefix, filepath).Ok?
        && var filename := Paths.FileResourceFilename(db.storages[storageName].prefix, filepath).value;
           && filename in live
           && (|| update
               || old(ResourceNamed(db, filename)).None?
               || (old(ResourceNamed(db, filename)).value.size == live[filename].size &&
                   old(ResourceNamed(db, filename)).value.created == live[filename].created))
      ensures r.Ok? ==>
        var (res, inst) := r.value;
        && storageName in db.storages
        && Paths.FileResourceFilename(db.storages[storageName].prefix, filepath) == Ok(res.filename)
        && res.filename in live && res.size == live[res.filename].size && res.created == live[res.filename].created
        && res.id in db.resources && db.resources[res.id] == res
        && inst.id in db.instances && db.instances[inst.id] == inst
        && !inst.isDeleted && inst.fileResource == res.id && inst.storage == storageName
      ensures r.Ok? ==>
        var (res, inst) := r.value;
        old(ResourceNamed(db, res.filename)).Some? && old(ResourceNamed(db, res.filename)).value != res ==>
          && update
          && forall id :: id in db.instances && db.instances[id].fileResource == res.id && id != inst.id ==>
               db.instances[id].isDeleted
      ensures r.Ok? ==>
        var (res, inst) := r.value;
        var replaced := old(ResourceNamed(db, res.filename)).Some? && old(ResourceNamed(db, res.filename)).value != res;
        db.instances == (if replaced then SoftDeleted(old(db.instances), res.id) else old(db.instances))[inst.id := inst]
      ensures r.Ok? ==> OthersKept(old(db), db, r.value.0.id)
    {
      var located :- LocateFile(storageName, filepath, live);
      var (storage, filename, stat) := located;
      r := RegisterFile(storage, filename, stat, update);
    }

    /**
     * The second half of `add_file`, once the file is located: the resource
     * under `filename` with the live size and creation time, then its
     * instance on `storage`.
     */
    method RegisterFile(storage: Storage, filename: string, stat: FileStat, update: bool)
      returns (r: Result<(FileResource, FileInstance), ApiError>)
      requires Valid()
      requires storage.name in db.storages && db.storages[storage.name] == storage
      modifies this`db
      ensures Valid()
      ensures db.storages == old(db.storages)
      ensures r.Err? <==>
        !update && old(ResourceNamed(db, filename)).Some? &&
        (old(ResourceNamed(db, filename)).value.size != stat.size ||
         old(ResourceNamed(db, filename)).value.created != stat.created)
      ensures r.Err? ==> r.error == FieldMismatch && db == old(db)
      ensures r.Ok? ==>
        var (res, inst) := r.value;
        && res == FileResource(res.id, filename, stat.size, stat.created)
        && res.id in db.resources && db.resources[res.id] == res
        && inst.id in db.instances && db.instances[inst.id] == inst
        && !inst.isDeleted && inst.fileResource == res.id && inst.storage == storage.name
      ensures r.Ok? ==>
        var (res, inst) := r.value;
        var replaced := old(ResourceNamed(db, filename)).Some? && old(ResourceNamed(db, filename)).value != res;
        && (replaced ==> update)
        && db.instances == (if replaced then SoftDeleted(old(db.instances), res.id) else old(db.instances))[inst.id := inst]
      ensures r.Ok? ==> OthersKept(old(db), db, r.value.0.id)
      ensures r.Ok? ==> db.resources == old(db.resources)[r.value.0.id := r.value.0]
    {
      ghost var before := db;
      var fileResource :- RegisterResource(filename, stat, update);
      ghost var registered := db;
      var inst := AddInstance(fileResource, storage);
      OthersKeptTrans(before, registered, db, fileResource.id);
      return Ok((fileResource, inst.value));
    }

    /**
     * The middle of `add_file`: `get_or_create` the resource with the live
     * size and creation time; when the file name is already taken with other
     * values, fail unless `update`, in which case the existing resource is
     * replaced.
     */
    method RegisterResource(filename: string, stat: FileStat, update: bool) returns (r: Result<FileResource, ApiError>)
      requires Valid()
      modifies this`db
      ensures Valid()
      ensures db.storages == old(db.storages)
      ensures r.Err? <==>
        !update && old(ResourceNamed(db, filename)).Some? &&
        (old(ResourceNamed(db, filename)).value.size != stat.size ||
         old(ResourceNamed(db, filename)).value.created != stat.created)
      ensures r.Err? ==> r.error == FieldMismatch && db == old(db)
      ensures r.Ok? ==>
        && r.value == FileResource(r.value.id, filename, stat.size, stat.created)
        && r.value.id in db.resources && db.resources[r.value.id] == r.value
      ensures r.Ok? && old(ResourceNamed(db, filename)).Some? && old(ResourceNamed(db, filename)).value != r.value ==>
        && update
        && forall id :: id in db.instances && db.instances[id].fileResource == r.value.id ==> db.instances[id].isDeleted
      ensures r.Ok? && old(ResourceNamed(db, filename)).Some? ==> r.value.id == old(ResourceNamed(db, filename)).value.id
      ensures r.Ok? && old(ResourceNamed(db, filename)).None? ==> r.value.id !in old(db.resources)
      ensures r.Ok? && (old(ResourceNamed(db, filename)).None? || old(ResourceNamed(db, filename)).value == r.value) ==>
        db.instances == old(db.instances)
      ensures db.instances.Keys == old(db.instances).Keys
      ensures r.Ok? ==>
        db.instances == if old(ResourceNamed(db, filename)).Some? && old(ResourceNamed(db, filename)).value != r.value
                        then SoftDeleted(old(db.instances), r.value.id) else old(db.instances)
      ensures r.Ok? ==> OthersKept(old(db), db, r.value.id)
      ensures r.Ok? ==> db.resources == old(db.resources)[r.value.id := r.value]
    {
      var (db1, got) := GetOrCreateResource(db, filename, stat.created, stat.size);
      if got.Ok? {
        db := db1;
        return Ok(got.value);
      }
      if !update {
        return Err(got.error);
      }
      var replaced := ReplaceResource(filename, stat);
      return Ok(replaced);
    }

    /**
     * The `update=True` branch of `add_file`: fetch the resource that holds the
     * file name, soft-delete every instance of it, then give it the live size
     * and creation time.
     */
    method ReplaceResource(filename: string, stat: FileStat) returns (fileResource: FileResource)
      requires Valid()
      requires ResourceNamed(db, filename).Some?
      modifies this`db
      ensures Valid()
      ensures var rid := old(ResourceNamed(db, filename)).value.id;
        && fileResource == FileResource(rid, filename, stat.size, stat.created)
        && db == old(db).(instances := SoftDeleted(old(db).instances, rid),
                          resources := old(db).resources[rid := fileResource])
    {
      var existing := ResourceNamed(db, filename).value;
      SoftDeletedKeepsValid(db, existing.id);
      db := SoftDeleteInstances(db, existing.id);
      var (db2, updated) := UpdateResourceStat(db, existing.id, stat);
      db := db2;
      fileResource := updated.value;
    }

    /**
     * `update_file`: the instance's resource takes the size and creation
     * time its storage reports, and the instance gets the updated resource
     * attached; nothing else changes.
     */
    method UpdateFile(fileInstance: InstanceView, live: Listing) returns (r: Result<InstanceView, ApiError>)
      requires Valid()
      modifies this`cachedStorages, this`cachedStorageClients, this`db
      ensures Valid()
      ensures Extends(old(cachedStorages), cachedStorages) && Extends(old(cachedStorageClients), cachedStorageClients)
      ensures db.storages == old(db.storages) && db.instances == old(db.instances) && db.nextId == old(db.nextId)
      ensures r.Err? ==> db == old(db)
      ensures r.Ok? <==>
        && fileInstance.storage.name in db.storages
        && !ClientFor(db.storages[fileInstance.storage.name]).ReturnedValueError?
        && fileInstance.fileResource.filename in live
        && fileInstance.fileResource.id in old(db.resources)
      ensures r.Ok? ==> r.value == fileInstance.(fileResource := r.value.fileResource)
      ensures r.Ok? ==>
        var rid := fileInstance.fileResource.id;
        && fileInstance.fileResource.filename in live
        && rid in old(db.resources)
        && r.value.fileResource == FileResource(rid, old(db.resources[rid].filename),
                                                 live[fileInstance.fileResource.filename].size,
                                                 live[fileInstance.fileResource.filename].created)
        && db.resources == old(db.resources)[rid := r.value.fileResource]
      ensures r.Ok? && old(db.resources[fileInstance.fileResource.id].filename) == fileInstance.fileResource.filename ==>
        CheckAgainst(r.value.fileResource, live) == Passed
    {
      var client :- GetStorageClient(fileInstance.storage.name);
      var stat :- ClientStat(client, live, fileInstance.fileResource.filename);
      var (db1, updated) := UpdateResourceStat(db, fileInstance.fileResource.id, stat);
      db := db1;
      var fileResource :- updated;
      return Ok(fileInstance.(fileResource := fileResource));
    }

    /**
     * `get('file_instance', file_resource=rid, storage__name=storageName)`,
     * with the resource and storage records nested as the store returns them.
     */
    method GetInstance(rid: nat, storageName: string) returns (r: Result<InstanceView, ApiError>)
      requires Valid()
      ensures r.Err? <==> InstanceOn(db, rid, storageName).None?
      ensures r.Err? ==> r.error == NotFound
      ensures r.Ok? ==>
        var inst := InstanceOn(db, rid, storageName).value;
        && r.value.id == inst.id && r.value.isDeleted == inst.isDeleted
        && r.value.storage == db.storages[storageName] && r.value.storage.name == storageName
        && r.value.fileResource == db.resources[rid]
    {
      var found := InstanceOn(db, rid, storageName);
      if found.None? {
        return Err(NotFound);
      }
      var inst := found.value;
      assert InstanceWellFormed(db, inst.id);
      return Ok(InstanceView(inst.id, db.storages[inst.storage], inst.isDeleted, db.resources[inst.fileResource]));
    }

    /** `update('file_instance', id=iid, is_deleted=deleted)`. */
    method SetInstanceDeleted(iid: nat, deleted: bool) returns (r: Result<FileInstance, ApiError>)
      requires Valid()
      modifies this`db
      ensures Valid()
      ensures (db, r) == Catalog.UpdateInstanceDeleted(old(db), iid, deleted)
    {
      var (db1, updated) := Catalog.UpdateInstanceDeleted(db, iid, deleted);
      db := db1;
      return updated;
    }

    /**
     * `check_file`: the instance's file must exist on its storage and have
     * the recorded size.  Only the client caches change.
     */
    method CheckFile(fileInstance: InstanceView, live: Listing) returns (r: Result<CheckOutcome, ApiError>)
      requires Valid()
      modifies this`cachedStorages, this`cachedStorageClients
      ensures Valid()
      ensures Extends(old(cachedStorages), cachedStorages) && Extends(old(cachedStorageClients), cachedStorageClients)
      ensures r.Err? <==> fileInstance.storage.name !in db.storages || ClientFor(db.storages[fileInstance.storage.name]).ReturnedValueError?
      ensures r.Err? ==> r.error == if fileInstance.storage.name !in db.storages then NotFound else NotAClient
      ensures r.Ok? ==> r.value == CheckAgainst(fileInstance.fileResource, live)
    {
      var client :- GetStorageClient(fileInstance.storage.name);
      if client.ReturnedValueError? {
        return Err(NotAClient);
      }
      return Ok(CheckAgainst(fileInstance.fileResource, live));
    }
  }
}
