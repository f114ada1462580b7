/**
 * The integrity sweep of `datamanagement/check_integrity.py`: choose file
 * resources (every resource on a storage, or the resources of selected
 * datasets), then check each one's instance on the storage against what the
 * storage holds, optionally resyncing a file whose size differs and
 * soft-deleting a file that has gone.
 *
 * The sweep is specified by `Step` (one resource) and `SweepFrom` (a list of
 * resources) on the store; `Sweep` is the loop of `main` over the client
 * object and is proved to do exactly what `SweepFrom` says.
 */
module CheckIntegrity {
  import opened Wrappers
  import opened Catalog
  import opened Tantalus

  /* ---------------------------------------------------------------------- */
  /* Datasets and the resources they hold                                     */
  /* ---------------------------------------------------------------------- */

  /** A sequence or results dataset as the store lists it, with its resources in listing order. */
  datatype Dataset = Dataset(id: nat, name: string, tags: set<string>, fileResources: seq<FileResource>)

  /** The store-side meaning of extra `filters` keywords, as a test on each resource. */
  type Filters = FileResource -> bool

  /** The dataset models `get_dataset_file_resources` knows how to list. */
  predicate KnownDatasetModel(datasetModel: string) {
    datasetModel == "sequencedataset" || datasetModel == "resultsdataset"
  }

  /** The resources among `rs` that pass `keep`, in their order. */
  function Keep(rs: seq<FileResource>, keep: Filters): (r: seq<FileResource>)
    ensures |r| <= |rs|
    ensures forall x :: x in r <==> x in rs && keep(x)
  {
    if rs == [] then [] else (if keep(rs[0]) then [rs[0]] else []) + Keep(rs[1..], keep)
  }

  /**
   * `get_dataset_file_resources` as written: the model is tested first, then
   * `**filters` is applied, which is a TypeError when `filters` is left at
   * its default `None`.
   */
  function DatasetFileResourcesAsWritten(dataset: Dataset, datasetModel: string, filters: Option<Filters>)
    : (r: Result<seq<FileResource>, ApiError>)
    ensures !KnownDatasetModel(datasetModel) ==> r == Err(UnrecognizedDatasetModel)
    ensures KnownDatasetModel(datasetModel) ==> (r.Ok? <==> filters.Some?)
    ensures r.Err? && KnownDatasetModel(datasetModel) ==> r.error == FiltersNotMapping
  {
    if !KnownDatasetModel(datasetModel) then Err(UnrecognizedDatasetModel)
    else if filters.None? then Err(FiltersNotMapping)
    else Ok(Keep(dataset.fileResources, filters.value))
  }

  /**
   * `get_dataset_file_resources` with a missing `filters` read as no extra
   * filter, as `get_dataset_file_instances` of the client already does.
   */
  function DatasetFileResources(dataset: Dataset, datasetModel: string, filters: Option<Filters>)
    : (r: Result<seq<FileResource>, ApiError>)
    ensures r.Err? <==> !KnownDatasetModel(datasetModel)
    ensures r.Err? ==> r.error == UnrecognizedDatasetModel
    ensures r.Ok? && filters.None? ==> r.value == dataset.fileResources
    ensures r.Ok? && filters.Some? ==>
      forall x :: x in r.value <==> x in dataset.fileResources && filters.value(x)
  {
    if !KnownDatasetModel(datasetModel) then Err(UnrecognizedDatasetModel)
    else if filters.None? then Ok(dataset.fileResources)
    else Ok(Keep(dataset.fileResources, filters.value))
  }

  /** Every call that passes a filter gets the same answer from both versions; every call without one differs. */
  lemma DatasetFileResourcesFixesDefault(dataset: Dataset, datasetModel: string, filters: Option<Filters>)
    ensures filters.Some? ==>
      DatasetFileResourcesAsWritten(dataset, datasetModel, filters) == DatasetFileResources(dataset, datasetModel, filters)
    ensures filters.None? && KnownDatasetModel(datasetModel) ==>
      && DatasetFileResourcesAsWritten(dataset, datasetModel, filters) == Err(FiltersNotMapping)
      && DatasetFileResources(dataset, datasetModel, filters) == Ok(dataset.fileResources)
  {
  }

  /* ---------------------------------------------------------------------- */
  /* Choosing the resources to check                                          */
  /* ---------------------------------------------------------------------- */

  /**
   * The datasets `list(dataset_type, ...)` returns from `ofType`, the
   * datasets of the requested type in listing order: the one with id
   * `datasetId`, those tagged `tagName`, or all of them.
   */
  function Selected(datasetId: Option<nat>, tagName: Option<string>, ofType: seq<Dataset>): (r: seq<Dataset>)
    ensures |r| <= |ofType|
    ensures forall d :: d in r <==>
      d in ofType && (datasetId.None? || d.id == datasetId.value) && (tagName.None? || tagName.value in d.tags)
  {
    if ofType == [] then []
    else
      var d := ofType[0];
      var chosen := (datasetId.None? || d.id == datasetId.value) && (tagName.None? || tagName.value in d.tags);
      (if chosen then [d] else []) + Selected(datasetId, tagName, ofType[1..])
  }

  /** The resources of each dataset in turn, as the generator yields them. */
  function Flatten(ds: seq<Dataset>): (r: seq<FileResource>)
    ensures forall x :: x in r <==> exists d :: d in ds && x in d.fileResources
  {
    if ds == [] then []
    else
      var last := ds[|ds| - 1];
      assert forall d :: d in ds <==> d in ds[..|ds| - 1] || d == last;
      Flatten(ds[..|ds| - 1]) + last.fileResources
  }

  /**
   * What `get_dataset_file_instances` yields, or the error it raises, with
   * each dataset's resources listed by the corrected `DatasetFileResources`
   * (no filters read as no filter).
   */
  function Selection(datasetType: Option<string>, datasetId: Option<nat>, tagName: Option<string>, ofType: seq<Dataset>)
    : (r: Result<seq<FileResource>, ApiError>)
    ensures r.Err? <==>
      datasetType.None? || (datasetId.Some? && tagName.Some?) ||
      (Selected(datasetId, tagName, ofType) != [] && !KnownDatasetModel(datasetType.value))
    ensures r.Ok? ==> forall x :: x in r.value <==>
      exists d :: d in ofType && x in d.fileResources &&
        (datasetId.None? || d.id == datasetId.value) && (tagName.None? || tagName.value in d.tags)
  {
    if datasetType.None? then Err(MissingDatasetType)
    else if datasetId.Some? && tagName.Some? then Err(DatasetIdAndTag)
    else
      var datasets := Selected(datasetId, tagName, ofType);
      if datasets != [] && !KnownDatasetModel(datasetType.value) then Err(UnrecognizedDatasetModel)
      else Ok(Flatten(datasets))
  }

  /**
   * `get_dataset_file_instances`: validate the arguments, list the datasets,
   * then yield each dataset's resources in order, as listed by the corrected
   * `DatasetFileResources`.
   */
  method DatasetFileInstances(datasetType: Option<string>, datasetId: Option<nat>, tagName: Option<string>, ofType: seq<Dataset>)
    returns (r: Result<seq<FileResource>, ApiError>)
    ensures r == Selection(datasetType, datasetId, tagName, ofType)
  {
    if datasetType.None? {
      return Err(MissingDatasetType);
    }
    if datasetId.Some? && tagName.Some? {
      return Err(DatasetIdAndTag);
    }
    var datasets := Selected(datasetId, tagName, ofType);
    var yielded: seq<FileResource> := [];
    var i := 0;
    while i < |datasets|
      invariant 0 <= i <= |datasets|
      invariant i > 0 ==> KnownDatasetModel(datasetType.value)
      invariant yielded == Flatten(datasets[..i])
    {
      var resources :- DatasetFileResources(datasets[i], datasetType.value, None);
      var j := 0;
      while j < |resources|
        invariant 0 <= j <= |resources|
        invariant yielded == Flatten(datasets[..i]) + resources[..j]
      {
        yielded := yielded + [resources[j]];
        j := j + 1;
      }
      assert datasets[..i + 1][..i] == datasets[..i];
      i := i + 1;
    }
    assert datasets[..i] == datasets;
    return Ok(yielded);
  }

  /* ---------------------------------------------------------------------- */
  /* Checking one resource                                                    */
  /* ---------------------------------------------------------------------- */

  /** The command-line switches of the sweep. */
  datatype Flags = Flags(dryRun: bool, fixCorrupt: bool, removeMissing: bool)

  /**
   * The sweep acts on resource `rid`: it has a live instance on the storage,
   * the storage has a client, and the check found a failure whose repair is
   * switched on outside a dry run.
   */
  predicate Acts(db: Store, rid: nat, storageName: string, live: Listing, flags: Flags)
    requires Catalog.Valid(db)
  {
    var found := InstanceOn(db, rid, storageName);
    && found.Some? && !found.value.isDeleted && !flags.dryRun
    && storageName in db.storages && !ClientFor(db.storages[storageName]).ReturnedValueError?
    && rid in db.resources
    && var outcome := CheckAgainst(db.resources[rid], live);
       (outcome == SizeMismatch && flags.fixCorrupt) || (outcome == Missing && flags.removeMissing)
  }

  /**
   * One pass of the loop in `main`: skip a resource with no instance on the
   * storage or a deleted one; otherwise check the file, resync the resource
   * to the live size and creation time when it is corrupt and `fix_corrupt`
   * is set, soft-delete the instance when it is missing and `remove_missing`
   * is set, and change nothing in a dry run.  Using the value returned in
   * place of a client of an unsupported storage type aborts the sweep.
   */
  function Step(db: Store, rid: nat, storageName: string, live: Listing, flags: Flags): (r: Result<Store, ApiError>)
    requires Catalog.Valid(db)
    ensures r.Ok? ==> Catalog.Valid(r.value) && r.value.storages == db.storages
    ensures r.Err? <==>
      && InstanceOn(db, rid, storageName).Some? && !InstanceOn(db, rid, storageName).value.isDeleted
      && storageName in db.storages && ClientFor(db.storages[storageName]).ReturnedValueError?
    ensures r.Err? ==> r.error == NotAClient
    ensures r.Ok? ==> (r.value != db <==> Acts(db, rid, storageName, live, flags))
    ensures r.Ok? && Acts(db, rid, storageName, live, flags) && CheckAgainst(db.resources[rid], live) == SizeMismatch ==>
      var live := live[db.resources[rid].filename];
      r.value == db.(resources := db.resources[rid := db.resources[rid].(size := live.size, created := live.created)])
    ensures r.Ok? && Acts(db, rid, storageName, live, flags) && CheckAgainst(db.resources[rid], live) == Missing ==>
      var inst := InstanceOn(db, rid, storageName).value;
      r.value == db.(instances := db.instances[inst.id := inst.(isDeleted := true)])
  {
    match InstanceOn(db, rid, storageName)
    case None => Ok(db)
    case Some(inst) =>
      assert InstanceWellFormed(db, inst.id);
      if inst.isDeleted then Ok(db)
      else if ClientFor(db.storages[storageName]).ReturnedValueError? then Err(NotAClient)
      else
        var resource := db.resources[rid];
        match CheckAgainst(resource, live)
        case Passed => Ok(db)
        case SizeMismatch =>
          if flags.fixCorrupt && !flags.dryRun then
            var stat := live[resource.filename];
            assert db.resources[rid := resource.(size := stat.size)][rid].size != resource.size;
            Ok(UpdateResourceStat(db, rid, stat).0)
          else Ok(db)
        case Missing =>
          if flags.removeMissing && !flags.dryRun then
            var removed := UpdateInstanceDeleted(db, inst.id, true).0;
            assert removed.instances[inst.id] != db.instances[inst.id];
            Ok(removed)
          else Ok(db)
  }

  /** The sweep leaves resource `rid` as it is. */
  predicate Settled(db: Store, rid: nat, storageName: string, live: Listing, flags: Flags)
    requires Catalog.Valid(db)
  {
    Step(db, rid, storageName, live, flags) == Ok(db)
  }

  /** After its own step, a resource is settled: a resynced file now passes, a removed one is skipped. */
  lemma StepSettles(db: Store, rid: nat, storageName: string, live: Listing, flags: Flags)
    requires Catalog.Valid(db) && Step(db, rid, storageName, live, flags).Ok?
    ensures Settled(Step(db, rid, storageName, live, flags).value, rid, storageName, live, flags)
  {
    var db' := Step(db, rid, storageName, live, flags).value;
    if db' != db {
      var inst := InstanceOn(db, rid, storageName).value;
      InstanceOnUnique(db, inst);
      InstanceOnUnique(db', db'.instances[inst.id]);
      if CheckAgainst(db.resources[rid], live) == SizeMismatch {
        assert CheckAgainst(db'.resources[rid], live) == Passed;
      }
    }
  }

  /** A settled resource stays settled when the sweep acts on another one. */
  lemma StepKeepsOtherSettled(db: Store, rid: nat, other: nat, storageName: string, live: Listing, flags: Flags)
    requires Catalog.Valid(db) && Step(db, rid, storageName, live, flags).Ok?
    requires Settled(db, other, storageName, live, flags)
    ensures Settled(Step(db, rid, storageName, live, flags).value, other, storageName, live, flags)
  {
    var db' := Step(db, rid, storageName, live, flags).value;
    if other != rid {
      StepKeepsOtherRecords(db, rid, other, storageName, live, flags);
    }
  }

  /** Acting on one resource leaves another resource's record and its instance on the storage alone. */
  lemma StepKeepsOtherRecords(db: Store, rid: nat, other: nat, storageName: string, live: Listing, flags: Flags)
    requires Catalog.Valid(db) && Step(db, rid, storageName, live, flags).Ok? && other != rid
    ensures var db' := Step(db, rid, storageName, live, flags).value;
      && InstanceOn(db', other, storageName) == InstanceOn(db, other, storageName)
      && (other in db.resources ==> other in db'.resources && db'.resources[other] == db.resources[other])
  {
    var db' := Step(db, rid, storageName, live, flags).value;
    if db' != db {
      assert InstancesOf(db', other) == InstancesOf(db, other);
      InstanceOnAgrees(db, db', other, storageName);
    }
  }

  /* ---------------------------------------------------------------------- */
  /* The whole sweep                                                          */
  /* ---------------------------------------------------------------------- */

  /** The loop of `main` over the chosen resources: the final store, and the error that stopped it, if any. */
  function SweepFrom(db: Store, resources: seq<FileResource>, storageName: string, live: Listing, flags: Flags)
    : (r: (Store, Option<ApiError>))
    requires Catalog.Valid(db)
    ensures Catalog.Valid(r.0) && r.0.storages == db.storages
    decreases |resources|
  {
    if resources == [] then (db, None)
    else
      match Step(db, resources[0].id, storageName, live, flags)
      case Err(e) => (db, Some(e))
      case Ok(db') => SweepFrom(db', resources[1..], storageName, live, flags)
  }

  /** A dry run changes nothing in the store. */
  lemma {:induction false} DryRunChangesNothing(db: Store, resources: seq<FileResource>, storageName: string, live: Listing, flags: Flags)
    requires Catalog.Valid(db) && flags.dryRun
    ensures SweepFrom(db, resources, storageName, live, flags).0 == db
    decreases |resources|
  {
    if resources != [] && Step(db, resources[0].id, storageName, live, flags).Ok? {
      DryRunChangesNothing(db, resources[1..], storageName, live, flags);
    }
  }

  /** Without `fix_corrupt` and `remove_missing` the sweep only reports. */
  lemma {:induction false} NoRepairFlagsChangeNothing(db: Store, resources: seq<FileResource>, storageName: string, live: Listing, flags: Flags)
    requires Catalog.Valid(db) && !flags.fixCorrupt && !flags.removeMissing
    ensures SweepFrom(db, resources, storageName, live, flags).0 == db
    decreases |resources|
  {
    if resources != [] && Step(db, resources[0].id, storageName, live, flags).Ok? {
      NoRepairFlagsChangeNothing(db, resources[1..], storageName, live, flags);
    }
  }

  /**
   * A failed check never stops the sweep: it stops only on a live instance
   * of a storage whose type has no client.
   */
  lemma {:induction false} SweepStopsOnlyWithoutClient(db: Store, resources: seq<FileResource>, storageName: string, live: Listing, flags: Flags)
    requires Catalog.Valid(db)
    ensures var (_, err) := SweepFrom(db, resources, storageName, live, flags);
      err.Some? ==>
        && err.value == NotAClient
        && storageName in db.storages && ClientFor(db.storages[storageName]).ReturnedValueError?
        && exists k :: 0 <= k < |resources| && InstanceOn(db, resources[k].id, storageName).Some?
    decreases |resources|
  {
    if resources != [] {
      match Step(db, resources[0].id, storageName, live, flags)
      case Err(_) =>
      case Ok(db') =>
        SweepStopsOnlyWithoutClient(db', resources[1..], storageName, live, flags);
        if SweepFrom(db', resources[1..], storageName, live, flags).1.Some? {
          var k :| 0 <= k < |resources[1..]| && InstanceOn(db', resources[1..][k].id, storageName).Some?;
          StepKeepsPairs(db, resources[0].id, resources[k + 1].id, storageName, live, flags);
        }
    }
  }

  /** No instance of a (resource, storage) pair appears or disappears in a step. */
  lemma StepKeepsPairs(db: Store, rid: nat, other: nat, storageName: string, live: Listing, flags: Flags)
    requires Catalog.Valid(db) && Step(db, rid, storageName, live, flags).Ok?
    ensures InstanceOn(Step(db, rid, storageName, live, flags).value, other, storageName).Some? <==>
            InstanceOn(db, other, storageName).Some?
  {
    var db' := Step(db, rid, storageName, live, flags).value;
    if other != rid {
      StepKeepsOtherRecords(db, rid, other, storageName, live, flags);
    } else if db' != db {
      InstanceOnUnique(db', db'.instances[InstanceOn(db, rid, storageName).value.id]);
    }
  }

  /** A resource settled before the rest of a sweep is still settled after it. */
  lemma {:induction false} SweepKeepsSettled(db: Store, resources: seq<FileResource>, rid: nat, storageName: string, live: Listing, flags: Flags)
    requires Catalog.Valid(db) && Settled(db, rid, storageName, live, flags)
    requires SweepFrom(db, resources, storageName, live, flags).1.None?
    ensures Settled(SweepFrom(db, resources, storageName, live, flags).0, rid, storageName, live, flags)
    decreases |resources|
  {
    if resources != [] {
      StepKeepsOtherSettled(db, resources[0].id, rid, storageName, live, flags);
      var db' := Step(db, resources[0].id, storageName, live, flags).value;
      SweepKeepsSettled(db', resources[1..], rid, storageName, live, flags);
    }
  }

  /** A sweep that completes leaves every resource it visited settled. */
  lemma {:induction false} SweepSettlesAll(db: Store, resources: seq<FileResource>, storageName: string, live: Listing, flags: Flags)
    requires Catalog.Valid(db)
    requires SweepFrom(db, resources, storageName, live, flags).1.None?
    ensures forall x :: x in resources ==> Settled(SweepFrom(db, resources, storageName, live, flags).0, x.id, storageName, live, flags)
    decreases |resources|
  {
    if resources != [] {
      var db' := Step(db, resources[0].id, storageName, live, flags).value;
      StepSettles(db, resources[0].id, storageName, live, flags);
      SweepKeepsSettled(db', resources[1..], resources[0].id, storageName, live, flags);
      SweepSettlesAll(db', resources[1..], storageName, live, flags);
      assert forall x :: x in resources ==> x == resources[0] || x in resources[1..];
    }
  }

  /** Sweeping resources that are all settled changes nothing. */
  lemma {:induction false} SweepOfSettledChangesNothing(db: Store, resources: seq<FileResource>, storageName: string, live: Listing, flags: Flags)
    requires Catalog.Valid(db)
    requires forall x :: x in resources ==> Settled(db, x.id, storageName, live, flags)
    ensures SweepFrom(db, resources, storageName, live, flags) == (db, None)
    decreases |resources|
  {
    if resources != [] {
      assert resources[0] in resources;
      assert forall x :: x in resources[1..] ==> x in resources;
      SweepOfSettledChangesNothing(db, resources[1..], storageName, live, flags);
    }
  }

  /** Running the same sweep again after it completed changes nothing. */
  lemma SweepIdempotent(db: Store, resources: seq<FileResource>, storageName: string, live: Listing, flags: Flags)
    requires Catalog.Valid(db)
    requires SweepFrom(db, resources, storageName, live, flags).1.None?
    ensures var db' := SweepFrom(db, resources, storageName, live, flags).0;
      SweepFrom(db', resources, storageName, live, flags) == (db', None)
  {
    SweepSettlesAll(db, resources, storageName, live, flags);
    SweepOfSettledChangesNothing(SweepFrom(db, resources, storageName, live, flags).0, resources, storageName, live, flags);
  }

  /* ---------------------------------------------------------------------- */
  /* The exception classes as written                                         */
  /* ---------------------------------------------------------------------- */

  /**
   * One pass of the loop as the code is written: `check_file` raises
   * `DataCorruptionError` for a missing file as well as for a wrong size, so
   * `file_missing` is never set and a missing file is handed to
   * `update_file`, whose stat of the absent file raises out of the sweep.
   */
  function StepAsWritten(db: Store, rid: nat, storageName: string, live: Listing, flags: Flags): (r: Result<Store, ApiError>)
    requires Catalog.Valid(db)
    ensures r.Ok? ==> Catalog.Valid(r.value)
    ensures r.Ok? ==> r.value.instances == db.instances
    ensures r.Ok? && r.value != db ==>
      && flags.fixCorrupt && !flags.dryRun
      && rid in db.resources && CheckAgainst(db.resources[rid], live) == SizeMismatch
      && db.resources[rid].filename in live
      && r.value == UpdateResourceStat(db, rid, live[db.resources[rid].filename]).0
    ensures r.Err? ==> r.error == NotAClient || (r.error == FileAbsent && flags.fixCorrupt && !flags.dryRun)
  {
    match InstanceOn(db, rid, storageName)
    case None => Ok(db)
    case Some(inst) =>
      assert InstanceWellFormed(db, inst.id);
      if inst.isDeleted then Ok(db)
      else if ClientFor(db.storages[storageName]).ReturnedValueError? then Err(NotAClient)
      else
        var resource := db.resources[rid];
        var fileCorrupt := CheckAgainst(resource, live) != Passed;
        if fileCorrupt && flags.fixCorrupt && !flags.dryRun then
          if resource.filename !in live then Err(FileAbsent)
          else Ok(UpdateResourceStat(db, rid, live[resource.filename]).0)
        else Ok(db)
  }

  /**
   * A live instance whose file has gone is never soft-deleted as written,
   * whatever the flags; with `fix_corrupt` it even stops the sweep.  The
   * corrected step deletes it when `remove_missing` is set outside a dry run.
   */
  lemma MissingFileNeverRemovedAsWritten(db: Store, rid: nat, storageName: string, live: Listing, flags: Flags)
    requires Catalog.Valid(db)
    requires InstanceOn(db, rid, storageName).Some? && !InstanceOn(db, rid, storageName).value.isDeleted
    requires storageName in db.storages && !ClientFor(db.storages[storageName]).ReturnedValueError?
    requires rid in db.resources && CheckAgainst(db.resources[rid], live) == Missing
    ensures StepAsWritten(db, rid, storageName, live, flags) ==
      if flags.fixCorrupt && !flags.dryRun then Err(FileAbsent) else Ok(db)
    ensures flags.removeMissing && !flags.dryRun ==>
      && Step(db, rid, storageName, live, flags).Ok?
      && var inst := InstanceOn(db, rid, storageName).value;
         Step(db, rid, storageName, live, flags).value.instances[inst.id].isDeleted
  {
    var inst := InstanceOn(db, rid, storageName).value;
    assert InstanceWellFormed(db, inst.id);
  }

  /* ---------------------------------------------------------------------- */
  /* The sweep over the client                                                */
  /* ---------------------------------------------------------------------- */

  /** The body of the loop of `main` for one resource, through the client's calls. */
  method CheckResource(api: TantalusApi, rid: nat, storageName: string, live: Listing, flags: Flags)
    returns (r: Result<(), ApiError>)
    requires api.Valid()
    modifies api
    ensures api.Valid()
    ensures Step(old(api.db), rid, storageName, live, flags) == if r.Ok? then Ok(api.db) else Err(r.error)
    ensures r.Err? ==> api.db == old(api.db)
  {
    var got := api.GetInstance(rid, storageName);
    if got.Err? || got.value.isDeleted {
      return Ok(());
    }
    var fileInstance := got.value;
    ghost var before := api.db;
    ghost var inst := InstanceOn(before, rid, storageName).value;
    var checked := api.CheckFile(fileInstance, live);
    if checked.Err? {
      return Err(checked.error);
    }
    var fileCorrupt := checked.value == SizeMismatch;
    var fileMissing := checked.value == Missing;
    if fileCorrupt && flags.fixCorrupt && !flags.dryRun {
      var updated := api.UpdateFile(fileInstance, live);
      assert Acts(before, rid, storageName, live, flags);
      assert updated.Ok?;
    }
    if fileMissing && flags.removeMissing && !flags.dryRun {
      var removed := api.SetInstanceDeleted(fileInstance.id, true);
      assert Acts(before, rid, storageName, live, flags);
      assert api.db == before.(instances := before.instances[inst.id := inst.(isDeleted := true)]);
    }
    if !Acts(before, rid, storageName, live, flags) {
      assert api.db == before;
    }
    return Ok(());
  }

  /** The loop of `main`: one `Step` per resource, through the client's calls. */
  method Sweep(api: TantalusApi, resources: seq<FileResource>, storageName: string, live: Listing, flags: Flags)
    returns (err: Option<ApiError>)
    requires api.Valid()
    modifies api
    ensures api.Valid()
    ensures (api.db, err) == SweepFrom(old(api.db), resources, storageName, live, flags)
  {
    var i := 0;
    while i < |resources|
      invariant 0 <= i <= |resources|
      invariant api.Valid()
      invariant SweepFrom(old(api.db), resources, storageName, live, flags) ==
                SweepFrom(api.db, resources[i..], storageName, live, flags)
    {
      assert resources[i..][1..] == resources[i + 1..];
      var checked := CheckResource(api, resources[i].id, storageName, live, flags);
      if checked.Err? {
        return Some(checked.error);
      }
      i := i + 1;
    }
    return None;
  }

  /**
   * `main`: the resources with an instance on the storage as the store
   * lists them (`onStorage`) when `all_file_instances` is set, otherwise
   * the dataset selection over the corrected `DatasetFileResources`; then the
   * sweep.
   */
  method CheckStorage(api: TantalusApi, storageName: string, allFileInstances: bool, onStorage: seq<FileResource>,
                      datasetType: Option<string>, datasetId: Option<nat>, tagName: Option<string>,
                      ofType: seq<Dataset>, live: Listing, flags: Flags)
    returns (err: Option<ApiError>)
    requires api.Valid()
    modifies api
    ensures api.Valid()
    ensures !allFileInstances && Selection(datasetType, datasetId, tagName, ofType).Err? ==>
      err == Some(Selection(datasetType, datasetId, tagName, ofType).error) && api.db == old(api.db)
    ensures allFileInstances ==>
      (api.db, err) == SweepFrom(old(api.db), onStorage, storageName, live, flags)
    ensures !allFileInstances && Selection(datasetType, datasetId, tagName, ofType).Ok? ==>
      (api.db, err) == SweepFrom(old(api.db), Selection(datasetType, datasetId, tagName, ofType).value, storageName, live, flags)
  {
    var resources := onStorage;
    if !allFileInstances {
      var selected := DatasetFileInstances(datasetType, datasetId, tagName, ofType);
      if selected.Err? {
        return Some(selected.error);
      }
      resources := selected.value;
    }
    err := Sweep(api, resources, storageName, live, flags);
  }
}
