# Tantalus file tracking and integrity sweep, in Dafny

This project models the file-tracking layer of the single-cell pipeline's
Tantalus client and proves properties of it.

**The catalog.** Tantalus keeps three kinds of record:

- *storages*, keyed by name;
- *file resources*, each a logical file with a filename, size and creation time;
- *file instances*, each a copy of a resource on one storage, with a soft-delete flag `is_deleted`.

The client (`TantalusApi`) does the following:

- turns absolute paths into storage-relative file names and back;
- caches storage records and storage clients;
- registers files with `add_file` and `add_instance`;
- checks and resyncs files against what a storage reports, with `check_file` and `update_file`;
- searches a resource's instances;
- pages through list calls with offset/limit counters.

**The integrity sweep.** `check_integrity` chooses file resources, either by dataset or as every resource on a storage. It checks each one's instance on the storage. Depending on its switches, it resyncs corrupt files or soft-deletes missing ones.

**The lane helpers.** These build and compare sequencing lane ids.

## Structure

- `wrappers.dfy`: module `Wrappers`, which defines `Option` and `Result`.
- `catalog.dfy`: module `Catalog`.
  - Records: `Storage`, `FileResource`, `FileInstance`, `FileStat`.
  - The store as a value (`Store`) with its integrity constraints (`Valid`). The main constraint is at most one instance per (resource, storage).
  - The store's `get`, `get_or_create` and `update` answers, written as functions.
- `paths.dfy`: module `Paths`, the prefix stripping and `os.path.join` arithmetic.
- `tantalus.dfy`: module `Tantalus`.
  - Storage clients over a storage listing (`Listing`, file name to size and creation time).
  - The check outcome.
  - Instance lookup.
  - Pagination.
  - The blob ingest decision.
  - The class `TantalusApi`, whose fields are the store as the client sees it and the two caches.
- `check_integrity.dfy`: module `CheckIntegrity`.
  - Dataset selection.
  - The sweep, specified per resource by `Step` and for a list of resources by `SweepFrom`.
  - The method `Sweep`, proved equal to `SweepFrom`.
- `tantalus_utils.dfy`: module `TantalusUtils`, the lane helpers.

**The store behind the client.** The store's own code is not in the repository, so the model describes it by the answers the client relies on:

- `get_or_create` returns the existing record when all the given fields agree.
- It fails with a field mismatch when the identity is taken with other values.
- Otherwise it creates a new record with the next id.

**The live storage.** What a storage holds is a parameter, `live`, in every operation that asks a storage client. `exists` is membership in `live`. `get_size` and `get_created_time` read the entry.

**Check outcomes.** `dbclients/tantalus.py` raises one exception class, `DataCorruptionError`, both for a missing file (line 461) and for a size mismatch (line 466). `DataMissingError` is not defined in that file. `datamanagement/check_integrity.py` imports it (line 4) and handles it as a separate outcome (line 92). As written, that import raises `ImportError`, so the sweep module does not load at all. The model follows the sweep's intent:

- `CheckOutcome` is `Passed | Missing | SizeMismatch`.
- `CheckIntegrity.Step` branches on all three outcomes.
- The behaviour as written is modelled separately, under Findings, by `CheckIntegrity.StepAsWritten`. It describes the sweep as if the imported name resolved but `check_file` never raised it.

## Model

| member | source | states |
|---|---|---|
| Paths.LStripSlashes | dbclients/tantalus.py:257-258 | the result has no leading '/', and the input is a run of slashes followed by the result |
| Paths.FileResourceFilename | dbclients/tantalus.py:253-260 | fails exactly when the path does not start with the prefix; otherwise the path is the prefix, some slashes, then the result, which never starts with '/' |
| Paths.Filepath | dbclients/tantalus.py:274-277 | rejects exactly names that start with '/' or contain ".."; an accepted name gives a path that starts with the prefix and ends with the name |
| Paths.StripSlashesBeforeName | dbclients/tantalus.py:257-258 | stripping the slashes put in front of a relative name gives the name back |
| Paths.FilepathRoundTrip | dbclients/tantalus.py:241-277 | for every accepted name f, `get_file_resource_filename(get_filepath(f)) == f` |
| Catalog.ResourceNamed | dbclients/tantalus.py:393-396 | `get('file_resource', filename=...)` finds a resource exactly when one has that name, and returns that record |
| Catalog.InstanceOn | datamanagement/check_integrity.py:72 | `get('file_instance', file_resource=..., storage__name=...)` finds an instance exactly when the pair has one, and returns that record |
| Catalog.InstanceOnUnique | dbclients/tantalus.py:482-486 | any instance of a (resource, storage) pair is the one the lookup returns, since the store holds at most one |
| Catalog.InstanceOnAgrees | dbclients/tantalus.py:482-486 | two stores that hold the same instances of a resource give the same lookup answer |
| Catalog.InstancesOf | dbclients/tantalus.py:401 | the ids of exactly the instances of a resource, on any storage |
| Catalog.GetOrCreateResource | dbclients/tantalus.py:371-376 | fails with a field mismatch, changing nothing, exactly when the name is taken with another size or creation time; otherwise returns the matching or new resource with exactly those fields; keeps the store valid and keeps every other record; when the name is taken with the same values the store is unchanged; on success the resources are exactly the old ones with the returned record set, so no unrelated record appears |
| Catalog.AddResourceKeepsValid | dbclients/tantalus.py:371-376 | a new resource under an unused name keeps the store's constraints |
| Catalog.GetOrCreateInstance | dbclients/tantalus.py:482-486 | rejected exactly when the resource or storage does not exist; an existing instance, deleted or not, is returned with the store unchanged; otherwise one new live instance is added |
| Catalog.AddInstanceKeepsValid | dbclients/tantalus.py:482-486 | a new instance of a pair that had none keeps at most one instance per pair |
| Catalog.UpdateInstanceDeleted | dbclients/tantalus.py:488-493 | not found exactly when the id is absent; otherwise only that instance's flag changes, and a valid store stays valid |
| Catalog.UpdateResourceStat | dbclients/tantalus.py:435-440 | not found exactly when the id is absent; otherwise only that resource's size and creation time change, and the name stays |
| Tantalus.ClientFor | dbclients/tantalus.py:320-327 | a blob or server client exactly for those storage types, with the storage's prefix; any other type yields the returned ValueError |
| Tantalus.ClientStat | dbclients/tantalus.py:78-86 | a real client reports a file's live size and creation time exactly when the storage holds the file; using the returned ValueError as a client is an AttributeError |
| Tantalus.CheckAgainst | dbclients/tantalus.py:458-468 | Missing exactly when the file is absent, SizeMismatch exactly when it is present with another size, Passed exactly when the sizes agree |
| Tantalus.GetFileInstance | dbclients/tantalus.py:497-514 | not found exactly when no instance in the list is on the storage; otherwise a copy of the first such instance, with the resource attached |
| Tantalus.IsSequenceDatasetOnStorage | dbclients/tantalus.py:583-600 | true exactly when every resource of the dataset has an instance on the storage |
| Tantalus.InitialParams | dbclients/tantalus.py:220-229 | the parameters afterwards hold limit 100 and offset 0, and every other parameter as it was |
| Tantalus.InitialPageParams | dbclients/tantalus.py:220-229 | changes the parameter dictionary in place into `InitialParams` of its old contents |
| Tantalus.NextParams | dbclients/tantalus.py:231-239 | Python's `params["offset"] += params["limit"]`: two numbers add and two texts concatenate; a missing counter (KeyError) or a number with text (TypeError) fails; no other parameter changes |
| Tantalus.NextPageParams | dbclients/tantalus.py:231-239 | changes the parameter dictionary in place as `NextParams` says; when it fails, nothing changes |
| Tantalus.PageAt | dbclients/tantalus.py:228 | a page has at most 100 records, and is non-empty while records remain |
| Tantalus.PagesFrom | dbclients/tantalus.py:220-239 | the pages fetched while `NextParams` advances the parameters; each holds between 1 and 100 records |
| Tantalus.PagesTileRecords | dbclients/tantalus.py:231-239 | from any offset the helpers reach, the pages visit every remaining record once, in order, in ceil(remaining / 100) pages |
| Tantalus.ListFetchesAll | dbclients/tantalus.py:220-239 | starting from `InitialParams`, the pages hold every record once, in order, in ceil(n / 100) pages |
| Tantalus.IngestDecision | dbclients/tantalus.py:125-139 | upload exactly when the blob is absent; leave it exactly when it exists with the local size; size-mismatch error exactly when it exists with another size |
| Tantalus.Ingest | dbclients/tantalus.py:125-139 | after ingest the blob exists with the local size, and every other blob is as before |
| Tantalus.IngestIdempotent | dbclients/tantalus.py:125-139 | a second ingest of the same file finds the blob and changes nothing |
| Tantalus.SoftDeleted | dbclients/tantalus.py:400-408 | same instance ids; each instance differs at most in its deleted flag; an instance ends up deleted exactly when it was deleted already or belongs to the resource |
| Tantalus.SoftDeletedKeepsValid | dbclients/tantalus.py:400-408 | soft-deleting every instance of a resource keeps the store's constraints |
| Tantalus.PartlySoftDeletedStep | dbclients/tantalus.py:401-406 | one more `update(is_deleted=True)` extends the set of instances already deleted by one |
| Tantalus.SoftDeleteInstances | dbclients/tantalus.py:400-408 | the loop of updates leaves exactly every instance of the resource deleted, and nothing else changed |
| Tantalus.TantalusApi.constructor | dbclients/tantalus.py:203-218 | both caches start empty |
| Tantalus.TantalusApi.GetStorage | dbclients/tantalus.py:279-295 | a cached name is answered from the cache; the cache grows only on success and never loses an entry; not found exactly when the store has no storage of that name |
| Tantalus.TantalusApi.GetStorageClient | dbclients/tantalus.py:308-331 | a cached client is returned as is; otherwise the client for the storage's type, cached only when it is a real client; the returned ValueError is never cached; the storage cache becomes exactly the old one with this storage recorded on success, and stays as it was on failure |
| Tantalus.TantalusApi.FileResourceFilename | dbclients/tantalus.py:241-260 | the storage's record, then the prefix-stripped name; ValueError exactly when the path is outside the prefix; the storage cache only grows: every entry it held is kept unchanged |
| Tantalus.TantalusApi.Filepath | dbclients/tantalus.py:262-277 | the storage's record, then the joined path; ValueError exactly for an absolute name or one containing ".."; the storage cache only grows: every entry it held is kept unchanged |
| Tantalus.TantalusApi.AddInstance | dbclients/tantalus.py:470-495 | the result is always live and is the pair's instance; an existing instance keeps its id and only its flag is cleared; an already-live one leaves the store unchanged, so a second call is a no-op; only a missing resource or storage is rejected |
| Tantalus.TantalusApi.LocateFile | dbclients/tantalus.py:360-375 | succeeds exactly when the storage exists, has a client, holds the path under its prefix and holds the file, and then gives the record, the name and the live size and creation time; each failure has its own error: not found for an unknown storage, ValueError for a path outside the prefix, AttributeError for a storage type without a client, and a missing-file error when the storage does not hold it; both caches only grow: every entry they held is kept unchanged |
| Tantalus.TantalusApi.RegisterResource | dbclients/tantalus.py:370-417 | fails with a field mismatch, changing nothing, exactly when the name is taken with other values and update is off; otherwise the resource carries the live values and keeps the id of the record under that name, or is new; when it replaced an older record update was on and the instances are exactly the old ones with every instance of it soft-deleted, otherwise no instance changes; no instance appears or disappears; every other resource and every instance of another resource stays as it was; the resources are exactly the old ones with the returned record set |
| Tantalus.TantalusApi.ReplaceResource | dbclients/tantalus.py:387-417 | every instance of the named resource is soft-deleted, then its size and creation time are set to the live values; nothing else changes |
| Tantalus.TantalusApi.AddFile | dbclients/tantalus.py:333-421 | succeeds exactly when the storage exists and has a client, the path lies under its prefix, the storage holds the file, and either update is on or the name is free or taken with the live size and creation time; every failure leaves the store unchanged; on success the resource has the live size and creation time, and its instance on the target storage is live; the new instance map is exactly the old one, with every instance of the resource soft-deleted when an older record was replaced (update on), and then the target storage's instance set; every other resource stays as it was, and when nothing was replaced the resource's copies on other storages are untouched; each failure of the lookups has its own error, as for `LocateFile`, and a failure after the file is located is the field mismatch; the resources are exactly the old ones with the returned record set; both caches only grow: every entry they held is kept unchanged |
| Tantalus.TantalusApi.RegisterFile | dbclients/tantalus.py:370-421 | after the file is located: a field mismatch exactly when the name is taken with other values and update is off, changing nothing; otherwise the resource with the live values and its live instance on the storage, with the exact new instance map, and every other resource and every instance of another resource as it was; the resources are exactly the old ones with the returned record set |
| Tantalus.TantalusApi.UpdateFile | dbclients/tantalus.py:423-445 | the resource takes the storage's live size and creation time; only the view's resource field changes and the instance keeps its id; afterwards the size check passes; both caches only grow: every entry they held is kept unchanged |
| Tantalus.TantalusApi.CheckFile | dbclients/tantalus.py:447-468 | only the client caches change; the outcome is the three-way check against the storage; not found for an unknown storage name, and an AttributeError for a storage type without a client; no other error; both caches only grow: every entry they held is kept unchanged |
| Tantalus.TantalusApi.GetInstance | datamanagement/check_integrity.py:72 | not found exactly when the pair has no instance; otherwise that instance with its resource and storage records |
| Tantalus.TantalusApi.SetInstanceDeleted | datamanagement/check_integrity.py:108-112 | the store's `update` of the deleted flag, applied to the client's store |
| CheckIntegrity.Keep | dbclients/tantalus.py:573 | the records that pass the extra filters, and no others |
| CheckIntegrity.DatasetFileResourcesAsWritten | dbclients/tantalus.py:557-581 | an unknown model is a ValueError; for a known model the call succeeds exactly when a filters mapping is passed |
| CheckIntegrity.DatasetFileResources | dbclients/tantalus.py:557-581 | fails exactly for an unknown dataset model; without filters it yields all of the dataset's resources; with filters, exactly those that pass |
| CheckIntegrity.DatasetFileResourcesFixesDefault | dbclients/tantalus.py:534-535 | with filters both versions agree; without filters the written one raises and the corrected one lists every resource |
| CheckIntegrity.Selected | datamanagement/check_integrity.py:20-30 | exactly the listed datasets of the type that match the id or tag, or all of them, at most as many as listed |
| CheckIntegrity.Flatten | datamanagement/check_integrity.py:32-37 | a resource is yielded exactly when it belongs to one of the datasets |
| CheckIntegrity.Selection | datamanagement/check_integrity.py:13-37 | with each dataset listed by the corrected `get_dataset_file_resources` of Findings row 1: fails exactly when the type is missing, both id and tag are given, or a dataset is selected under an unknown model; otherwise yields exactly the resources of the matching datasets |
| CheckIntegrity.DatasetFileInstances | datamanagement/check_integrity.py:13-37 | the validation, then nested loops that yield each selected dataset's resources in order, listed by the corrected `get_dataset_file_resources` of Findings row 1, proved equal to `Selection` |
| CheckIntegrity.Step | datamanagement/check_integrity.py:70-112 | skips a resource with no instance or a deleted one; errors only for a live instance on a storage without a client; the store changes exactly when a repair is due and switched on outside a dry run; a resync sets the live size and creation time, a removal sets only the flag |
| CheckIntegrity.StepSettles | datamanagement/check_integrity.py:80-112 | after its own step a resource is left alone: a resynced file now passes, a removed one is skipped |
| CheckIntegrity.StepKeepsOtherRecords | datamanagement/check_integrity.py:96-112 | a step leaves every other resource's record and its instance on the storage as they were |
| CheckIntegrity.StepKeepsOtherSettled | datamanagement/check_integrity.py:70-112 | a step on one resource does not unsettle another |
| CheckIntegrity.StepKeepsPairs | datamanagement/check_integrity.py:70-112 | no (resource, storage) instance appears or disappears in a step |
| CheckIntegrity.SweepFrom | datamanagement/check_integrity.py:70-112 | the sweep keeps the store's constraints and never changes storages |
| CheckIntegrity.DryRunChangesNothing | datamanagement/check_integrity.py:100-107 | with `dry_run` the sweep changes nothing |
| CheckIntegrity.NoRepairFlagsChangeNothing | datamanagement/check_integrity.py:96-107 | without `fix_corrupt` and `remove_missing` the sweep changes nothing |
| CheckIntegrity.SweepStopsOnlyWithoutClient | datamanagement/check_integrity.py:85-94 | check failures never stop the sweep; it stops only when it meets an instance on a storage type without a client |
| CheckIntegrity.SweepKeepsSettled | datamanagement/check_integrity.py:70-112 | a settled resource stays settled through the rest of a sweep |
| CheckIntegrity.SweepSettlesAll | datamanagement/check_integrity.py:70-112 | a completed sweep leaves every resource it visited settled |
| CheckIntegrity.SweepOfSettledChangesNothing | datamanagement/check_integrity.py:70-112 | sweeping settled resources changes nothing and does not stop |
| CheckIntegrity.SweepIdempotent | datamanagement/check_integrity.py:80-112 | running the same sweep again after it completed changes nothing |
| CheckIntegrity.StepAsWritten | datamanagement/check_integrity.py:85-101 | as written, a step never changes an instance, so it never soft-deletes; it changes the store only under `fix_corrupt` outside a dry run, for a resource whose size differs, and then exactly by resyncing it to the live size and creation time; it fails only for a storage without a client or for an absent file under `fix_corrupt` |
| CheckIntegrity.MissingFileNeverRemovedAsWritten | dbclients/tantalus.py:460-462 | as written, a missing live file is never soft-deleted, and with `fix_corrupt` it stops the sweep; the corrected step deletes it |
| CheckIntegrity.CheckResource | datamanagement/check_integrity.py:71-112 | one iteration through the client's calls does exactly what `Step` says |
| CheckIntegrity.Sweep | datamanagement/check_integrity.py:70-112 | the loop over the client does exactly what `SweepFrom` says |
| CheckIntegrity.CheckStorage | datamanagement/check_integrity.py:59-112 | every resource on the storage, or the dataset selection over the corrected `get_dataset_file_resources` of Findings row 1, followed by the sweep; a selection error stops before any change |
| TantalusUtils.FlowcellLane | workflows/utils/tantalus_utils.py:21-25 | the flowcell id alone exactly when the lane number is empty; otherwise the flowcell id, `_`, then the lane number |
| TantalusUtils.LaneSet | workflows/utils/tantalus_utils.py:37-40 | a dataset has no more distinct lane ids than lanes; `LaneSetHasEveryLane` and `LaneSetOnlyLaneIds` pin down its contents |
| TantalusUtils.LaneSetHasEveryLane | workflows/utils/tantalus_utils.py:37-40 | the id of every lane of the dataset is among its lane ids |
| TantalusUtils.LaneSetOnlyLaneIds | workflows/utils/tantalus_utils.py:37-40 | every lane id of the dataset is the id of one of its lanes |
| TantalusUtils.LanesFromDataset | workflows/utils/tantalus_utils.py:28-40 | the loop builds exactly the set of lane ids |
| TantalusUtils.SequenceDatasetMatchLanes | workflows/utils/tantalus_utils.py:13-18 | true when no lane ids are requested; otherwise true exactly when every requested id is a lane of the dataset and every lane is requested |
| TantalusUtils.LanesMatchIgnoresOrder | workflows/utils/tantalus_utils.py:18 | order and repetition in the requested ids do not matter |
| TantalusUtils.SoleValue | workflows/utils/tantalus_utils.py:53-61 | succeeds exactly when there is one distinct value, and returns it; otherwise the error carries the number of values |
| TantalusUtils.SequencingCentre | workflows/utils/tantalus_utils.py:43-61 | a centre found is one of the lanes' centres, and the only error is `NotExactlyOne` carrying the number of distinct centres; `SequencingCentreShared` gives the exact condition |
| TantalusUtils.SequencingInstrument | workflows/utils/tantalus_utils.py:64-82 | an instrument found is one of the lanes' instruments, and the only error is `NotExactlyOne` carrying the number of distinct instruments; `SequencingInstrumentShared` gives the exact condition |
| TantalusUtils.SequencingCentreShared | workflows/utils/tantalus_utils.py:43-61 | a centre is found exactly when the dataset has lanes that all name one centre, and then it is every lane's centre |
| TantalusUtils.SequencingInstrumentShared | workflows/utils/tantalus_utils.py:64-82 | the same rule for instruments |
| TantalusUtils.MatchesLaneIdRe | workflows/templates.py:35 | an accepted id ends with a digit, or with a digit and one line break; `MatchesLaneIdReIsShape` gives the exact set |
| TantalusUtils.MatchesLaneIdReIsShape | workflows/templates.py:35 | the test accepts exactly the strings that `re.match` of `^.*_\d$` accepts: text without a line break, `_`, one digit, then the end or one final line break |
| TantalusUtils.CheckGscLaneId | workflows/utils/tantalus_utils.py:8-10 | a rejected id fails with the invalid-GSC-lane error naming it |
| TantalusUtils.CheckGscLaneIdAccepts | workflows/utils/tantalus_utils.py:8-10 | accepts exactly the lane ids of that shape |
| TantalusUtils.FlowcellLaneIsGscLaneId | workflows/utils/tantalus_utils.py:21-25 | a lane id from a flowcell id without line breaks and a one-digit lane number passes the GSC check |

## Left out

- Azure Blob Storage and Key Vault:
  - Credential lookup, `BlockBlobService` construction, SAS URLs, `urlopen`, listing, deletion and writing blobs are left out.
  - A storage is its listing of file names with size and creation time.
- `ServerStorageClient` file-system operations and the timezone formatting of creation times are left out. A creation time is an opaque value that is only compared.
- `BasicAPIClient`:
  - Its HTTP transport, authentication and its `list` loop are not part of this model.
  - `get`, `get_or_create` and `update` are modelled by the answers the client relies on.
  - Pagination is modelled as the two parameter helpers, `PagesFrom` over the offsets they produce, and the tiling lemmas. The list loop is taken to stop once the offset passes the last record.
- `TantalusApi.tag`, `get_cache_client` and `TantalusApi.get_dataset_file_instances` are left out. They are a raw POST, a one-line constructor and a list-and-search combination of modelled calls.
- `get_storage_type` (workflows/utils/tantalus_utils.py:85-96) is left out: it is a one-line network lookup.
- Command-line parsing and logging of `check_integrity` are left out. The switches are a `Flags` value, and the storage's listing is a parameter.
- `workflows/models.py` is not part of this model.
- `datamanagement/templates.py`, which `tantalus_utils` imports, is not part of this model. `LANE_ID_RE` is taken from workflows/templates.py:35.
- Generators:
  - `get_dataset_file_instances` is a generator, and the sweep consumes it as it goes.
  - The model computes the whole selection first.
  - This changes nothing observable, because the selection can fail only before its first dataset yields.
- Storage references:
  - Instances refer to their storage by name, which the store keeps unique.
  - The source passes the storage's numeric id to `get_or_create`.
- Partial failure:
  - A failure of the store or the network halfway through `add_file` or the sweep is not modelled.
  - Only the error conditions the client itself raises are modelled.
- CheckIntegrity.Keep: the server-side meaning of extra `filters` keywords is a predicate on resources, not the query language of the store.
- TantalusUtils.MatchesLaneIdRe: `\d` is read as the ASCII digits 0-9, whereas Python 3 also accepts other Unicode decimal digits.
- Tantalus.TantalusApi.UpdateFile returns an updated copy of the instance view rather than overwriting `file_instance['file_resource']` in the caller's dictionary (dbclients/tantalus.py:443). The in-place overwrite and its aliasing are not modelled; nothing in the modelled code reads that dictionary afterwards.
- Tantalus.IsSequenceDatasetOnStorage takes the dataset's resources as the store lists them, rather than issuing the list call.

## Findings

| source | as written | input that shows it | evidently intended | confidence | as-written member | corrected member |
|---|---|---|---|---|---|---|
| dbclients/tantalus.py:557-581 | `filters` defaults to `None` and is passed on as `**filters` | `get_dataset_file_resources(id, 'sequencedataset')` with no filters, as datamanagement/check_integrity.py:36 calls it, is a TypeError, so every dataset selection of the sweep fails | read a missing `filters` as no filter, as `get_dataset_file_instances` does at dbclients/tantalus.py:534-535 | high, not executed | CheckIntegrity.DatasetFileResourcesAsWritten | CheckIntegrity.DatasetFileResources |
| dbclients/tantalus.py:460-462 | a missing file raises `DataCorruptionError`, the same class as a size mismatch, and `DataMissingError`, imported by datamanagement/check_integrity.py:4, is not defined | as written, `from dbclients.tantalus import ... DataMissingError` raises `ImportError`, so the sweep module never loads; `StepAsWritten` models the sweep as if the name resolved but `check_file` never raised it, and then a live instance whose file the storage no longer holds is never soft-deleted under `remove_missing`, while under `fix_corrupt` the sweep calls `update_file`, whose stat of the absent file raises and stops the sweep | define `DataMissingError` and raise it for a missing file, so that `remove_missing` soft-deletes it | high, not executed | CheckIntegrity.MissingFileNeverRemovedAsWritten | CheckIntegrity.Step |
