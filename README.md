# ert core, modelled in Dafny

This project models three parts of ert:

- **The ert3 ensemble-record storage client** (`ert3/storage/_storage.py`). This client keeps experiments, their ensembles and their numerical records in a remote storage service:
  - The service is an abstract store. It holds experiments by name and ensembles by id.
  - For each (ensemble, record, realization) it holds one one-row CSV matrix and one metadata document.
  - Every request the client sends is written to a log, together with the endpoint and token it was sent with.
  - A fault oracle can replace the service's answer to any request with a status code of its own.
  - Each operation appears twice. It is a specification function from the service's state to a `Run`: the new state, plus either a result or the exception raised. It is also a method on a `Connection`, proved to end in that `Run`.
  - Lemmas state what the client guarantees: which requests it sends and in what order, that reads change nothing, that a record written and then read back comes back unchanged, and which exception each refused request raises at each step of the write and read loops.
- **The ert3 distributions** (`ert3/stats/_stats.py`):
  - the rule that exactly one of a size and an index is given;
  - the index that follows from either one;
  - the record that a drawn array becomes.

  The scipy samplers and quantile functions are parameters.
- **The libres forward-model job descriptor** (`libres/lib/job_queue/ext_job.cpp`). `ExtJob` is a class whose fields the setters update in place. The model covers:
  - allocation, copying and the guarded setters;
  - argument resolution;
  - the choice of executable;
  - the filtered environment hashes;
  - the python/JSON fragments and document that `ext_job_json_fprintf` writes to a `Stream`;
  - the entries `ext_job_save` writes;
  - how `ext_job_fscanf_alloc` turns a parsed configuration into a job, or into no job.

Modules:

| Module | File | Contents |
|---|---|---|
| `Wrappers` | `wrappers.dfy` | Option/Result |
| `Text` | `text.dfy` | decimal text of ints: Python `str`/`int`, C `%d`/`util_sscanf_int` |
| `Records` | `records.dfy` | records, the one-row table codec, `_get_record_type`, exceptions |
| `Service` | `remote.dfy` | the service and the transport |
| `Storage` | `storage.dfy` | the client operations |
| `StorageProperties` | `storage_props.dfy` | what the client guarantees |
| `Stats` | `stats.dfy` | distributions |
| `ExtJobs` | `ext_job.dfy` | the job state and the `ExtJob` class |
| `ExtJobEmit` | `ext_job_emit.dfy` | output |
| `ExtJobConfig` | `ext_job_config.dfy` | loading from a configuration |

A NULL `char *` is `None`, a libres hash is a `map`, and the iteration order of a hash is an explicit parameter that lists its keys once each.

## Model

| member | source | states |
|---|---|---|
| Text.NatToString | libres/lib/job_queue/ext_job.cpp:748 | a non-negative int prints as a non-empty run of digits with no leading zero |
| Text.NatToStringValue | ert3/storage/_storage.py:264 | the digits printed for n read back as n |
| Text.IntToStringRoundTrip | ert3/storage/_storage.py:264 | int() of str(i) gives back i, negative numbers included |
| Text.IntToStringInjective | ert3/storage/_storage.py:226 | distinct ints print as distinct labels, so int-keyed records keep distinct columns |
| Records.DictSet | ert3/storage/_storage.py:265-275 | assigning d[k] = v to an existing key keeps the key's place and takes the new value, and every other key keeps its value; a new key goes last; the keys stay distinct |
| Records.DictOfZip | ert3/storage/_storage.py:265-275 | a dict built by a comprehension over zip, with duplicate keys allowed, is a valid dict |
| Records.DictOfDistinctZip | ert3/storage/_storage.py:265-275 | with distinct keys, the comprehension over zip keeps the first n pairs in order |
| Records.DictFromDistinctPairs | ert3/storage/_storage.py:265-275 | with distinct keys, {k: v for k, v in zip(keys, values)} is exactly the pairs in order |
| Records.Range | ert3/storage/_storage.py:226 | the default index 0..n-1 |
| Records.IntLabels | ert3/storage/_storage.py:226 | each column label is the decimal text of its int key |
| Records.Encode | ert3/storage/_storage.py:226-230 | a record becomes one row labelled with the realization index, holding its values in index order, with one column per value for a well-formed record |
| Records.ParseLabels | ert3/storage/_storage.py:264 | the labels parse iff every label reads as an int, and then the result holds their values in order |
| Records.Decode | ert3/storage/_storage.py:250-276 | success only for the asked kind and a well-formed record; ValueError iff the kind has int labels and one does not parse, checked before the row; KeyError iff there is a column, the realization's row is missing and (for int labels) every label parses; every kind is rebuilt from the row and the columns, int labels read as their values |
| Records.ParseIntLabels | ert3/storage/_storage.py:264 | printing int keys as labels and parsing them back gives the keys |
| Records.EncodeDecodeRoundTrip | ert3/storage/_storage.py:226-276 | decoding the table written for a well-formed record, with its own kind and realization, gives the record back |
| Records.RecordTypeOf | ert3/storage/_storage.py:195-201 | succeeds iff the list is non-empty and all records have one kind, which is then the result and the kind of every record; an empty list is an IndexError; mixed kinds are ValueError("Inconsistent record type") |
| Records.GetRecordType | ert3/storage/_storage.py:195-201 | the loop returns the same result as RecordTypeOf |
| Service.Attach | ert3/storage/_storage.py:173-180 | creating an ensemble attaches its id to its experiment alone; names, ids and the other experiments are unchanged |
| Service.Without | ert3/storage/_storage.py:398-408 | deleting an experiment leaves exactly the experiments with another id |
| Service.AddName | ert3/storage/_storage.py:363-378 | a written record name is listed afterwards, and every name already listed stays listed |
| Service.Serve | ert3/storage/_storage.py:225-247 | every GET leaves the store unchanged; a refused request changes nothing; a matrix POST that succeeds fills a slot that was empty; a matrix POST to a filled slot of an existing ensemble is refused with 409, and one to an unknown ensemble with 404 |
| Service.Exchange | ert3/storage/_storage.py:42-112 | each request is appended to the log with its endpoint; an injected non-200 status answers with no body and no effect; otherwise the service answers |
| Service.Connection.constructor | ert3/storage/_storage.py:15-16 | the module globals start unset |
| Service.Connection.AssertServerInfo | ert3/storage/_storage.py:33-39 | url and token are read from the server info once, and only while the url is unset |
| Service.Connection.Send | ert3/storage/_storage.py:42-112 | the server info is set first; the request goes to the session's endpoint, which does not change, and the remote and the response are as Exchange says |
| Storage.FindByName | ert3/storage/_storage.py:115-120 | an experiment is found iff one has the name; when several do, the last one wins, as in a dict comprehension |
| Storage.GetExperimentByName | ert3/storage/_storage.py:115-120 | a non-200 listing raises StorageError; otherwise the result is the experiment of that name or None; the state afterwards is LookupSpec's |
| Storage.CreateExperiment | ert3/storage/_storage.py:156-182 | the requests, new state and result are CreateExperimentSpec's |
| Storage.InitExperiment | ert3/storage/_storage.py:138-153 | a size <= 0 is refused before any request; otherwise it creates the experiment as CreateExperimentSpec does |
| Storage.Init | ert3/storage/_storage.py:123-135 | the requests, new state and result are InitSpec's: it refuses a workspace whose reserved experiment exists, and otherwise creates it |
| Storage.GetExperimentNames | ert3/storage/_storage.py:185-192 | the requests, new state and result are ExperimentNamesSpec's |
| Storage.AddNumericalData | ert3/storage/_storage.py:204-247 | the requests, new state and result are AddNumericalDataSpec's: the lookup, the record-type check, then the write loop |
| Storage.WriteRecords | ert3/storage/_storage.py:225-247 | the write loop from realization 0 ends as WriteFromSpec says |
| Storage.GetNumericalMetadata | ert3/storage/_storage.py:283-297 | the requests, new state and result are MetadataSpec's |
| Storage.GetNumericalData | ert3/storage/_storage.py:300-335 | the requests, new state and result are GetNumericalDataSpec's: the lookup, the metadata, then one read per realization |
| Storage.AddEnsembleRecord | ert3/storage/_storage.py:338-348 | it adds the records to the ensemble of the named experiment, or of the workspace's reserved experiment when no name is given |
| Storage.GetEnsembleRecord | ert3/storage/_storage.py:351-360 | it reads from the same target experiment as AddEnsembleRecord |
| Storage.GetEnsembleNames | ert3/storage/_storage.py:363-395 | the requests, new state and result are EnsembleNamesSpec's: an unknown experiment raises NonExistantExperiment; a non-200 answer raises StorageError |
| Storage.GetEnsembleRecordNames | ert3/storage/_storage.py:363-378 | ends as EnsembleNamesSpec with record names says: NonExistantExperiment for an unknown target, IndexError for one without ensembles, StorageError for a non-200 answer, else the names listed (see EnsembleNamesServed and RecordNameListedAfterAdd) |
| Storage.GetExperimentParameters | ert3/storage/_storage.py:381-395 | ends as EnsembleNamesSpec with parameter names says, with the same error cases (see EnsembleNamesServed and ParametersAfterCreate) |
| Storage.DeleteExperiment | ert3/storage/_storage.py:398-408 | the requests, new state and result are DeleteExperimentSpec's |
| StorageProperties.Stamp | ert3/storage/_storage.py:42-112 | requests sent to one endpoint are logged one by one, in order |
| StorageProperties.ServesAsWritten | ert3/storage/_storage.py:42-112 | with no faults injected, an exchange is the service's own answer plus one log entry |
| StorageProperties.WriteFromTrace | ert3/storage/_storage.py:225-247 | a successful write sends exactly a matrix POST and then a userdata PUT per realization, in order; a failed one stops after a non-empty prefix of that plan and raises ElementExistsError or a StorageError with a non-200 status |
| StorageProperties.WriteStep | ert3/storage/_storage.py:231-247 | at each realization: a 409 on the matrix POST raises ElementExistsError; any other non-200 POST raises StorageError with its status; a non-200 metadata PUT raises StorageError with the PUT's status; when both succeed the loop goes on |
| StorageProperties.WriteFromStore | ert3/storage/_storage.py:225-247 | experiments are unchanged; no ensemble disappears; matrices stored before the loop are never overwritten; metadata is only overwritten with this loop's own; on success every slot holds the encoded record and the metadata |
| StorageProperties.WriteFromKept | ert3/storage/_storage.py:231-247 | a failed write rolls nothing back: it fails iff it stops before the last realization, and every realization completed before that keeps its matrix and metadata |
| StorageProperties.WriteFromNames | ert3/storage/_storage.py:231-238 | the write loop never drops a listed record name, and after it succeeds the ensemble lists the record's name |
| StorageProperties.ReadStep | ert3/storage/_storage.py:312-333 | at each realization: a 404 raises ElementMissingError; any other non-200 raises StorageError with its status; a matrix that does not decode raises the decoder's exception; a decoded record is appended and the loop goes on |
| StorageProperties.ReadFromKeepsStore | ert3/storage/_storage.py:312-333 | the read loop leaves the store unchanged |
| StorageProperties.ReadFromSuccessTrace | ert3/storage/_storage.py:312-335 | a successful read loop sends one matrix GET per remaining realization, in order, and returns one record per realization after those already read |
| StorageProperties.ReadFromFailureTrace | ert3/storage/_storage.py:312-335 | a failed read loop stops after a non-empty prefix of its GETs |
| StorageProperties.ReadFromStored | ert3/storage/_storage.py:312-335 | with no faults, and every realization stored and decodable, the loop returns every stored record |
| StorageProperties.AddUnknownExperiment | ert3/storage/_storage.py:209-214 | adding to an unknown experiment raises NonExistantExperiment after the lookup alone |
| StorageProperties.GetUnknownExperiment | ert3/storage/_storage.py:300-307 | reading a record, or listing the record names or parameters, of an unknown experiment raises NonExistantExperiment after the lookup alone, with the store unchanged |
| StorageProperties.AddMixedKinds | ert3/storage/_storage.py:216-220 | records of mixed kinds raise ValueError("Inconsistent record type") after the lookup alone, with nothing written |
| StorageProperties.AddTrace | ert3/storage/_storage.py:204-247 | the add sends the lookup and then the write plan, or a prefix of it |
| StorageProperties.AddWrites | ert3/storage/_storage.py:204-247 | a successful add found the experiment and a single record kind, and wrote exactly what the write loop writes |
| StorageProperties.LookupSameList | ert3/storage/_storage.py:115-120 | the lookup only reads the experiment list: two stores with the same list give the same result, and the store is left unchanged |
| StorageProperties.GetReads | ert3/storage/_storage.py:300-313 | once the lookup and the metadata succeed, the get is the read loop from realization 0 with that metadata |
| StorageProperties.MetadataStored | ert3/storage/_storage.py:283-297 | with no faults, the metadata read back is the metadata stored for realization 0, and the store is unchanged |
| StorageProperties.ReadAfterWrite | ert3/storage/_storage.py:204-335 | with no faults, reading back a successful add returns the same records, in order, and leaves the store unchanged |
| StorageProperties.WriteTwiceConflicts | ert3/storage/_storage.py:233-235 | a second add of the same record raises ElementExistsError and leaves the store unchanged |
| StorageProperties.MetadataFromRealizationZero | ert3/storage/_storage.py:283-297 | the metadata is a single GET of realization 0 that changes nothing; a 404 raises ElementMissingError, any other non-200 StorageError with its status; a 200 gives the metadata in the body |
| StorageProperties.GetTrace | ert3/storage/_storage.py:300-335 | a get sends the lookup, the metadata GET and then matrix GETs for 0..size-1; it leaves the store unchanged and returns size records |
| StorageProperties.InitExperimentRejectsSize | ert3/storage/_storage.py:145-146 | a size <= 0 raises ValueError before any request |
| StorageProperties.CreateExperimentRejects | ert3/storage/_storage.py:163-169 | an empty name, or a name in use, is refused before either POST |
| StorageProperties.PostExperimentServed | ert3/storage/_storage.py:171-172 | without faults, the experiment POST appends the experiment, with no ensembles, under the next id, and answers with that id |
| StorageProperties.PostEnsembleServed | ert3/storage/_storage.py:173-180 | without faults, the ensemble POST creates one ensemble of the given size and parameters and attaches it |
| StorageProperties.PostExperimentStore | ert3/storage/_storage.py:171-182 | the two POSTs leave the experiment in the store under its name |
| StorageProperties.CreateExperimentPosts | ert3/storage/_storage.py:163-182 | a create with a fresh name sends the lookup, the experiment POST and the ensemble POST, in that order |
| StorageProperties.CreateExperimentCreates | ert3/storage/_storage.py:156-182 | after a successful create, the name is in the store with one ensemble of the given size and parameters and no record names |
| StorageProperties.AttachedLast | ert3/storage/_storage.py:173-180 | the ensemble just created is the experiment's last ensemble |
| StorageProperties.ReservedNameHidden | ert3/storage/_storage.py:185-192 | the workspace's reserved experiment name is never listed |
| StorageProperties.ExperimentNamesHidesReserved | ert3/storage/_storage.py:185-192 | a name is listed iff it is in the store and is not the reserved name |
| StorageProperties.InitRejectsInitialized | ert3/storage/_storage.py:127-129 | initializing a workspace whose reserved experiment exists raises ValueError("Storage already initialized") |
| StorageProperties.InitTwiceRejected | ert3/storage/_storage.py:123-135 | with no faults, after a successful init a second init of the same workspace raises ValueError("Storage already initialized") |
| StorageProperties.DefaultTarget | ert3/storage/_storage.py:345-346 | with no experiment name the target is `<workspace>.__ensemble_records__`; a given name is used as it is |
| StorageProperties.DeleteTwice | ert3/storage/_storage.py:398-408 | with no faults, deleting the only experiment of a name succeeds, and a second delete of that name raises NonExistantExperiment |
| StorageProperties.EnsembleNamesServed | ert3/storage/_storage.py:363-395 | with no faults, the record names or parameters listed are those the store keeps for the experiment's first ensemble; an ensemble it does not have gives StorageError(404); the store is unchanged |
| StorageProperties.RecordNameListedAfterAdd | ert3/storage/_storage.py:204-247 | with no faults, after a successful add the record names of the experiment include the new record's name and every name listed before |
| StorageProperties.ParametersAfterCreate | ert3/storage/_storage.py:156-182 | with no faults, after a successful create the experiment's parameters are the ones it was created with, and it lists no record names |
| Stats.RangeOf | ert3/stats/_stats.py:28 | tuple(range(n)) holds 0..n-1 in order, and is empty for n <= 0 |
| Stats.NewDistribution | ert3/stats/_stats.py:10-35 | succeeds iff exactly one of size and index is given, with the two messages otherwise; with a size, records are arrays and the index is range(size); with an index, the size is its length, the index keeps its order and records are mappings |
| Stats.Index | ert3/stats/_stats.py:37-39 | for a distribution as the constructor leaves it, the index has one entry per value of a non-negative size, and in array mode it is 0 .. size - 1 |
| Stats.ToRecord | ert3/stats/_stats.py:41-47 | in array mode the array itself; otherwise a well-formed mapping of the kind the index calls for |
| Stats.Sample | ert3/stats/_stats.py:49-50 | in array mode the raw draw at the distribution's size; in mapping mode, with a distinct index and one drawn value per entry, index[i] maps to the i-th drawn value |
| Stats.Ppf | ert3/stats/_stats.py:52-55 | fails iff the size is negative, with numpy's negative-dimensions ValueError; otherwise the raw quantiles of size copies of x, as an array or, with a distinct index, as the mapping from index[i] to the i-th quantile |
| Stats.Full | ert3/stats/_stats.py:53 | np.full(n, x) is n copies of x |
| Stats.ToRecordMapping | ert3/stats/_stats.py:41-47 | with a distinct index, the mapping is exactly index[i] to x[i], in index order |
| Stats.SampleHasSize | ert3/stats/_stats.py:49-50 | a sample has one value per index entry, and in size mode it is the raw draw itself |
| Stats.PpfHasSize | ert3/stats/_stats.py:52-55 | ppf succeeds for a non-negative size and has one value per index entry |
| Stats.NewGaussian | ert3/stats/_stats.py:58-91 | succeeds iff exactly one of size and index is given, else ValueError with the neither or both message; the base takes the size, mode and index the base constructor derives; mean and std return the arguments; samples come from the normal sampler with (mean, std) and the distribution's size; ppf of x is the normal quantile function at (mean, std) of size copies of x |
| Stats.Mean | ert3/stats/_stats.py:85-87 | the stored mean, which NewGaussian's contract shows is its mean argument and the location of its sampler and quantile function |
| Stats.Std | ert3/stats/_stats.py:89-91 | the stored deviation, which NewGaussian's contract shows is its std argument and the scale of its sampler and quantile function |
| Stats.NewUniform | ert3/stats/_stats.py:94-132 | succeeds iff exactly one of size and index is given, else ValueError with the neither or both message; the base takes the size, mode and index the base constructor derives; the bounds are returned as given and scale is upper minus lower; samples come from the uniform sampler at (lower, scale) with the distribution's own size; ppf of x is the uniform quantile function at (lower, scale) of size copies of x |
| Stats.LowerBound | ert3/stats/_stats.py:126-128 | the stored lower bound, which NewUniform's contract shows is its argument and the location of its sampler and quantile function |
| Stats.UpperBound | ert3/stats/_stats.py:130-132 | the stored upper bound, which NewUniform's contract shows is its argument and the bound its scale is measured to |
| ExtJobs.TypeNameRoundTrip | libres/lib/job_queue/ext_job.cpp:804-816 | the six argument type names and their config types convert into each other; every other type has no name |
| ExtJobs.ResolveArgs | libres/lib/job_queue/ext_job.cpp:1140-1153 | one resolved value per argument, in order |
| ExtJobs.FreshDefaults | libres/lib/job_queue/ext_job.cpp:157-209 | a fresh job is valid, has limits 0/0/-1/-1, no executable, std files or license path, string-typed arguments, and the default help text |
| ExtJobs.CopyKeepsSettings | libres/lib/job_queue/ext_job.cpp:233-305 | a copy is private and valid, has an empty argv and no define args, and keeps the hashes, deprecated argv, help text, stdout, license path, max_running and argument types |
| ExtJobs.StdFilesGuarded | libres/lib/job_queue/ext_job.cpp:531-543 | STDOUT/STDERR "null" keeps the field; anything else replaces it; no other field changes |
| ExtJobs.MaxRunningLicense | libres/lib/job_queue/ext_job.cpp:549-553 | max_running is always stored; a license path `<root>/<name>` is created only for a positive value, and only when none is set |
| ExtJobs.ArgTypeNameEffect | libres/lib/job_queue/ext_job.cpp:946-950 | an unknown type name changes nothing; a known one sets the type at its index and leaves every other index alone |
| ExtJobs.ExecutableCases | libres/lib/job_queue/ext_job.cpp:405-463 | an existing file becomes its realpath, and the job is valid only if it is executable; a missing absolute path invalidates the job; a relative name is kept as given without path search; with path search, a name not found on PATH invalidates the job, and one found is taken like an existing file |
| ExtJobs.ExecutableSpec | libres/lib/job_queue/ext_job.cpp:405-463 | setting the executable never makes a job valid; a job stays valid only with an executable file found, or with the raw relative name when PATH is not searched |
| ExtJobs.CopyHash | libres/lib/job_queue/ext_job.cpp:257-296 | copying a hash entry by entry gives the same hash |
| ExtJobs.ExtJob.Alloc | libres/lib/job_queue/ext_job.cpp:157-229 | the new job is in the fresh state for its name, license root and privacy |
| ExtJobs.ExtJob.Copy | libres/lib/job_queue/ext_job.cpp:233-305 | the new job is the copy of the source's state |
| ExtJobs.ExtJob.HelpText | libres/lib/job_queue/ext_job.cpp:204-209 | the help text if one was set, else the fixed default |
| ExtJobs.ExtJob.SetHelpText | libres/lib/job_queue/ext_job.cpp:212-214 | only the help text changes |
| ExtJobs.ExtJob.FreeDeprecatedArgv | libres/lib/job_queue/ext_job.cpp:197-202 | only the deprecated argv changes, to none |
| ExtJobs.ExtJob.SetArgs | libres/lib/job_queue/ext_job.cpp:476-478 | only argv changes |
| ExtJobs.ExtJob.SetConfigFile | libres/lib/job_queue/ext_job.cpp:480-482 | only the config file changes |
| ExtJobs.ExtJob.SetTargetFile | libres/lib/job_queue/ext_job.cpp:488-490 | only the target file changes |
| ExtJobs.ExtJob.SetErrorFile | libres/lib/job_queue/ext_job.cpp:496-498 | only the error file changes |
| ExtJobs.ExtJob.SetStartFile | libres/lib/job_queue/ext_job.cpp:508-510 | only the start file changes |
| ExtJobs.ExtJob.SetStdinFile | libres/lib/job_queue/ext_job.cpp:523-525 | only the stdin file changes |
| ExtJobs.ExtJob.SetStdoutFile | libres/lib/job_queue/ext_job.cpp:531-534 | stdout is set unless the value is "null" (see StdFilesGuarded) |
| ExtJobs.ExtJob.SetStderrFile | libres/lib/job_queue/ext_job.cpp:540-543 | stderr is set unless the value is "null" (see StdFilesGuarded) |
| ExtJobs.ExtJob.InitLicenseControl | libres/lib/job_queue/ext_job.cpp:353-358 | the license path is created from the root and the name only when it is unset; otherwise nothing changes |
| ExtJobs.ExtJob.SetMaxRunning | libres/lib/job_queue/ext_job.cpp:549-553 | stores max_running and sets up license control for a positive value (see MaxRunningLicense) |
| ExtJobs.ExtJob.SetMaxRunningMinutes | libres/lib/job_queue/ext_job.cpp:559-561 | only max_running_minutes changes (ext_job_set_max_time) |
| ExtJobs.ExtJob.SetMinArg | libres/lib/job_queue/ext_job.cpp:567-569 | only min_arg changes |
| ExtJobs.ExtJob.SetMaxArg | libres/lib/job_queue/ext_job.cpp:571-573 | only max_arg changes |
| ExtJobs.ExtJob.SetPrivateArg | libres/lib/job_queue/ext_job.cpp:585-587 | the pair is appended to the private substitution list; nothing else changes |
| ExtJobs.ExtJob.SetPrivateArgsFromString | libres/lib/job_queue/ext_job.cpp:1165-1168 | the private list becomes the pairs parsed from the string |
| ExtJobs.ExtJob.SetDefineArgs | libres/lib/job_queue/ext_job.cpp:589-591 | the define args become the given list |
| ExtJobs.ExtJob.AddEnvironment | libres/lib/job_queue/ext_job.cpp:593-595 | the environment gains or overwrites one key; nothing else changes |
| ExtJobs.ExtJob.ClearEnvironment | libres/lib/job_queue/ext_job.cpp:598-600 | the environment becomes empty; nothing else changes |
| ExtJobs.ExtJob.IGetArgType | libres/lib/job_queue/ext_job.cpp:941-943 | the recorded type of an argument, STRING when none is recorded |
| ExtJobs.ExtJob.ISetArgTypeString | libres/lib/job_queue/ext_job.cpp:946-950 | fails (the source aborts) iff a known type is set at a negative index; otherwise the state is as ArgTypeNameEffect describes |
| ExtJobs.ExtJob.SetExecutable | libres/lib/job_queue/ext_job.cpp:405-463 | executable and validity follow the case analysis of ExecutableCases; nothing else changes |
| ExtJobs.ExtJob.ArgList | libres/lib/job_queue/ext_job.cpp:1133-1138 | the deprecated ARGLIST when present, else argv |
| ExtJobs.ExtJob.ArgValues | libres/lib/job_queue/ext_job.cpp:1140-1153 | one resolved value per argument of the argument list, in order, substituted with the define args |
| ExtJobs.ExtJob.IsShared | libres/lib/job_queue/ext_job.cpp:1172-1174 | shared iff the job's private flag is off |
| ExtJobs.ExtJob.IsPrivate | libres/lib/job_queue/ext_job.cpp:1176-1178 | private iff the job's private flag, as allocated or copied, is on |
| ExtJobEmit.Stream.Write | libres/lib/job_queue/ext_job.cpp:639 | fprintf appends to the stream's text |
| ExtJobEmit.JoinContains | libres/lib/job_queue/ext_job.cpp:717-731 | every part of a separated list occurs in the joined text |
| ExtJobEmit.FilteredHashEntries | libres/lib/job_queue/ext_job.cpp:659-693 | a key survives iff it is NULL/"null", or its filtered value is not an unreplaced <...>, or angular values are kept; NULL and "null" give a NULL entry, every other entry its filtered value |
| ExtJobEmit.AllocFilteredHash | libres/lib/job_queue/ext_job.cpp:659-693 | the loop builds the same hash as FilteredHash |
| ExtJobEmit.EntryTexts | libres/lib/job_queue/ext_job.cpp:717-731 | one printed entry per key, in iteration order |
| ExtJobEmit.HashBodyLists | libres/lib/job_queue/ext_job.cpp:705-734 | every key of the hash is printed; an empty hash prints the null value |
| ExtJobEmit.HashPrintsEntries | libres/lib/job_queue/ext_job.cpp:697-737 | every entry that survives filtering appears in the printed hash; if none survives, the field is the null value |
| ExtJobEmit.PythonIntReadsBack | libres/lib/job_queue/ext_job.cpp:740-752 | a positive value is printed in decimal and reads back as itself; any other value prints the null value |
| ExtJobEmit.ArgTypeNames | libres/lib/job_queue/ext_job.cpp:803-821 | the names exist iff every one of the n argument types has a name, and then they are those names in order |
| ExtJobEmit.KnownTypesKept | libres/lib/job_queue/ext_job.cpp:946-950 | fresh jobs, copies and type settings keep every argument type nameable, so the type list can always be printed |
| ExtJobEmit.JsonWritten | libres/lib/job_queue/ext_job.cpp:828-864 | the JSON is written iff every argument type has a name, which is always so for a job whose types are known |
| ExtJobEmit.JsonStdoutEntry | libres/lib/job_queue/ext_job.cpp:834-845 | the JSON holds a stdout entry with the filtered, job-indexed stdout name |
| ExtJobEmit.FprintfPythonString | libres/lib/job_queue/ext_job.cpp:631-645 | appends `"id" : "value"` after filtering, or the null value for NULL |
| ExtJobEmit.FprintfHashBody | libres/lib/job_queue/ext_job.cpp:709-733 | appends the hash's entries in iteration order, separated by commas |
| ExtJobEmit.FprintfPythonHash | libres/lib/job_queue/ext_job.cpp:697-737 | appends the filtered hash as a python dict, or the null value when it is empty |
| ExtJobEmit.FprintfPythonInt | libres/lib/job_queue/ext_job.cpp:740-752 | appends the int when it is positive, else the null value |
| ExtJobEmit.FprintfArgValues | libres/lib/job_queue/ext_job.cpp:773-785 | appends the resolved arguments, quoted and comma-separated |
| ExtJobEmit.FprintfPythonArgList | libres/lib/job_queue/ext_job.cpp:758-788 | appends the argList field with the resolved arguments |
| ExtJobEmit.FprintfArgTypeNames | libres/lib/job_queue/ext_job.cpp:803-822 | appends the quoted type names iff all of them exist |
| ExtJobEmit.FprintfPythonArgTypes | libres/lib/job_queue/ext_job.cpp:791-825 | appends the arg_types field iff every type has a name |
| ExtJobEmit.FprintfJsonHead | libres/lib/job_queue/ext_job.cpp:837-843 | appends the opening brace and the name, executable, target_file, error_file and start_file entries, the name substituted with the private args alone |
| ExtJobEmit.FprintfJsonMiddle | libres/lib/job_queue/ext_job.cpp:844-849 | appends the job-indexed stdout and stderr entries, stdin, the argList and the filtered environment and exec_env hashes, in that order |
| ExtJobEmit.FprintfJsonLimits | libres/lib/job_queue/ext_job.cpp:850-853 | appends the license_path entry and the max_running_minutes, max_running and min_arg entries |
| ExtJobEmit.FprintfJsonFront | libres/lib/job_queue/ext_job.cpp:837-853 | appends head, middle and limits, in that order |
| ExtJobEmit.FprintfJsonTail | libres/lib/job_queue/ext_job.cpp:855-860 | succeeds iff every type has a name, and then appends arg_types, the max_arg entry (the last one, with no comma) and the closing brace |
| ExtJobEmit.JsonFprintf | libres/lib/job_queue/ext_job.cpp:828-864 | writes the whole JSON document iff every argument type has a name |
| ExtJobEmit.KeyedLinesMembers | libres/lib/job_queue/ext_job.cpp:893-901 | the saved keyword lines are exactly those of the keys, taken one key at a time |
| ExtJobEmit.EnvLines | libres/lib/job_queue/ext_job.cpp:914-921 | one ENV line per environment key, in iteration order |
| ExtJobEmit.SavedKeysComplete | libres/lib/job_queue/ext_job.cpp:893-901 | every keyword is among those saved |
| ExtJobEmit.SaveLines | libres/lib/job_queue/ext_job.cpp:890-923 | the single-value keyword lines come first and the ENV lines last; the file ends with one ENV line per environment variable, in hash iteration order |
| ExtJobEmit.KeyLinesOf | libres/lib/job_queue/ext_job.cpp:868-881 | a string line carries its field's value; an int line carries its field's non-zero value |
| ExtJobEmit.SavedFromKey | libres/lib/job_queue/ext_job.cpp:890-901 | a keyword line is saved iff its own key produces it |
| ExtJobEmit.SaveStringEntry | libres/lib/job_queue/ext_job.cpp:868-873 | a string keyword is saved, with its value, iff its field is set |
| ExtJobEmit.SaveIntEntry | libres/lib/job_queue/ext_job.cpp:876-881 | an int keyword is saved, with its value, iff the value is not 0 |
| ExtJobEmit.SaveListEntries | libres/lib/job_queue/ext_job.cpp:903-921 | ARGLIST is saved iff the argument list is non-empty; one ENV line per environment entry, with its setting |
| ExtJobConfig.PresentSingle | libres/lib/job_queue/ext_job.cpp:965-980 | for a one-argument keyword that fits the schema, the keyword is present iff a value is read, the value is the first occurrence's, and int-typed values parse |
| ExtJobConfig.SingleValuesRead | libres/lib/job_queue/ext_job.cpp:1014-1027 | every single-valued keyword the loader reads is present iff its value (its int, for int keywords) can be read |
| ExtJobConfig.ArgTypeEntries | libres/lib/job_queue/ext_job.cpp:1029-1034 | one (index, type name) per ARG_TYPE occurrence, in file order, each name one of the allowed types |
| ExtJobConfig.ListsMinArgs | libres/lib/job_queue/ext_job.cpp:974-977 | the schema guarantees at least one argument for ENV, EXEC_ENV and ARGLIST and two for DEFAULT |
| ExtJobConfig.ArgTypesOutcome | libres/lib/job_queue/ext_job.cpp:1029-1034 | the ARG_TYPE loop aborts iff some index is negative; otherwise it keeps the argument types known |
| ExtJobConfig.ArgTypesLastWins | libres/lib/job_queue/ext_job.cpp:1029-1034 | the last ARG_TYPE for an index decides its type |
| ExtJobConfig.EnvKeys | libres/lib/job_queue/ext_job.cpp:1065-1076 | the environment's keys afterwards are the old keys plus every ENV key |
| ExtJobConfig.EnvLastWins | libres/lib/job_queue/ext_job.cpp:1065-1076 | the last ENV line for a key decides its setting, with NULL for a key given alone |
| ExtJobConfig.EnvUntouched | libres/lib/job_queue/ext_job.cpp:1065-1076 | a key no ENV line names keeps its old setting, or stays absent |
| ExtJobConfig.DefaultsLastWins | libres/lib/job_queue/ext_job.cpp:1094-1106 | the last DEFAULT line for a key decides its value |
| ExtJobConfig.DefaultsUntouched | libres/lib/job_queue/ext_job.cpp:1094-1106 | a key no DEFAULT line names keeps its old value, or stays absent |
| ExtJobConfig.LoadOutcome | libres/lib/job_queue/ext_job.cpp:953-1130 | an unreadable or invalid configuration gives no job; loading aborts iff some ARG_TYPE index is negative; without EXECUTABLE or PORTABLE_EXE no job is returned |
| ExtJobConfig.Load | libres/lib/job_queue/ext_job.cpp:953-1130 | anything but NULL comes from a readable, valid configuration, and a returned job is always valid |
| ExtJobConfig.PreparedFrame | libres/lib/job_queue/ext_job.cpp:997-1027 | before the ARG_TYPE loop the job has the name, license root, privacy and configuration file it is loaded with, is valid, and has no executable, argument types, ARGLIST or hash entries yet |
| ExtJobConfig.LoadedSteps | libres/lib/job_queue/ext_job.cpp:997-1106 | a loaded job came from a readable, valid configuration whose ARG_TYPE loop did not abort and changed only argument types, followed by the executable step and the list steps |
| ExtJobConfig.LaterStepsFrame | libres/lib/job_queue/ext_job.cpp:1036-1106 | the executable step and the list keywords change only the executable, validity, the deprecated argv and the three hashes |
| ExtJobConfig.LoadedJob | libres/lib/job_queue/ext_job.cpp:1036-1052 | a loaded job keeps its name, license root, privacy and configuration file and is valid; EXECUTABLE wins over PORTABLE_EXE; the executable is what set_executable makes of the chosen keyword; every argument type has a name, so its JSON can be written |
| ExtJobConfig.LoadedFiles | libres/lib/job_queue/ext_job.cpp:1014-1023 | STDIN, ERROR_FILE, TARGET_FILE and START_FILE are taken as given; STDOUT and STDERR are taken as given, are unset for "null", and default to the job's name with the `.stdout` and `.stderr` suffixes |
| ExtJobConfig.LoadedLimits | libres/lib/job_queue/ext_job.cpp:1024-1027 | MAX_RUNNING, MAX_RUNNING_MINUTES, MIN_ARG and MAX_ARG are taken as given, or are 0, 0, -1 and -1; the license path is `<root>/<name>` iff max_running is positive, and unset otherwise |
| ExtJobConfig.LoadedLists | libres/lib/job_queue/ext_job.cpp:1054-1106 | the deprecated argv is the last ARGLIST line, or unset; ENV, EXEC_ENV and DEFAULT lines are inserted in file order into empty hashes |
| ExtJobConfig.ReadStdoutInto | libres/lib/job_queue/ext_job.cpp:1015-1017 | only stdout changes, to what the STDOUT step gives |
| ExtJobConfig.ReadStderrInto | libres/lib/job_queue/ext_job.cpp:1018-1020 | only stderr changes, to what the STDERR step gives |
| ExtJobConfig.ReadStdFilesInto | libres/lib/job_queue/ext_job.cpp:1014-1020 | the job becomes the ReadStdFiles state |
| ExtJobConfig.ReadOtherFilesInto | libres/lib/job_queue/ext_job.cpp:1021-1023 | the job becomes the ReadOtherFiles state |
| ExtJobConfig.ReadMaxRunningInto | libres/lib/job_queue/ext_job.cpp:1024 | only max_running and the license path change |
| ExtJobConfig.ReadLimitsInto | libres/lib/job_queue/ext_job.cpp:1024-1027 | the job becomes the ReadLimits state |
| ExtJobConfig.ArgTypesStayAborted | libres/lib/job_queue/ext_job.cpp:1029-1034 | once the ARG_TYPE loop has aborted, later entries do not undo it |
| ExtJobConfig.ArgTypesInto | libres/lib/job_queue/ext_job.cpp:1029-1034 | the loop succeeds iff no entry aborts, and then the job holds the types ApplyArgTypes gives |
| ExtJobConfig.ReadExecutable | libres/lib/job_queue/ext_job.cpp:1036-1052 | the job becomes the ApplyExecutable state |
| ExtJobConfig.ReadArgList | libres/lib/job_queue/ext_job.cpp:1054-1062 | with ARGLIST, the deprecated argv becomes the last ARGLIST line; without it, nothing changes |
| ExtJobConfig.InsertSettings | libres/lib/job_queue/ext_job.cpp:1066-1075 | the insertion loop gives EnvApplied |
| ExtJobConfig.InsertDefaults | libres/lib/job_queue/ext_job.cpp:1095-1104 | the insertion loop gives DefaultsApplied |
| ExtJobConfig.ReadEnvInto | libres/lib/job_queue/ext_job.cpp:1065-1076 | only the environment changes, by the ENV lines |
| ExtJobConfig.ReadExecEnvInto | libres/lib/job_queue/ext_job.cpp:1078-1089 | only exec_env changes, by the EXEC_ENV lines |
| ExtJobConfig.ReadDefaultsInto | libres/lib/job_queue/ext_job.cpp:1094-1106 | only the default mapping changes, by the DEFAULT lines |
| ExtJobConfig.ReadListsInto | libres/lib/job_queue/ext_job.cpp:1054-1106 | the job becomes the ReadLists state |
| ExtJobConfig.FscanfAlloc | libres/lib/job_queue/ext_job.cpp:953-1130 | reports an abort exactly when the specification aborts, and returns a job iff the specification loads one; that job is new and its state is the loaded state |

## Left out

- HTTP transport, `ert3.storage.get_info`, request headers and exception message texts: the service is an abstract store, and a response is a status plus a body.
- pandas, pydantic and numpy internals: a record is a tagged variant with ordered keys and opaque floats. CSV serialisation is the one-row `Table`.
- The scipy samplers and quantile functions, and float subtraction: these are function parameters.
- Concurrent clients of the service: one client is modelled.
- Storage.DeleteExperiment: the model does not cascade deletion to the experiment's ensembles and records, since the service's own deletion rules are not part of this model.
- Records.Decode: the final `raise ValueError` of `_response2record` (source lines 277-280) is unreachable, because the record kind is a closed enumeration.
- Records.Decode: pandas' CSV reader always yields a rectangular table. A header and a row of different lengths are modelled as BadResponseBody, checked before anything else.
- Storage.ReservedName: the workspace is a plain string. The `Path` the source formats with f-strings, and the normalisation `pathlib` applies to it, are not modelled.
- ExtJobs.ExtJob.SetPrivateArg: the pair is appended to the list. How `subst_list_append_copy` treats a key already present, and which pair substitution then picks, is not part of this model.
- Text.IntToStringRoundTrip: Python's int() also accepts surrounding whitespace and underscores between digits. The model's ParseInt accepts only an optional sign followed by digits, which covers every label the client writes.
- ExtJobs: C `int` is unbounded here. No 32-bit wrap-around of max_running, min_arg or the limits is modelled.
- ExtJobs: file system queries (existence, executability, realpath, PATH search) are a `FileSystem` parameter. `__update_mode` (chmod) and `util_make_path` are not modelled.
- ExtJobs: `subst_list_alloc_filtered_string` and `subst_list_add_from_string` are function parameters.
- ExtJobs: `ext_job_free` (source lines 308-338) is not modelled, since memory is not modelled.
- ExtJobs: the plain field getters and `ext_job_fprintf` (source lines 930-938) are not modelled.
- ExtJobs: the `argv_string` and `private_args_string` conveniences are not modelled.
- ExtJobs: warnings printed to stderr are not modelled.
- ExtJobEmit: the iteration order of a libres hash is a parameter listing each key once.
- ExtJobEmit: the save file layout (`%16s` padding, `stringlist_fprintf`) is abstracted to one entry per line. The model says which entries ext_job_save writes, not their column widths.
- ExtJobEmit.ArgTypeNames: the NULL `arg_types` branch of `__fprintf_python_arg_types` (source lines 798-801) is not modelled. The vector is always allocated, so that branch is dead.
- ExtJobConfig: the configuration parser itself is not modelled. Its result is a `Content` value: the argument lists of each keyword's occurrences, in file order, plus whether the parser found an error. `config_content_get_value_as_executable` is the `absPath` parameter.
- ExtJobConfig: `FirstOf` and `LastOf` are total and give None for an empty occurrence. The schema excludes that case for every keyword read.
- ExtJobConfig: ARGLIST has no upper bound on its arguments. CONFIG_DEFAULT_ARG_MAX is not modelled.
- ExtJobConfig.InsertDefaults: the inner `i += 2` loop over a DEFAULT line (source lines 1099-1103) takes one pair per line, since the schema allows exactly two arguments.
