/**
 * The ensemble-record storage client (ert3/storage/_storage.py).
 *
 * Every operation is given twice: as a specification function from the
 * service's state to a `Run` (the new state and either a result or the
 * exception raised), and as a method on a `Connection` that issues the
 * same requests one by one and is proved to end in that `Run`.
 */
module Storage {
  import opened Wrappers
  import opened Records
  import opened Service

  const EnsembleRecords := "__ensemble_records__"
  const SpecialKeys: seq<string> := [EnsembleRecords]

  const InitializedMessage := "Storage already initialized"
  const BadSizeMessage := "Ensemble cannot have a size <= 0"
  const NoNameMessage := "Cannot initialize experiment without a name"

  /** f"{workspace}.{key}" */
  function ReservedName(workspace: string, key: string): string {
    workspace + "." + key
  }

  /** The experiment add/get/list use when none is named: the workspace's own record store. */
  function TargetExperiment(workspace: string, experimentName: Option<string>): string {
    if experimentName.None? then ReservedName(workspace, EnsembleRecords) else experimentName.value
  }

  /** The state of the service after an operation, and what the operation returned or raised. */
  datatype Run<T> = Run(remote: Remote, result: Result<T, Error>)

  /** {exp["name"]: exp for exp in experiments}.get(name): a later entry overwrites an earlier one. */
  function FindByName(exps: seq<Experiment>, name: string): (r: Option<Experiment>)
    ensures r.Some? <==> exists i :: 0 <= i < |exps| && exps[i].name == name
    ensures r.Some? ==> r.value.name == name
    ensures r.Some? ==>
      exists i :: 0 <= i < |exps| && exps[i] == r.value && forall j :: i < j < |exps| ==> exps[j].name != name
  {
    if |exps| == 0 then None
    else if exps[|exps| - 1].name == name then Some(exps[|exps| - 1])
    else
      var r := FindByName(exps[..|exps| - 1], name);
      assert forall i :: 0 <= i < |exps| - 1 ==> exps[..|exps| - 1][i] == exps[i];
      r
  }

  function NameSet(exps: seq<Experiment>): set<string> {
    set e | e in exps :: e.name
  }

  function ReservedNames(workspace: string, keys: seq<string>): set<string> {
    set k | k in keys :: ReservedName(workspace, k)
  }

  /** The names listed to the user: every experiment except the workspace's reserved ones. */
  function VisibleNames(exps: seq<Experiment>, workspace: string): set<string> {
    NameSet(exps) - ReservedNames(workspace, SpecialKeys)
  }

  // ---------------------------------------------------------------------
  // Specification functions

  /** _get_experiment_by_name */
  function LookupSpec(env: Env, r: Remote, name: string): Run<Option<Experiment>> {
    var x := Exchange(env, r, GetExperiments);
    if x.response.status != OK then Run(x.remote, Failure(StorageError(x.response.status)))
    else match x.response.body
      case ExperimentList(exps) => Run(x.remote, Success(FindByName(exps, name)))
      case _ => Run(x.remote, Failure(BadResponseBody))
  }

  /** The two POSTs of _init_experiment: the experiment, then its ensemble under the id the service returned. */
  function PostExperimentSpec(env: Env, r: Remote, name: string, parameters: seq<string>, size: int): Run<()> {
    var e := Exchange(env, r, PostExperiment(name));
    match e.response.body
    case Created(id) =>
      var p := Exchange(env, e.remote, PostEnsemble(id, parameters, [], size));
      if p.response.status != OK then Run(p.remote, Failure(StorageError(p.response.status)))
      else Run(p.remote, Success(()))
    case _ => Run(e.remote, Failure(BadResponseBody))
  }

  /** _init_experiment */
  function CreateExperimentSpec(env: Env, r: Remote, name: string, parameters: seq<string>, size: int): Run<()> {
    if name == "" then Run(r, Failure(ValueError(NoNameMessage)))
    else
      var l := LookupSpec(env, r, name);
      if l.result.Failure? then Run(l.remote, Failure(l.result.error))
      else if l.result.value.Some? then Run(l.remote, Failure(ElementExistsError))
      else PostExperimentSpec(env, l.remote, name, parameters, size)
  }

  /** init_experiment */
  function InitExperimentSpec(env: Env, r: Remote, name: string, parameters: seq<string>, size: int): Run<()> {
    if size <= 0 then Run(r, Failure(ValueError(BadSizeMessage)))
    else CreateExperimentSpec(env, r, name, parameters, size)
  }

  /** The loop of init over the special keys from the i-th on, against the names read once. */
  function InitKeysSpec(env: Env, r: Remote, workspace: string, names: set<string>, i: nat): Run<()>
    decreases |SpecialKeys| - i
  {
    if i >= |SpecialKeys| then Run(r, Success(()))
    else
      var key := ReservedName(workspace, SpecialKeys[i]);
      if key in names then Run(r, Failure(ValueError(InitializedMessage)))
      else
        var x := CreateExperimentSpec(env, r, key, [], -1);
        if x.result.Failure? then x else InitKeysSpec(env, x.remote, workspace, names, i + 1)
  }

  /** init: the experiment list is read without a status check. */
  function InitSpec(env: Env, r: Remote, workspace: string): Run<()> {
    var x := Exchange(env, r, GetExperiments);
    match x.response.body
    case ExperimentList(exps) => InitKeysSpec(env, x.remote, workspace, NameSet(exps), 0)
    case _ => Run(x.remote, Failure(BadResponseBody))
  }

  /** get_experiment_names: the experiment list is read without a status check. */
  function ExperimentNamesSpec(env: Env, r: Remote, workspace: string): Run<set<string>> {
    var x := Exchange(env, r, GetExperiments);
    match x.response.body
    case ExperimentList(exps) => Run(x.remote, Success(VisibleNames(exps, workspace)))
    case _ => Run(x.remote, Failure(BadResponseBody))
  }

  /** The write loop of _add_numerical_data from realization i on. */
  function WriteFromSpec(env: Env, r: Remote, ens: Id, recordName: string, records: seq<Record>, meta: Metadata, i: nat): Run<()>
    decreases |records| - i
  {
    if i >= |records| then Run(r, Success(()))
    else
      var at := Slot(ens, recordName, i);
      var p := Exchange(env, r, PostMatrix(at, Encode(records[i], i)));
      if p.response.status == CONFLICT then Run(p.remote, Failure(ElementExistsError))
      else if p.response.status != OK then Run(p.remote, Failure(StorageError(p.response.status)))
      else
        var u := Exchange(env, p.remote, PutUserdata(at, meta));
        if u.response.status != OK then Run(u.remote, Failure(StorageError(u.response.status)))
        else WriteFromSpec(env, u.remote, ens, recordName, records, meta, i + 1)
  }

  /** _add_numerical_data; the ensemble size is the number of records (ert3.data.EnsembleRecord). */
  function AddNumericalDataSpec(env: Env, r: Remote, experimentName: string, recordName: string, records: seq<Record>): Run<()> {
    var l := LookupSpec(env, r, experimentName);
    if l.result.Failure? then Run(l.remote, Failure(l.result.error))
    else if l.result.value.None? then Run(l.remote, Failure(NonExistantExperiment))
    else
      var kind := RecordTypeOf(records);
      if kind.Failure? then Run(l.remote, Failure(kind.error))
      else
        var exp := l.result.value.value;
        if |exp.ensembleIds| == 0 then Run(l.remote, Failure(IndexError))
        else WriteFromSpec(env, l.remote, exp.ensembleIds[0], recordName, records, Metadata(|records|, kind.value), 0)
  }

  /** _get_numerical_metadata: the metadata of realization 0. */
  function MetadataSpec(env: Env, r: Remote, ens: Id, recordName: string): Run<Metadata> {
    var x := Exchange(env, r, GetUserdata(Slot(ens, recordName, 0)));
    if x.response.status == NOT_FOUND then Run(x.remote, Failure(ElementMissingError))
    else if x.response.status != OK then Run(x.remote, Failure(StorageError(x.response.status)))
    else match x.response.body
      case UserData(m) => Run(x.remote, Success(m))
      case _ => Run(x.remote, Failure(BadResponseBody))
  }

  /** The read loop of _get_numerical_data from realization i on, `acc` holding the records read so far. */
  function ReadFromSpec(env: Env, r: Remote, ens: Id, recordName: string, meta: Metadata, i: int, acc: seq<Record>): Run<seq<Record>>
    decreases meta.ensembleSize - i
  {
    if i >= meta.ensembleSize then Run(r, Success(acc))
    else
      var x := Exchange(env, r, GetMatrix(Slot(ens, recordName, i)));
      if x.response.status == NOT_FOUND then Run(x.remote, Failure(ElementMissingError))
      else if x.response.status != OK then Run(x.remote, Failure(StorageError(x.response.status)))
      else match x.response.body
        case Matrix(t) =>
          (match Decode(t, meta.recordType, i)
           case Success(rec) => ReadFromSpec(env, x.remote, ens, recordName, meta, i + 1, acc + [rec])
           case Failure(e) => Run(x.remote, Failure(e)))
        case _ => Run(x.remote, Failure(BadResponseBody))
  }

  /** _get_numerical_data */
  function GetNumericalDataSpec(env: Env, r: Remote, experimentName: string, recordName: string): Run<seq<Record>> {
    var l := LookupSpec(env, r, experimentName);
    if l.result.Failure? then Run(l.remote, Failure(l.result.error))
    else if l.result.value.None? then Run(l.remote, Failure(NonExistantExperiment))
    else
      var exp := l.result.value.value;
      if |exp.ensembleIds| == 0 then Run(l.remote, Failure(IndexError))
      else
        var m := MetadataSpec(env, l.remote, exp.ensembleIds[0], recordName);
        if m.result.Failure? then Run(m.remote, Failure(m.result.error))
        else ReadFromSpec(env, m.remote, exp.ensembleIds[0], recordName, m.result.value, 0, [])
  }

  /** get_ensemble_record_names and get_experiment_parameters: a list of names of the experiment's first ensemble. */
  function EnsembleNamesSpec(env: Env, r: Remote, experimentName: string, parameters: bool): Run<seq<string>> {
    var l := LookupSpec(env, r, experimentName);
    if l.result.Failure? then Run(l.remote, Failure(l.result.error))
    else if l.result.value.None? then Run(l.remote, Failure(NonExistantExperiment))
    else
      var exp := l.result.value.value;
      if |exp.ensembleIds| == 0 then Run(l.remote, Failure(IndexError))
      else
        var ens := exp.ensembleIds[0];
        var x := Exchange(env, l.remote, if parameters then GetParameters(ens) else GetRecordNames(ens));
        if x.response.status != OK then Run(x.remote, Failure(StorageError(x.response.status)))
        else match x.response.body
          case Names(ns) => Run(x.remote, Success(ns))
          case _ => Run(x.remote, Failure(BadResponseBody))
  }

  /** delete_experiment */
  function DeleteExperimentSpec(env: Env, r: Remote, experimentName: string): Run<()> {
    var l := LookupSpec(env, r, experimentName);
    if l.result.Failure? then Run(l.remote, Failure(l.result.error))
    else if l.result.value.None? then Run(l.remote, Failure(NonExistantExperiment))
    else
      var x := Exchange(env, l.remote, DeleteById(l.result.value.value.id));
      if x.response.status != OK then Run(x.remote, Failure(StorageError(x.response.status)))
      else Run(x.remote, Success(()))
  }

  // ---------------------------------------------------------------------
  // The client operations

  method GetExperimentByName(c: Connection, experimentName: string) returns (r: Result<Option<Experiment>, Error>)
    modifies c
    ensures c.Environment() == old(c.Environment())
    ensures Run(c.remote, r) == LookupSpec(old(c.Environment()), old(c.remote), experimentName)
  {
    var response := c.Send(GetExperiments);
    if response.status != OK {
      return Failure(StorageError(response.status));
    }
    if !response.body.ExperimentList? {
      return Failure(BadResponseBody);
    }
    return Success(FindByName(response.body.experiments, experimentName));
  }

  method CreateExperiment(c: Connection, experimentName: string, parameters: seq<string>, ensembleSize: int)
    returns (r: Result<(), Error>)
    modifies c
    ensures c.Environment() == old(c.Environment())
    ensures Run(c.remote, r) == CreateExperimentSpec(old(c.Environment()), old(c.remote), experimentName, parameters, ensembleSize)
  {
    if experimentName == "" {
      return Failure(ValueError(NoNameMessage));
    }
    var existing := GetExperimentByName(c, experimentName);
    if existing.Failure? {
      return Failure(existing.error);
    }
    if existing.value.Some? {
      return Failure(ElementExistsError);
    }
    var expResponse := c.Send(PostExperiment(experimentName));
    if !expResponse.body.Created? {
      return Failure(BadResponseBody);
    }
    var response := c.Send(PostEnsemble(expResponse.body.id, parameters, [], ensembleSize));
    if response.status != OK {
      return Failure(StorageError(response.status));
    }
    return Success(());
  }

  method InitExperiment(c: Connection, experimentName: string, parameters: seq<string>, ensembleSize: int)
    returns (r: Result<(), Error>)
    modifies c
    ensures c.Environment() == old(c.Environment())
    ensures Run(c.remote, r) == InitExperimentSpec(old(c.Environment()), old(c.remote), experimentName, parameters, ensembleSize)
  {
    if ensembleSize <= 0 {
      return Failure(ValueError(BadSizeMessage));
    }
    r := CreateExperiment(c, experimentName, parameters, ensembleSize);
  }

  method Init(c: Connection, workspace: string) returns (r: Result<(), Error>)
    modifies c
    ensures c.Environment() == old(c.Environment())
    ensures Run(c.remote, r) == InitSpec(old(c.Environment()), old(c.remote), workspace)
  {
    var response := c.Send(GetExperiments);
    if !response.body.ExperimentList? {
      return Failure(BadResponseBody);
    }
    var experimentNames := NameSet(response.body.experiments);
    ghost var env := c.Environment();
    ghost var start := c.remote;
    for i := 0 to |SpecialKeys|
      invariant c.Environment() == env
      invariant InitKeysSpec(env, c.remote, workspace, experimentNames, i) == InitKeysSpec(env, start, workspace, experimentNames, 0)
    {
      var key := ReservedName(workspace, SpecialKeys[i]);
      if key in experimentNames {
        return Failure(ValueError(InitializedMessage));
      }
      var created := CreateExperiment(c, key, [], -1);
      if created.Failure? {
        return created;
      }
    }
    return Success(());
  }

  method GetExperimentNames(c: Connection, workspace: string) returns (r: Result<set<string>, Error>)
    modifies c
    ensures c.Environment() == old(c.Environment())
    ensures Run(c.remote, r) == ExperimentNamesSpec(old(c.Environment()), old(c.remote), workspace)
  {
    var response := c.Send(GetExperiments);
    if !response.body.ExperimentList? {
      return Failure(BadResponseBody);
    }
    var experimentNames := NameSet(response.body.experiments);
    for i := 0 to |SpecialKeys|
      invariant experimentNames == NameSet(response.body.experiments) - ReservedNames(workspace, SpecialKeys[..i])
    {
      var key := ReservedName(workspace, SpecialKeys[i]);
      assert SpecialKeys[..i + 1] == SpecialKeys[..i] + [SpecialKeys[i]];
      if key in experimentNames {
        experimentNames := experimentNames - {key};
      }
    }
    assert SpecialKeys[..|SpecialKeys|] == SpecialKeys;
    return Success(experimentNames);
  }

  method AddNumericalData(c: Connection, experimentName: string, recordName: string, records: seq<Record>)
    returns (r: Result<(), Error>)
    modifies c
    ensures c.Environment() == old(c.Environment())
    ensures Run(c.remote, r) == AddNumericalDataSpec(old(c.Environment()), old(c.remote), experimentName, recordName, records)
  {
    var experiment := GetExperimentByName(c, experimentName);
    if experiment.Failure? {
      return Failure(experiment.error);
    }
    if experiment.value.None? {
      return Failure(NonExistantExperiment);
    }
    var recordType := GetRecordType(records);
    if recordType.Failure? {
      return Failure(recordType.error);
    }
    var metadata := Metadata(|records|, recordType.value);
    if |experiment.value.value.ensembleIds| == 0 {
      return Failure(IndexError);
    }
    r := WriteRecords(c, experiment.value.value.ensembleIds[0], recordName, records, metadata);
  }

  /** The write loop: realization by realization, the matrix then its metadata. */
  method WriteRecords(c: Connection, ensembleId: Id, recordName: string, records: seq<Record>, metadata: Metadata)
    returns (r: Result<(), Error>)
    modifies c
    ensures c.Environment() == old(c.Environment())
    ensures Run(c.remote, r) == WriteFromSpec(old(c.Environment()), old(c.remote), ensembleId, recordName, records, metadata, 0)
  {
    ghost var env := c.Environment();
    ghost var start := c.remote;
    var idx := 0;
    while idx < |records|
      invariant idx <= |records|
      invariant c.Environment() == env
      invariant WriteFromSpec(env, c.remote, ensembleId, recordName, records, metadata, idx)
             == WriteFromSpec(env, start, ensembleId, recordName, records, metadata, 0)
    {
      var at := Slot(ensembleId, recordName, idx);
      var response := c.Send(PostMatrix(at, Encode(records[idx], idx)));
      if response.status == CONFLICT {
        return Failure(ElementExistsError);
      }
      if response.status != OK {
        return Failure(StorageError(response.status));
      }
      var metaResponse := c.Send(PutUserdata(at, metadata));
      if metaResponse.status != OK {
        return Failure(StorageError(metaResponse.status));
      }
      idx := idx + 1;
    }
    return Success(());
  }

  method GetNumericalMetadata(c: Connection, ensembleId: Id, recordName: string) returns (r: Result<Metadata, Error>)
    modifies c
    ensures c.Environment() == old(c.Environment())
    ensures Run(c.remote, r) == MetadataSpec(old(c.Environment()), old(c.remote), ensembleId, recordName)
  {
    var response := c.Send(GetUserdata(Slot(ensembleId, recordName, 0)));
    if response.status == NOT_FOUND {
      return Failure(ElementMissingError);
    }
    if response.status != OK {
      return Failure(StorageError(response.status));
    }
    if !response.body.UserData? {
      return Failure(BadResponseBody);
    }
    return Success(response.body.metadata);
  }

  method GetNumericalData(c: Connection, experimentName: string, recordName: string) returns (r: Result<seq<Record>, Error>)
    modifies c
    ensures c.Environment() == old(c.Environment())
    ensures Run(c.remote, r) == GetNumericalDataSpec(old(c.Environment()), old(c.remote), experimentName, recordName)
  {
    var experiment := GetExperimentByName(c, experimentName);
    if experiment.Failure? {
      return Failure(experiment.error);
    }
    if experiment.value.None? {
      return Failure(NonExistantExperiment);
    }
    if |experiment.value.value.ensembleIds| == 0 {
      return Failure(IndexError);
    }
    var ensembleId := experiment.value.value.ensembleIds[0];
    var metadata := GetNumericalMetadata(c, ensembleId, recordName);
    if metadata.Failure? {
      return Failure(metadata.error);
    }
    ghost var env := c.Environment();
    ghost var start := c.remote;
    var records: seq<Record> := [];
    var realId := 0;
    while realId < metadata.value.ensembleSize
      invariant c.Environment() == env
      invariant ReadFromSpec(env, c.remote, ensembleId, recordName, metadata.value, realId, records)
             == ReadFromSpec(env, start, ensembleId, recordName, metadata.value, 0, [])
      decreases metadata.value.ensembleSize - realId
    {
      var response := c.Send(GetMatrix(Slot(ensembleId, recordName, realId)));
      if response.status == NOT_FOUND {
        return Failure(ElementMissingError);
      }
      if response.status != OK {
        return Failure(StorageError(response.status));
      }
      if !response.body.Matrix? {
        return Failure(BadResponseBody);
      }
      var record := Decode(response.body.table, metadata.value.recordType, realId);
      if record.Failure? {
        return Failure(record.error);
      }
      records := records + [record.value];
      realId := realId + 1;
    }
    return Success(records);
  }

  method AddEnsembleRecord(c: Connection, workspace: string, recordName: string, records: seq<Record>, experimentName: Option<string>)
    returns (r: Result<(), Error>)
    modifies c
    ensures c.Environment() == old(c.Environment())
    ensures Run(c.remote, r) == AddNumericalDataSpec(old(c.Environment()), old(c.remote), TargetExperiment(workspace, experimentName), recordName, records)
  {
    var name := if experimentName.None? then ReservedName(workspace, EnsembleRecords) else experimentName.value;
    r := AddNumericalData(c, name, recordName, records);
  }

  method GetEnsembleRecord(c: Connection, workspace: string, recordName: string, experimentName: Option<string>)
    returns (r: Result<seq<Record>, Error>)
    modifies c
    ensures c.Environment() == old(c.Environment())
    ensures Run(c.remote, r) == GetNumericalDataSpec(old(c.Environment()), old(c.remote), TargetExperiment(workspace, experimentName), recordName)
  {
    var name := if experimentName.None? then ReservedName(workspace, EnsembleRecords) else experimentName.value;
    r := GetNumericalData(c, name, recordName);
  }

  /** Lookup, then one GET of the names of the experiment's first ensemble. */
  method GetEnsembleNames(c: Connection, experimentName: string, parameters: bool) returns (r: Result<seq<string>, Error>)
    modifies c
    ensures c.Environment() == old(c.Environment())
    ensures Run(c.remote, r) == EnsembleNamesSpec(old(c.Environment()), old(c.remote), experimentName, parameters)
  {
    var experiment := GetExperimentByName(c, experimentName);
    if experiment.Failure? {
      return Failure(experiment.error);
    }
    if experiment.value.None? {
      return Failure(NonExistantExperiment);
    }
    if |experiment.value.value.ensembleIds| == 0 {
      return Failure(IndexError);
    }
    var ensembleId := experiment.value.value.ensembleIds[0];
    var response := c.Send(if parameters then GetParameters(ensembleId) else GetRecordNames(ensembleId));
    if response.status != OK {
      return Failure(StorageError(response.status));
    }
    if !response.body.Names? {
      return Failure(BadResponseBody);
    }
    return Success(response.body.names);
  }

  method GetEnsembleRecordNames(c: Connection, workspace: string, experimentName: Option<string>)
    returns (r: Result<seq<string>, Error>)
    modifies c
    ensures c.Environment() == old(c.Environment())
    ensures Run(c.remote, r) == EnsembleNamesSpec(old(c.Environment()), old(c.remote), TargetExperiment(workspace, experimentName), false)
  {
    var name := if experimentName.None? then ReservedName(workspace, EnsembleRecords) else experimentName.value;
    r := GetEnsembleNames(c, name, false);
  }

  method GetExperimentParameters(c: Connection, experimentName: string) returns (r: Result<seq<string>, Error>)
    modifies c
    ensures c.Environment() == old(c.Environment())
    ensures Run(c.remote, r) == EnsembleNamesSpec(old(c.Environment()), old(c.remote), experimentName, true)
  {
    r := GetEnsembleNames(c, experimentName, true);
  }

  method DeleteExperiment(c: Connection, experimentName: string) returns (r: Result<(), Error>)
    modifies c
    ensures c.Environment() == old(c.Environment())
    ensures Run(c.remote, r) == DeleteExperimentSpec(old(c.Environment()), old(c.remote), experimentName)
  {
    var experiment := GetExperimentByName(c, experimentName);
    if experiment.Failure? {
      return Failure(experiment.error);
    }
    if experiment.value.None? {
      return Failure(NonExistantExperiment);
    }
    var response := c.Send(DeleteById(experiment.value.value.id));
    if response.status != OK {
      return Failure(StorageError(response.status));
    }
    return Success(());
  }
}
