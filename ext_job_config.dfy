/**
 * ext_job_fscanf_alloc: how a parsed job configuration becomes a job.
 * The configuration parser is not modelled; its result is a map from each
 * keyword to the argument lists of its occurrences, in file order, plus
 * whether the parser found an error of its own. The schema the loader
 * installs is modelled, and so is what the parser checks against it.
 */
module ExtJobConfig {
  import opened Wrappers
  import Text
  import opened ExtJobs
  import opened ExtJobEmit

  // Keywords from job_kw_definitions.hpp.
  const ExecutableKey := "EXECUTABLE"
  const PortableExeKey := "PORTABLE_EXE"
  const MinArgKey := "MIN_ARG"
  const MaxArgKey := "MAX_ARG"
  const ArgTypeKey := "ARG_TYPE"

  /** A schema item: argument count bounds, the int-typed positions and the positions with a selection set. */
  datatype SchemaItem = SchemaItem(minArgs: nat, maxArgs: Option<nat>, intArgs: set<nat>, selection: map<nat, seq<string>>)

  /** The argument types ARG_TYPE accepts. */
  const VarTypes := [JobStringType, JobIntType, JobFloatType, JobBoolType, JobRuntimeFileType, JobRuntimeIntType]

  /** A keyword with exactly one argument. */
  function Single(intArgs: set<nat>): SchemaItem {
    SchemaItem(1, Some(1), intArgs, map[])
  }

  /** One occurrence meets its schema item. */
  predicate Fits(item: SchemaItem, node: seq<string>) {
    item.minArgs <= |node| &&
    (item.maxArgs.Some? ==> |node| <= item.maxArgs.value) &&
    (forall p {:trigger node[p]} :: 0 <= p < |node| && p in item.intArgs ==> Text.ParseInt(node[p]).Some?) &&
    (forall p {:trigger node[p]} :: 0 <= p < |node| && p in item.selection ==> node[p] in item.selection[p])
  }

  /** A parsed configuration: the occurrences of each keyword, and whether the parser itself reported no error. */
  datatype Content = Content(items: map<string, seq<seq<string>>>, parserOk: bool)

  function Occurrences(c: Content, key: string): seq<seq<string>> {
    if key in c.items then c.items[key] else []
  }

  /** config_content_has_item */
  predicate Has(c: Content, key: string) {
    |Occurrences(c, key)| > 0
  }

  /** Every occurrence of the keyword fits the schema item. */
  predicate AllFit(c: Content, key: string, item: SchemaItem) {
    forall i :: 0 <= i < |Occurrences(c, key)| ==> Fits(item, Occurrences(c, key)[i])
  }

  /** The file keywords. */
  predicate FilesFit(c: Content) {
    AllFit(c, "STDIN", Single({})) &&
    AllFit(c, "STDOUT", Single({})) &&
    AllFit(c, "STDERR", Single({})) &&
    AllFit(c, "TARGET_FILE", Single({})) &&
    AllFit(c, "ERROR_FILE", Single({})) &&
    AllFit(c, "START_FILE", Single({}))
  }

  /** The numeric keywords. */
  predicate LimitsFit(c: Content) {
    AllFit(c, "MAX_RUNNING", Single({0})) &&
    AllFit(c, "MAX_RUNNING_MINUTES", Single({0})) &&
    AllFit(c, MinArgKey, Single({0})) &&
    AllFit(c, MaxArgKey, Single({0}))
  }

  /** The executable keywords. */
  predicate ExecFit(c: Content) {
    AllFit(c, ExecutableKey, Single({})) &&
    AllFit(c, PortableExeKey, Single({}))
  }

  /** The list keywords; ARGLIST has no upper bound on its argument count. */
  predicate ListsFit(c: Content) {
    AllFit(c, "ENV", SchemaItem(1, Some(2), {}, map[])) &&
    AllFit(c, "EXEC_ENV", SchemaItem(1, Some(2), {}, map[])) &&
    AllFit(c, "DEFAULT", SchemaItem(2, Some(2), {}, map[])) &&
    AllFit(c, "ARGLIST", SchemaItem(1, None, {}, map[]))
  }

  /** ARG_TYPE: an int index and one of the type names. */
  predicate ArgTypesFit(c: Content) {
    AllFit(c, ArgTypeKey, SchemaItem(2, Some(2), {0}, map[1 := VarTypes]))
  }

  /**
   * config_content_is_valid: no parser error, and every occurrence of a
   * keyword of the schema ext_job_fscanf_alloc installs fits its item.
   * Other keywords only draw a warning.
   */
  predicate IsValid(c: Content) {
    c.parserOk && FilesFit(c) && LimitsFit(c) && ExecFit(c) && ListsFit(c) && ArgTypesFit(c)
  }

  /** config_content_iget(content, key, 0, 0), or None when the keyword is absent. */
  function FirstOf(c: Content, key: string): Option<string> {
    var nodes := Occurrences(c, key);
    if |nodes| > 0 && |nodes[0]| > 0 then Some(nodes[0][0]) else None
  }

  /** config_content_iget_as_int(content, key, 0, 0), or None when the keyword is absent. */
  function FirstIntOf(c: Content, key: string): Option<int> {
    var v := FirstOf(c, key);
    if v.Some? then Text.ParseInt(v.value) else None
  }

  /** The first argument of the last occurrence, as config_content_get_value_as_executable reads it. */
  function LastOf(c: Content, key: string): Option<string> {
    var nodes := Occurrences(c, key);
    if |nodes| > 0 && |nodes[|nodes| - 1]| > 0 then Some(nodes[|nodes| - 1][0]) else None
  }

  /** For a keyword of one argument that fits the schema, a value is read exactly when the keyword is present. */
  lemma PresentSingle(c: Content, key: string, intArgs: set<nat>)
    requires AllFit(c, key, Single(intArgs))
    ensures Has(c, key) <==> FirstOf(c, key).Some?
    ensures Has(c, key) <==> LastOf(c, key).Some?
    ensures Has(c, key) ==> FirstOf(c, key) == Some(Occurrences(c, key)[0][0])
    ensures Has(c, key) && 0 in intArgs ==> FirstIntOf(c, key) == Text.ParseInt(Occurrences(c, key)[0][0])
    ensures Has(c, key) && 0 in intArgs ==> FirstIntOf(c, key).Some?
  {
    var nodes := Occurrences(c, key);
    if |nodes| > 0 {
      assert Fits(Single(intArgs), nodes[0]);
      assert Fits(Single(intArgs), nodes[|nodes| - 1]);
      if 0 in intArgs {
        assert Text.ParseInt(nodes[0][0]).Some?;
      }
    }
  }

  /** util_alloc_filename(NULL, name, ext) */
  function DefaultStdFile(name: string, ext: string): string {
    name + "." + ext
  }

  /** The value read for a keyword, or the one the field had. */
  function OrKept<T>(v: Option<T>, kept: T): T {
    if v.Some? then v.value else kept
  }

  /** STDIN, STDOUT and STDERR; STDOUT and STDERR get defaults named after the job. */
  function ReadStdFiles(s: JobState, c: Content): JobState {
    var stdin := FirstOf(c, "STDIN");
    var stdout := FirstOf(c, "STDOUT");
    var stderr := FirstOf(c, "STDERR");
    s.(stdinFile := if stdin.Some? then stdin else s.stdinFile,
       stdoutFile := if stdout.Some? then WithStdout(s, stdout).stdoutFile else Some(DefaultStdFile(s.name, StdoutSuffix)),
       stderrFile := if stderr.Some? then WithStderr(s, stderr.value).stderrFile else Some(DefaultStdFile(s.name, StderrSuffix)))
  }

  /** ERROR_FILE, TARGET_FILE and START_FILE. */
  function ReadOtherFiles(s: JobState, c: Content): JobState {
    var errorFile := FirstOf(c, "ERROR_FILE");
    var targetFile := FirstOf(c, "TARGET_FILE");
    var startFile := FirstOf(c, "START_FILE");
    s.(errorFile := if errorFile.Some? then errorFile else s.errorFile,
       targetFile := if targetFile.Some? then targetFile else s.targetFile,
       startFile := if startFile.Some? then startFile else s.startFile)
  }

  /** The file keywords, in the order ext_job_fscanf_alloc applies them. */
  function ReadFiles(s: JobState, c: Content): JobState {
    ReadOtherFiles(ReadStdFiles(s, c), c)
  }

  /** The numeric keywords, after the files; MAX_RUNNING also sets up the license path. */
  function ReadLimits(s: JobState, c: Content): JobState {
    var maxRunning := FirstIntOf(c, "MAX_RUNNING");
    s.(maxRunning := OrKept(maxRunning, s.maxRunning),
       licensePath := if maxRunning.Some? then WithMaxRunning(s, maxRunning.value).licensePath else s.licensePath,
       maxRunningMinutes := OrKept(FirstIntOf(c, "MAX_RUNNING_MINUTES"), s.maxRunningMinutes),
       minArg := OrKept(FirstIntOf(c, MinArgKey), s.minArg),
       maxArg := OrKept(FirstIntOf(c, MaxArgKey), s.maxArg))
  }

  /** The index and type name of every ARG_TYPE occurrence, in file order. */
  function ArgTypeEntries(c: Content): (r: seq<(int, string)>)
    requires ArgTypesFit(c)
    ensures |r| == |Occurrences(c, ArgTypeKey)|
    ensures forall i :: 0 <= i < |r| ==>
      Text.ParseInt(Occurrences(c, ArgTypeKey)[i][0]) == Some(r[i].0) && r[i].1 == Occurrences(c, ArgTypeKey)[i][1]
    ensures forall i :: 0 <= i < |r| ==> r[i].1 in VarTypes
  {
    var nodes := Occurrences(c, ArgTypeKey);
    seq(|nodes|, i requires 0 <= i < |nodes| =>
      assert Fits(SchemaItem(2, Some(2), {0}, map[1 := VarTypes]), nodes[i]);
      assert Text.ParseInt(nodes[i][0]).Some? && nodes[i][1] in VarTypes;
      (Text.ParseInt(nodes[i][0]).value, nodes[i][1]))
  }

  /** The first n ARG_TYPE entries applied in order; None where one of them aborts. */
  function ApplyArgTypes(s: JobState, entries: seq<(int, string)>, n: nat): Option<JobState>
    requires n <= |entries|
  {
    if n == 0 then Some(s)
    else
      var t := ApplyArgTypes(s, entries, n - 1);
      if t.None? then None else WithArgTypeName(t.value, entries[n - 1].0, entries[n - 1].1)
  }

  /** The keyword the executable is read from; None when neither is given. */
  function ExecKeyOf(c: Content): Option<string> {
    if !Has(c, ExecutableKey) && !Has(c, PortableExeKey) then None
    else if !Has(c, ExecutableKey) then Some(PortableExeKey)
    else Some(ExecutableKey)
  }

  /**
   * The executable and validity after the executable step: with no
   * executable keyword the job is invalid; otherwise a valid job gets
   * ext_job_set_executable of the parser's absolute form of the last value
   * and the raw first value.
   */
  function ExecutableAfter(fs: FileSystem, s: JobState, c: Content, searchPath: bool, absPath: string -> string): (Option<string>, bool)
    requires PathSearchFinds(fs)
  {
    match ExecKeyOf(c)
    case None => (s.executable, false)
    case Some(key) =>
      var last := LastOf(c, key);
      var first := FirstOf(c, key);
      if s.valid && last.Some? && first.Some? then
        ExecutableSpec(fs, s.executable, s.valid, absPath(last.value), first, searchPath)
      else (s.executable, s.valid)
  }

  /** The executable step. */
  function ApplyExecutable(fs: FileSystem, s: JobState, c: Content, searchPath: bool, absPath: string -> string): JobState
    requires PathSearchFinds(fs)
  {
    var r := ExecutableAfter(fs, s, c, searchPath, absPath);
    s.(executable := r.0, valid := r.1)
  }

  /** What an ENV or EXEC_ENV occurrence stores: its second argument, or NULL when it has only one. */
  function Setting(node: seq<string>): Option<string> {
    if |node| > 1 then Some(node[1]) else None
  }

  /** ENV / EXEC_ENV occurrences inserted in order, so the last one for a name wins. */
  function EnvApplied(env: map<string, Option<string>>, nodes: seq<seq<string>>): map<string, Option<string>>
    requires forall i :: 0 <= i < |nodes| ==> |nodes[i]| >= 1
  {
    if |nodes| == 0 then env
    else EnvApplied(env, nodes[..|nodes| - 1])[nodes[|nodes| - 1][0] := Setting(nodes[|nodes| - 1])]
  }

  /** DEFAULT occurrences: each is one key and value pair, inserted in order. */
  function DefaultsApplied(m: map<string, string>, nodes: seq<seq<string>>): map<string, string>
    requires forall i :: 0 <= i < |nodes| ==> |nodes[i]| >= 2
  {
    if |nodes| == 0 then m
    else DefaultsApplied(m, nodes[..|nodes| - 1])[nodes[|nodes| - 1][0] := nodes[|nodes| - 1][1]]
  }

  /** Every occurrence of the keyword has at least `n` arguments. */
  predicate MinArgs(c: Content, key: string, n: nat) {
    forall i :: 0 <= i < |Occurrences(c, key)| ==> |Occurrences(c, key)[i]| >= n
  }

  /** The list keywords that fit the schema have the arguments their loops read. */
  lemma ListsMinArgs(c: Content)
    requires ListsFit(c)
    ensures MinArgs(c, "ARGLIST", 1) && MinArgs(c, "ENV", 1) && MinArgs(c, "EXEC_ENV", 1) && MinArgs(c, "DEFAULT", 2)
  {
    forall i | 0 <= i < |Occurrences(c, "ENV")|
      ensures |Occurrences(c, "ENV")[i]| >= 1
    {
      assert Fits(SchemaItem(1, Some(2), {}, map[]), Occurrences(c, "ENV")[i]);
    }
    forall i | 0 <= i < |Occurrences(c, "EXEC_ENV")|
      ensures |Occurrences(c, "EXEC_ENV")[i]| >= 1
    {
      assert Fits(SchemaItem(1, Some(2), {}, map[]), Occurrences(c, "EXEC_ENV")[i]);
    }
    forall i | 0 <= i < |Occurrences(c, "DEFAULT")|
      ensures |Occurrences(c, "DEFAULT")[i]| >= 2
    {
      assert Fits(SchemaItem(2, Some(2), {}, map[]), Occurrences(c, "DEFAULT")[i]);
    }
    forall i | 0 <= i < |Occurrences(c, "ARGLIST")|
      ensures |Occurrences(c, "ARGLIST")[i]| >= 1
    {
      assert Fits(SchemaItem(1, None, {}, map[]), Occurrences(c, "ARGLIST")[i]);
    }
  }

  /** The ENV or EXEC_ENV occurrences applied to a hash. */
  function EnvFrom(env: map<string, Option<string>>, c: Content, key: string): map<string, Option<string>>
    requires MinArgs(c, key, 1)
  {
    EnvApplied(env, Occurrences(c, key))
  }

  /** The DEFAULT occurrences applied to the default mapping. */
  function DefaultsFrom(m: map<string, string>, c: Content): map<string, string>
    requires MinArgs(c, "DEFAULT", 2)
  {
    DefaultsApplied(m, Occurrences(c, "DEFAULT"))
  }

  /** The arguments of the last ARGLIST occurrence. */
  function LastArgList(c: Content): seq<string>
    requires Has(c, "ARGLIST")
  {
    Occurrences(c, "ARGLIST")[|Occurrences(c, "ARGLIST")| - 1]
  }

  /** ARGLIST, ENV, EXEC_ENV and DEFAULT. */
  function ReadLists(s: JobState, c: Content): JobState
    requires ListsFit(c)
  {
    ListsMinArgs(c);
    s.(deprecatedArgv := if Has(c, "ARGLIST") then Some(LastArgList(c)) else s.deprecatedArgv,
       environment := EnvFrom(s.environment, c, "ENV"),
       execEnv := EnvFrom(s.execEnv, c, "EXEC_ENV"),
       defaultMapping := DefaultsFrom(s.defaultMapping, c))
  }

  /** The job after allocation, the config file name and the single-value keywords. */
  function Prepared(name: string, root: Option<string>, privateJob: bool, configFile: string, c: Content): JobState {
    ReadLimits(ReadFiles(Fresh(name, root, privateJob).(configFile := Some(configFile)), c), c)
  }

  /** What ext_job_fscanf_alloc returns: a job, NULL, or an abort of the process. */
  datatype Outcome = Loaded(job: JobState) | NotAvailable | Aborted

  /** ext_job_fscanf_alloc as a function of the file system and the parsed content. */
  function Load(name: string, root: Option<string>, privateJob: bool, configFile: string, searchPath: bool,
                fs: FileSystem, absPath: string -> string, c: Content): (r: Outcome)
    requires PathSearchFinds(fs)
    // Only a readable, valid configuration gets past the first check, and
    // the job handed back is always a valid one.
    ensures !r.NotAvailable? ==> fs.readable(configFile) && IsValid(c)
    ensures r.Loaded? ==> r.job.valid
  {
    if !fs.readable(configFile) || !IsValid(c) then NotAvailable
    else
      var entries := ArgTypeEntries(c);
      var typed := ApplyArgTypes(Prepared(name, root, privateJob, configFile, c), entries, |entries|);
      if typed.None? then Aborted
      else
        var s := ReadLists(ApplyExecutable(fs, typed.value, c, searchPath, absPath), c);
        if s.valid then Loaded(s) else NotAvailable
  }

  // ---------------------------------------------------------------------
  // What the loader promises.

  /**
   * With every type name known, the ARG_TYPE entries abort exactly when one
   * of them has a negative index; otherwise they change only the argument
   * types, and every argument type stays one with a name.
   */
  lemma {:induction false} ArgTypesOutcome(s: JobState, entries: seq<(int, string)>, n: nat)
    requires n <= |entries|
    requires forall i :: 0 <= i < |entries| ==> entries[i].1 in VarTypes
    ensures ApplyArgTypes(s, entries, n).None? <==> exists i :: 0 <= i < n && entries[i].0 < 0
    ensures ApplyArgTypes(s, entries, n).Some? ==>
      ApplyArgTypes(s, entries, n).value == s.(argTypes := ApplyArgTypes(s, entries, n).value.argTypes)
    ensures ApplyArgTypes(s, entries, n).Some? && KnownTypes(s) ==> KnownTypes(ApplyArgTypes(s, entries, n).value)
    decreases n
  {
    if n > 0 {
      ArgTypesOutcome(s, entries, n - 1);
      var t := ApplyArgTypes(s, entries, n - 1);
      assert entries[n - 1].1 in VarTypes;
      assert KwType(entries[n - 1].1) != ConfigInvalid;
      if t.Some? {
        KnownTypesKept(t.value, t.value.name, t.value.licenseRootPath, t.value.privateJob, entries[n - 1].0, entries[n - 1].1);
      } else {
        ArgTypesStayAborted(s, entries, n - 1, n);
      }
    }
  }

  /** The last ARG_TYPE entry for an index decides that argument's type. */
  lemma {:induction false} ArgTypesLastWins(s: JobState, entries: seq<(int, string)>, n: nat, i: nat)
    requires i < n <= |entries|
    requires ApplyArgTypes(s, entries, n).Some? && entries[i].0 >= 0
    requires KwType(entries[i].1) != ConfigInvalid
    requires forall j :: i < j < n ==> entries[j].0 != entries[i].0
    ensures entries[i].0 in ApplyArgTypes(s, entries, n).value.argTypes
    ensures ApplyArgTypes(s, entries, n).value.argTypes[entries[i].0] == KwType(entries[i].1)
    decreases n
  {
    if i < n - 1 {
      ArgTypesLastWins(s, entries, n - 1, i);
    }
  }

  /** The names an ENV or EXEC_ENV list defines: the ones it had and the first argument of every occurrence. */
  lemma {:induction false} EnvKeys(env: map<string, Option<string>>, nodes: seq<seq<string>>)
    requires forall i :: 0 <= i < |nodes| ==> |nodes[i]| >= 1
    ensures EnvApplied(env, nodes).Keys == env.Keys + set i | 0 <= i < |nodes| :: nodes[i][0]
    decreases |nodes|
  {
    if |nodes| > 0 {
      var front := nodes[..|nodes| - 1];
      EnvKeys(env, front);
      var all := set i | 0 <= i < |nodes| :: nodes[i][0];
      var part := set i | 0 <= i < |front| :: front[i][0];
      forall k | k in all
        ensures k in part + {nodes[|nodes| - 1][0]}
      {
        var i :| 0 <= i < |nodes| && nodes[i][0] == k;
        if i < |front| {
          assert front[i][0] == k;
        }
      }
      forall k | k in part
        ensures k in all
      {
        var i :| 0 <= i < |front| && front[i][0] == k;
        assert nodes[i][0] == k;
      }
      assert all == part + {nodes[|nodes| - 1][0]};
    }
  }

  /** The last occurrence of a name decides its value: the second argument, or NULL when there is none. */
  lemma {:induction false} EnvLastWins(env: map<string, Option<string>>, nodes: seq<seq<string>>, i: nat)
    requires forall j :: 0 <= j < |nodes| ==> |nodes[j]| >= 1
    requires i < |nodes|
    requires forall j :: i < j < |nodes| ==> nodes[j][0] != nodes[i][0]
    ensures nodes[i][0] in EnvApplied(env, nodes)
    ensures EnvApplied(env, nodes)[nodes[i][0]] == Setting(nodes[i])
    decreases |nodes|
  {
    if i < |nodes| - 1 {
      var front := nodes[..|nodes| - 1];
      assert front[i] == nodes[i];
      EnvLastWins(env, front, i);
    }
  }

  /** A name no occurrence mentions keeps the value it had. */
  lemma {:induction false} EnvUntouched(env: map<string, Option<string>>, nodes: seq<seq<string>>, k: string)
    requires forall j :: 0 <= j < |nodes| ==> |nodes[j]| >= 1
    requires forall j :: 0 <= j < |nodes| ==> nodes[j][0] != k
    ensures k in EnvApplied(env, nodes) <==> k in env
    ensures k in env ==> EnvApplied(env, nodes)[k] == env[k]
    decreases |nodes|
  {
    if |nodes| > 0 {
      EnvUntouched(env, nodes[..|nodes| - 1], k);
    }
  }

  /** Likewise for DEFAULT: the last pair for a key decides its value. */
  lemma {:induction false} DefaultsLastWins(m: map<string, string>, nodes: seq<seq<string>>, i: nat)
    requires forall j :: 0 <= j < |nodes| ==> |nodes[j]| >= 2
    requires i < |nodes|
    requires forall j :: i < j < |nodes| ==> nodes[j][0] != nodes[i][0]
    ensures nodes[i][0] in DefaultsApplied(m, nodes)
    ensures DefaultsApplied(m, nodes)[nodes[i][0]] == nodes[i][1]
    decreases |nodes|
  {
    if i < |nodes| - 1 {
      var front := nodes[..|nodes| - 1];
      assert front[i] == nodes[i];
      DefaultsLastWins(m, front, i);
    }
  }

  /** A key no DEFAULT pair mentions keeps the value it had. */
  lemma {:induction false} DefaultsUntouched(m: map<string, string>, nodes: seq<seq<string>>, k: string)
    requires forall j :: 0 <= j < |nodes| ==> |nodes[j]| >= 2
    requires forall j :: 0 <= j < |nodes| ==> nodes[j][0] != k
    ensures k in DefaultsApplied(m, nodes) <==> k in m
    ensures k in m ==> DefaultsApplied(m, nodes)[k] == m[k]
    decreases |nodes|
  {
    if |nodes| > 0 {
      DefaultsUntouched(m, nodes[..|nodes| - 1], k);
    }
  }

  /**
   * The three outcomes: an unreadable file or content that fails the
   * schema gives NULL; otherwise the process aborts exactly when an
   * ARG_TYPE index is negative; and without EXECUTABLE or PORTABLE_EXE
   * no job is returned.
   */
  lemma LoadOutcome(name: string, root: Option<string>, privateJob: bool, configFile: string, searchPath: bool,
                    fs: FileSystem, absPath: string -> string, c: Content)
    requires PathSearchFinds(fs)
    ensures !fs.readable(configFile) || !IsValid(c) ==> Load(name, root, privateJob, configFile, searchPath, fs, absPath, c) == NotAvailable
    ensures Load(name, root, privateJob, configFile, searchPath, fs, absPath, c).Aborted? <==>
      fs.readable(configFile) && IsValid(c) &&
      exists i :: 0 <= i < |ArgTypeEntries(c)| && ArgTypeEntries(c)[i].0 < 0
    ensures ExecKeyOf(c).None? ==> !Load(name, root, privateJob, configFile, searchPath, fs, absPath, c).Loaded?
  {
    if fs.readable(configFile) && IsValid(c) {
      var entries := ArgTypeEntries(c);
      ArgTypesOutcome(Prepared(name, root, privateJob, configFile, c), entries, |entries|);
    }
  }

  /** What the single-value keywords leave alone. */
  lemma PreparedFrame(name: string, root: Option<string>, privateJob: bool, configFile: string, c: Content)
    ensures var p := Prepared(name, root, privateJob, configFile, c);
      p.name == name && p.licenseRootPath == root && p.privateJob == privateJob &&
      p.configFile == Some(configFile) && p.executable == None && p.valid &&
      p.argTypes == map[] && p.deprecatedArgv == None &&
      p.environment == map[] && p.execEnv == map[] && p.defaultMapping == map[]
  {
  }

  /** The steps a loaded job went through. */
  lemma LoadedSteps(name: string, root: Option<string>, privateJob: bool, configFile: string, searchPath: bool,
                    fs: FileSystem, absPath: string -> string, c: Content)
    requires PathSearchFinds(fs)
    requires Load(name, root, privateJob, configFile, searchPath, fs, absPath, c).Loaded?
    ensures fs.readable(configFile) && IsValid(c)
    ensures var p := Prepared(name, root, privateJob, configFile, c);
      var typed := ApplyArgTypes(p, ArgTypeEntries(c), |ArgTypeEntries(c)|);
      typed.Some? && typed.value == p.(argTypes := typed.value.argTypes) && KnownTypes(typed.value) &&
      Load(name, root, privateJob, configFile, searchPath, fs, absPath, c).job
        == ReadLists(ApplyExecutable(fs, typed.value, c, searchPath, absPath), c)
  {
    var p := Prepared(name, root, privateJob, configFile, c);
    var entries := ArgTypeEntries(c);
    PreparedFrame(name, root, privateJob, configFile, c);
    assert KnownTypes(p);
    ArgTypesOutcome(p, entries, |entries|);
  }

  /** The executable step and the list keywords change only the executable, validity and the lists. */
  lemma LaterStepsFrame(fs: FileSystem, s: JobState, c: Content, searchPath: bool, absPath: string -> string)
    requires PathSearchFinds(fs) && ListsFit(c)
    ensures var t := ReadLists(ApplyExecutable(fs, s, c, searchPath, absPath), c);
      t == s.(executable := t.executable, valid := t.valid, deprecatedArgv := t.deprecatedArgv,
              environment := t.environment, execEnv := t.execEnv, defaultMapping := t.defaultMapping)
  {
  }

  /**
   * A loaded job keeps the name, root, privacy and configuration file it
   * was loaded with and is valid; its executable is what
   * ext_job_set_executable makes of EXECUTABLE, or of PORTABLE_EXE only
   * when EXECUTABLE is absent; and all its argument types have names, so
   * its JSON description can always be written.
   */
  lemma LoadedJob(name: string, root: Option<string>, privateJob: bool, configFile: string, searchPath: bool,
                  fs: FileSystem, absPath: string -> string, c: Content)
    requires PathSearchFinds(fs)
    requires Load(name, root, privateJob, configFile, searchPath, fs, absPath, c).Loaded?
    ensures var s := Load(name, root, privateJob, configFile, searchPath, fs, absPath, c).job;
      s.name == name && s.licenseRootPath == root && s.privateJob == privateJob &&
      s.configFile == Some(configFile) && s.valid && KnownTypes(s) &&
      ArgTypesText("  ", "arg_types", s, ",\n").Some?
    ensures ExecKeyOf(c) == Some(if Has(c, ExecutableKey) then ExecutableKey else PortableExeKey)
    ensures FirstOf(c, ExecKeyOf(c).value).Some? && LastOf(c, ExecKeyOf(c).value).Some?
    ensures var key := ExecKeyOf(c).value;
      ExecutableSpec(fs, None, true, absPath(LastOf(c, key).value), FirstOf(c, key), searchPath)
        == (Load(name, root, privateJob, configFile, searchPath, fs, absPath, c).job.executable, true)
  {
    LoadedSteps(name, root, privateJob, configFile, searchPath, fs, absPath, c);
    var p := Prepared(name, root, privateJob, configFile, c);
    PreparedFrame(name, root, privateJob, configFile, c);
    var entries := ArgTypeEntries(c);
    var typed := ApplyArgTypes(p, entries, |entries|).value;
    LaterStepsFrame(fs, typed, c, searchPath, absPath);
    PresentSingle(c, ExecutableKey, {});
    PresentSingle(c, PortableExeKey, {});
    var s := Load(name, root, privateJob, configFile, searchPath, fs, absPath, c).job;
    KnownTypesKept(s, name, root, privateJob, 0, "");
    JsonWritten(s);
  }

  /** In content that fits the schema, each single-value keyword is present exactly when a value is read for it. */
  lemma SingleValuesRead(c: Content)
    requires FilesFit(c) && LimitsFit(c) && ExecFit(c)
    ensures Has(c, "STDIN") <==> FirstOf(c, "STDIN").Some?
    ensures Has(c, "STDOUT") <==> FirstOf(c, "STDOUT").Some?
    ensures Has(c, "STDERR") <==> FirstOf(c, "STDERR").Some?
    ensures Has(c, "ERROR_FILE") <==> FirstOf(c, "ERROR_FILE").Some?
    ensures Has(c, "TARGET_FILE") <==> FirstOf(c, "TARGET_FILE").Some?
    ensures Has(c, "START_FILE") <==> FirstOf(c, "START_FILE").Some?
    ensures Has(c, ExecutableKey) <==> FirstOf(c, ExecutableKey).Some?
    ensures Has(c, PortableExeKey) <==> FirstOf(c, PortableExeKey).Some?
    ensures Has(c, "MAX_RUNNING") <==> FirstIntOf(c, "MAX_RUNNING").Some?
    ensures Has(c, "MAX_RUNNING_MINUTES") <==> FirstIntOf(c, "MAX_RUNNING_MINUTES").Some?
    ensures Has(c, MinArgKey) <==> FirstIntOf(c, MinArgKey).Some?
    ensures Has(c, MaxArgKey) <==> FirstIntOf(c, MaxArgKey).Some?
  {
    PresentSingle(c, "STDIN", {});
    PresentSingle(c, "STDOUT", {});
    PresentSingle(c, "STDERR", {});
    PresentSingle(c, "ERROR_FILE", {});
    PresentSingle(c, "TARGET_FILE", {});
    PresentSingle(c, "START_FILE", {});
    PresentSingle(c, ExecutableKey, {});
    PresentSingle(c, PortableExeKey, {});
    PresentSingle(c, "MAX_RUNNING", {0});
    PresentSingle(c, "MAX_RUNNING_MINUTES", {0});
    PresentSingle(c, MinArgKey, {0});
    PresentSingle(c, MaxArgKey, {0});
  }

  /**
   * The files of a loaded job: STDIN, ERROR_FILE, TARGET_FILE and
   * START_FILE as given; STDOUT and STDERR as given, none for "null", and
   * the job's name with the suffix when absent.
   */
  lemma LoadedFiles(name: string, root: Option<string>, privateJob: bool, configFile: string, searchPath: bool,
                      fs: FileSystem, absPath: string -> string, c: Content)
    requires PathSearchFinds(fs)
    requires Load(name, root, privateJob, configFile, searchPath, fs, absPath, c).Loaded?
    ensures var s := Load(name, root, privateJob, configFile, searchPath, fs, absPath, c).job;
      s.stdinFile == FirstOf(c, "STDIN") && s.errorFile == FirstOf(c, "ERROR_FILE") &&
      s.targetFile == FirstOf(c, "TARGET_FILE") && s.startFile == FirstOf(c, "START_FILE")
    ensures var s := Load(name, root, privateJob, configFile, searchPath, fs, absPath, c).job;
      (!Has(c, "STDOUT") ==> s.stdoutFile == Some(DefaultStdFile(name, StdoutSuffix))) &&
      (FirstOf(c, "STDOUT") == Some(NoStdFile) ==> s.stdoutFile == None) &&
      (FirstOf(c, "STDOUT").Some? && FirstOf(c, "STDOUT") != Some(NoStdFile) ==> s.stdoutFile == FirstOf(c, "STDOUT"))
    ensures var s := Load(name, root, privateJob, configFile, searchPath, fs, absPath, c).job;
      (!Has(c, "STDERR") ==> s.stderrFile == Some(DefaultStdFile(name, StderrSuffix))) &&
      (FirstOf(c, "STDERR") == Some(NoStdFile) ==> s.stderrFile == None) &&
      (FirstOf(c, "STDERR").Some? && FirstOf(c, "STDERR") != Some(NoStdFile) ==> s.stderrFile == FirstOf(c, "STDERR"))
  {
    var p := Prepared(name, root, privateJob, configFile, c);
    LoadedSteps(name, root, privateJob, configFile, searchPath, fs, absPath, c);
    PreparedFrame(name, root, privateJob, configFile, c);
    var entries := ArgTypeEntries(c);
    LaterStepsFrame(fs, ApplyArgTypes(p, entries, |entries|).value, c, searchPath, absPath);
    PresentSingle(c, "STDOUT", {});
    PresentSingle(c, "STDERR", {});
  }

  /**
   * The limits of a loaded job: MAX_RUNNING, MAX_RUNNING_MINUTES, MIN_ARG
   * and MAX_ARG as given, else 0, 0, -1 and -1; a positive MAX_RUNNING
   * gives the license path root/name, and there is none otherwise.
   */
  lemma LoadedLimits(name: string, root: Option<string>, privateJob: bool, configFile: string, searchPath: bool,
                      fs: FileSystem, absPath: string -> string, c: Content)
    requires PathSearchFinds(fs)
    requires Load(name, root, privateJob, configFile, searchPath, fs, absPath, c).Loaded?
    ensures var s := Load(name, root, privateJob, configFile, searchPath, fs, absPath, c).job;
      s.maxRunning == OrKept(FirstIntOf(c, "MAX_RUNNING"), 0) &&
      s.maxRunningMinutes == OrKept(FirstIntOf(c, "MAX_RUNNING_MINUTES"), 0) &&
      s.minArg == OrKept(FirstIntOf(c, MinArgKey), -1) &&
      s.maxArg == OrKept(FirstIntOf(c, MaxArgKey), -1)
    ensures var s := Load(name, root, privateJob, configFile, searchPath, fs, absPath, c).job;
      s.licensePath == (if s.maxRunning > 0 then Some(PrintS(root) + [PathSep] + name) else None)
  {
    var p := Prepared(name, root, privateJob, configFile, c);
    LoadedSteps(name, root, privateJob, configFile, searchPath, fs, absPath, c);
    PreparedFrame(name, root, privateJob, configFile, c);
    var entries := ArgTypeEntries(c);
    LaterStepsFrame(fs, ApplyArgTypes(p, entries, |entries|).value, c, searchPath, absPath);
  }

  /**
   * The lists of a loaded job: the arguments of the last ARGLIST line, and
   * ENV, EXEC_ENV and DEFAULT lines inserted in file order into empty maps.
   */
  lemma LoadedLists(name: string, root: Option<string>, privateJob: bool, configFile: string, searchPath: bool,
                      fs: FileSystem, absPath: string -> string, c: Content)
    requires PathSearchFinds(fs)
    requires Load(name, root, privateJob, configFile, searchPath, fs, absPath, c).Loaded?
    ensures MinArgs(c, "ENV", 1) && MinArgs(c, "EXEC_ENV", 1) && MinArgs(c, "DEFAULT", 2)
    ensures var s := Load(name, root, privateJob, configFile, searchPath, fs, absPath, c).job;
      s.deprecatedArgv == (if Has(c, "ARGLIST") then Some(LastArgList(c)) else None) &&
      s.environment == EnvFrom(map[], c, "ENV") &&
      s.execEnv == EnvFrom(map[], c, "EXEC_ENV") &&
      s.defaultMapping == DefaultsFrom(map[], c)
  {
    var p := Prepared(name, root, privateJob, configFile, c);
    LoadedSteps(name, root, privateJob, configFile, searchPath, fs, absPath, c);
    PreparedFrame(name, root, privateJob, configFile, c);
    var entries := ArgTypeEntries(c);
    LaterStepsFrame(fs, ApplyArgTypes(p, entries, |entries|).value, c, searchPath, absPath);
    ListsMinArgs(c);
  }

  // ---------------------------------------------------------------------
  // The loader as it runs: the steps applied to an ExtJob object.

  /** STDOUT, or the default name when it is absent. */
  method ReadStdoutInto(job: ExtJob, c: Content)
    modifies job
    ensures job.State() == old(job.State()).(stdoutFile := ReadStdFiles(old(job.State()), c).stdoutFile)
  {
    var stdout := FirstOf(c, "STDOUT");
    if stdout.Some? {
      job.SetStdoutFile(stdout);
    } else {
      job.stdoutFile := Some(DefaultStdFile(job.name, StdoutSuffix));
    }
  }

  /** STDERR, or the default name when it is absent. */
  method ReadStderrInto(job: ExtJob, c: Content)
    modifies job
    ensures job.State() == old(job.State()).(stderrFile := ReadStdFiles(old(job.State()), c).stderrFile)
  {
    var stderr := FirstOf(c, "STDERR");
    if stderr.Some? {
      job.SetStderrFile(stderr.value);
    } else {
      job.stderrFile := Some(DefaultStdFile(job.name, StderrSuffix));
    }
  }

  method ReadStdFilesInto(job: ExtJob, c: Content)
    modifies job
    ensures job.State() == ReadStdFiles(old(job.State()), c)
  {
    var stdin := FirstOf(c, "STDIN");
    if stdin.Some? {
      job.SetStdinFile(stdin);
    }
    ReadStdoutInto(job, c);
    ReadStderrInto(job, c);
  }

  method ReadOtherFilesInto(job: ExtJob, c: Content)
    modifies job
    ensures job.State() == ReadOtherFiles(old(job.State()), c)
  {
    var errorFile := FirstOf(c, "ERROR_FILE");
    if errorFile.Some? {
      job.SetErrorFile(errorFile);
    }
    var targetFile := FirstOf(c, "TARGET_FILE");
    if targetFile.Some? {
      job.SetTargetFile(targetFile);
    }
    var startFile := FirstOf(c, "START_FILE");
    if startFile.Some? {
      job.SetStartFile(startFile);
    }
  }

  /** MAX_RUNNING, through ext_job_set_max_running. */
  method ReadMaxRunningInto(job: ExtJob, c: Content)
    modifies job
    ensures job.State() == old(job.State()).(maxRunning := ReadLimits(old(job.State()), c).maxRunning,
                                             licensePath := ReadLimits(old(job.State()), c).licensePath)
  {
    var maxRunning := FirstIntOf(c, "MAX_RUNNING");
    if maxRunning.Some? {
      job.SetMaxRunning(maxRunning.value);
    }
  }

  method ReadLimitsInto(job: ExtJob, c: Content)
    modifies job
    ensures job.State() == ReadLimits(old(job.State()), c)
  {
    ReadMaxRunningInto(job, c);
    var maxRunningMinutes := FirstIntOf(c, "MAX_RUNNING_MINUTES");
    if maxRunningMinutes.Some? {
      job.SetMaxRunningMinutes(maxRunningMinutes.value);
    }
    var minArg := FirstIntOf(c, MinArgKey);
    if minArg.Some? {
      job.SetMinArg(minArg.value);
    }
    var maxArg := FirstIntOf(c, MaxArgKey);
    if maxArg.Some? {
      job.SetMaxArg(maxArg.value);
    }
  }

  /** Once an ARG_TYPE entry aborts, the longer runs abort too. */
  lemma {:induction false} ArgTypesStayAborted(s: JobState, entries: seq<(int, string)>, i: nat, n: nat)
    requires i <= n <= |entries|
    requires ApplyArgTypes(s, entries, i).None?
    ensures ApplyArgTypes(s, entries, n).None?
    decreases n
  {
    if i < n {
      ArgTypesStayAborted(s, entries, i, n - 1);
    }
  }

  /** The ARG_TYPE loop; returns false where the process aborts. */
  method ArgTypesInto(job: ExtJob, entries: seq<(int, string)>) returns (ok: bool)
    modifies job
    ensures ok == ApplyArgTypes(old(job.State()), entries, |entries|).Some?
    ensures ok ==> job.State() == ApplyArgTypes(old(job.State()), entries, |entries|).value
  {
    ghost var s := job.State();
    for i := 0 to |entries|
      invariant ApplyArgTypes(s, entries, i).Some? && job.State() == ApplyArgTypes(s, entries, i).value
    {
      var iarg := entries[i].0;
      var argType := entries[i].1;
      ok := job.ISetArgTypeString(iarg, argType);
      if !ok {
        ArgTypesStayAborted(s, entries, i + 1, |entries|);
        return;
      }
    }
    ok := true;
  }

  /** The choice between EXECUTABLE and PORTABLE_EXE, then ext_job_set_executable. */
  method ReadExecutable(job: ExtJob, c: Content, fs: FileSystem, searchPath: bool, absPath: string -> string)
    requires PathSearchFinds(fs)
    modifies job
    ensures job.State() == ApplyExecutable(fs, old(job.State()), c, searchPath, absPath)
  {
    var execKey := ExecutableKey;
    var haveExecutable := Has(c, ExecutableKey);
    var havePortableExe := Has(c, PortableExeKey);
    if !haveExecutable && !havePortableExe {
      job.valid := false;
    } else if !haveExecutable && havePortableExe {
      execKey := PortableExeKey;
    }
    var last := LastOf(c, execKey);
    var executableRaw := FirstOf(c, execKey);
    if job.valid && last.Some? && executableRaw.Some? {
      var executable := absPath(last.value);
      job.SetExecutable(fs, executable, executableRaw, searchPath);
    }
  }

  /** ARGLIST: a copy of the arguments of its last occurrence. */
  method ReadArgList(job: ExtJob, c: Content)
    modifies job
    ensures Has(c, "ARGLIST") ==> job.State() == old(job.State()).(deprecatedArgv := Some(LastArgList(c)))
    ensures !Has(c, "ARGLIST") ==> job.State() == old(job.State())
  {
    if Has(c, "ARGLIST") {
      var argNode := LastArgList(c);
      var argv: seq<string> := [];
      for i := 0 to |argNode|
        invariant argv == argNode[..i]
      {
        argv := argv + [argNode[i]];
      }
      assert argNode[..|argNode|] == argNode;
      job.deprecatedArgv := Some(argv);
    }
  }

  /** The ENV or EXEC_ENV occurrences inserted into a hash in order. */
  method InsertSettings(env: map<string, Option<string>>, nodes: seq<seq<string>>) returns (r: map<string, Option<string>>)
    requires forall i :: 0 <= i < |nodes| ==> |nodes[i]| >= 1
    ensures r == EnvApplied(env, nodes)
  {
    r := env;
    for ivar := 0 to |nodes|
      invariant r == EnvApplied(env, nodes[..ivar])
    {
      var envNode := nodes[ivar];
      var key := envNode[0];
      if |envNode| > 1 {
        r := r[key := Some(envNode[1])];
      } else {
        r := r[key := None];
      }
      assert nodes[..ivar + 1][..ivar] == nodes[..ivar];
    }
    assert nodes[..|nodes|] == nodes;
  }

  /** The DEFAULT pairs inserted into the default mapping in order. */
  method InsertDefaults(m: map<string, string>, nodes: seq<seq<string>>) returns (r: map<string, string>)
    requires forall i :: 0 <= i < |nodes| ==> |nodes[i]| >= 2
    ensures r == DefaultsApplied(m, nodes)
  {
    r := m;
    for ivar := 0 to |nodes|
      invariant r == DefaultsApplied(m, nodes[..ivar])
    {
      var defaultNode := nodes[ivar];
      r := r[defaultNode[0] := defaultNode[1]];
      assert nodes[..ivar + 1][..ivar] == nodes[..ivar];
    }
    assert nodes[..|nodes|] == nodes;
  }

  /** ENV: every occurrence inserted into the environment. */
  method ReadEnvInto(job: ExtJob, c: Content)
    requires MinArgs(c, "ENV", 1)
    modifies job
    ensures job.State() == old(job.State()).(environment := EnvFrom(old(job.environment), c, "ENV"))
  {
    var env := InsertSettings(job.environment, Occurrences(c, "ENV"));
    job.environment := env;
  }

  /** EXEC_ENV: likewise into the execution environment. */
  method ReadExecEnvInto(job: ExtJob, c: Content)
    requires MinArgs(c, "EXEC_ENV", 1)
    modifies job
    ensures job.State() == old(job.State()).(execEnv := EnvFrom(old(job.execEnv), c, "EXEC_ENV"))
  {
    var execEnv := InsertSettings(job.execEnv, Occurrences(c, "EXEC_ENV"));
    job.execEnv := execEnv;
  }

  /** DEFAULT: every pair inserted into the default mapping. */
  method ReadDefaultsInto(job: ExtJob, c: Content)
    requires MinArgs(c, "DEFAULT", 2)
    modifies job
    ensures job.State() == old(job.State()).(defaultMapping := DefaultsFrom(old(job.defaultMapping), c))
  {
    var defaults := InsertDefaults(job.defaultMapping, Occurrences(c, "DEFAULT"));
    job.defaultMapping := defaults;
  }

  /** ARGLIST, then the ENV, EXEC_ENV and DEFAULT loops. */
  method ReadListsInto(job: ExtJob, c: Content)
    requires ListsFit(c)
    modifies job
    ensures job.State() == ReadLists(old(job.State()), c)
  {
    ListsMinArgs(c);
    ReadArgList(job, c);
    ReadEnvInto(job, c);
    ReadExecEnvInto(job, c);
    ReadDefaultsInto(job, c);
  }

  /**
   * ext_job_fscanf_alloc: the job when it loads, null when it is not
   * available, and `aborted` where the process aborts.
   */
  method FscanfAlloc(name: string, root: Option<string>, privateJob: bool, configFile: string, searchPath: bool,
                     fs: FileSystem, absPath: string -> string, c: Content) returns (job: ExtJob?, aborted: bool)
    requires PathSearchFinds(fs)
    ensures aborted == Load(name, root, privateJob, configFile, searchPath, fs, absPath, c).Aborted?
    ensures job != null <==> Load(name, root, privateJob, configFile, searchPath, fs, absPath, c).Loaded?
    ensures job != null ==> fresh(job) && job.State() == Load(name, root, privateJob, configFile, searchPath, fs, absPath, c).job
  {
    if !fs.readable(configFile) || !IsValid(c) {
      return null, false;
    }
    var j := new ExtJob.Alloc(name, root, privateJob);
    j.SetConfigFile(Some(configFile));
    ReadStdFilesInto(j, c);
    ReadOtherFilesInto(j, c);
    ReadLimitsInto(j, c);
    assert j.State() == Prepared(name, root, privateJob, configFile, c);
    var entries := ArgTypeEntries(c);
    var ok := ArgTypesInto(j, entries);
    if !ok {
      return null, true;
    }
    ReadExecutable(j, c, fs, searchPath, absPath);
    ReadListsInto(j, c);
    if !j.valid {
      return null, false;
    }
    return j, false;
  }
}
