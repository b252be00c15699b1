/**
 * The forward-model job descriptor of libres (libres/lib/job_queue/ext_job.cpp):
 * its fields and defaults, copying, the guarded setters, argument
 * resolution and the choice of executable.
 *
 * A NULL `char *` is `None`; a libres hash is a Dafny `map`; a
 * substitution list is an uninterpreted value, applied by the function
 * parameter `subst` for subst_list_alloc_filtered_string.
 */
module ExtJobs {
  import opened Wrappers
  import Records

  /** config_item_types, as far as argument types use them. */
  datatype ItemType =
    | ConfigString | ConfigInt | ConfigFloat | ConfigBool | ConfigRuntimeFile | ConfigRuntimeInt
    | ConfigPath | ConfigExistingPath | ConfigExecutable | ConfigIsoDate | ConfigInvalid

  /** The argument type names of job_kw_definitions.hpp. */
  const JobStringType := "STRING"
  const JobIntType := "INT"
  const JobFloatType := "FLOAT"
  const JobBoolType := "BOOL"
  const JobRuntimeFileType := "RUNTIME_FILE"
  const JobRuntimeIntType := "RUNTIME_INT"

  /** job_kw_get_type: a type name to its config type, CONFIG_INVALID for anything else. */
  function KwType(name: string): ItemType {
    if name == JobStringType then ConfigString
    else if name == JobIntType then ConfigInt
    else if name == JobFloatType then ConfigFloat
    else if name == JobBoolType then ConfigBool
    else if name == JobRuntimeFileType then ConfigRuntimeFile
    else if name == JobRuntimeIntType then ConfigRuntimeInt
    else ConfigInvalid
  }

  /** The type name an argument type is emitted as; None where the emitter aborts. */
  function TypeName(t: ItemType): Option<string> {
    match t
    case ConfigInt => Some(JobIntType)
    case ConfigFloat => Some(JobFloatType)
    case ConfigString => Some(JobStringType)
    case ConfigBool => Some(JobBoolType)
    case ConfigRuntimeFile => Some(JobRuntimeFileType)
    case ConfigRuntimeInt => Some(JobRuntimeIntType)
    case _ => None
  }

  /** The six names and the six emitted types are inverse to each other. */
  lemma TypeNameRoundTrip(name: string, t: ItemType)
    ensures KwType(name) != ConfigInvalid ==> TypeName(KwType(name)) == Some(name)
    ensures TypeName(t).Some? ==> KwType(TypeName(t).value) == t
    ensures TypeName(t).Some? <==> t in {ConfigString, ConfigInt, ConfigFloat, ConfigBool, ConfigRuntimeFile, ConfigRuntimeInt}
  {
  }

  /** An opaque subst_list_type; only its identity matters to this file. */
  datatype SubstList = SubstList(pairs: seq<(string, string)>)

  const NoStdFile := "null"
  const StdoutSuffix := "stdout"
  const StderrSuffix := "stderr"
  const DefaultHelpText := "No help text installed for this job."
  const PathSep := '/'

  /** What "%s" prints for a possibly NULL string (glibc prints "(null)"). */
  function PrintS(s: Option<string>): string {
    if s.None? then "(null)" else s.value
  }

  /** Every field of ext_job_struct that the code reads. */
  datatype JobState = JobState(
    name: string,
    executable: Option<string>,
    targetFile: Option<string>,
    errorFile: Option<string>,
    startFile: Option<string>,
    stdoutFile: Option<string>,
    stdinFile: Option<string>,
    stderrFile: Option<string>,
    licensePath: Option<string>,
    licenseRootPath: Option<string>,
    configFile: Option<string>,
    maxRunning: int,
    maxRunningMinutes: int,
    minArg: int,
    maxArg: int,
    argTypes: map<nat, ItemType>,
    argv: seq<string>,
    privateArgs: SubstList,
    defineArgs: Option<SubstList>,
    deprecatedArgv: Option<seq<string>>,
    environment: map<string, Option<string>>,
    defaultMapping: map<string, string>,
    execEnv: map<string, Option<string>>,
    helpText: Option<string>,
    privateJob: bool,
    valid: bool)

  /** ext_job_alloc: every file field NULL, no limits, an empty private substitution list, valid. */
  function Fresh(name: string, licenseRootPath: Option<string>, privateJob: bool): JobState {
    JobState(name, None, None, None, None, None, None, None, None, licenseRootPath, None,
             0, 0, -1, -1, map[], [], SubstList([]), None, None, map[], map[], map[], None, privateJob, true)
  }

  /** ext_job_alloc_copy: a fresh private job with the source's settings; argv and the define list are not copied. */
  function CopyOf(s: JobState): JobState {
    Fresh(s.name, s.licenseRootPath, true).(
      configFile := s.configFile, executable := s.executable, targetFile := s.targetFile,
      errorFile := s.errorFile, startFile := s.startFile, stdoutFile := s.stdoutFile,
      stdinFile := s.stdinFile, stderrFile := s.stderrFile, licensePath := s.licensePath,
      helpText := s.helpText, maxRunningMinutes := s.maxRunningMinutes, maxRunning := s.maxRunning,
      minArg := s.minArg, maxArg := s.maxArg, argTypes := s.argTypes, privateArgs := s.privateArgs,
      environment := s.environment, execEnv := s.execEnv, defaultMapping := s.defaultMapping,
      deprecatedArgv := s.deprecatedArgv)
  }

  /** ext_job_get_help_text */
  function HelpTextOf(s: JobState): string {
    if s.helpText.Some? then s.helpText.value else DefaultHelpText
  }

  /** int_vector_safe_iget on arg_types: CONFIG_STRING past the end. */
  function ArgTypeOf(s: JobState, index: nat): ItemType {
    if index in s.argTypes then s.argTypes[index] else ConfigString
  }

  /** ext_job_set_stdout_file: "null" leaves the field as it is (a NULL argument clears it). */
  function WithStdout(s: JobState, f: Option<string>): JobState {
    if f == Some(NoStdFile) then s else s.(stdoutFile := f)
  }

  /** ext_job_set_stderr_file: "null" leaves the field as it is. */
  function WithStderr(s: JobState, f: string): JobState {
    if f == NoStdFile then s else s.(stderrFile := Some(f))
  }

  /** root + SEP + name, as "%s%c%s" prints it. */
  function LicensePathFor(s: JobState): string {
    PrintS(s.licenseRootPath) + [PathSep] + s.name
  }

  /** ext_job_set_max_running */
  function WithMaxRunning(s: JobState, maxRunning: int): JobState {
    var t := s.(maxRunning := maxRunning);
    if maxRunning > 0 && t.licensePath.None? then t.(licensePath := Some(LicensePathFor(t))) else t
  }

  /** ext_job_iset_argtype_string: None where int_vector_iset aborts on a negative index. */
  function WithArgTypeName(s: JobState, iarg: int, typeName: string): Option<JobState> {
    var t := KwType(typeName);
    if t == ConfigInvalid then Some(s)
    else if iarg < 0 then None
    else Some(s.(argTypes := s.argTypes[iarg := t]))
  }

  /** ext_job_get_arglist: the deprecated argv when present, else argv. */
  function ArgListOf(s: JobState): seq<string> {
    if s.deprecatedArgv.Some? then s.deprecatedArgv.value else s.argv
  }

  /** __alloc_filtered_string: the private substitutions, then the global ones when there are any. */
  function FilterString(subst: (SubstList, string) -> string, s: string, privateArgs: SubstList, globalArgs: Option<SubstList>): string {
    var t := subst(privateArgs, s);
    if globalArgs.None? then t else subst(globalArgs.value, t)
  }

  /** One argument value: filtered, then replaced through the default mapping when it is a key there. */
  function ResolveArg(subst: (SubstList, string) -> string, s: JobState, globalArgs: Option<SubstList>, arg: string): string {
    var v := FilterString(subst, arg, s.privateArgs, globalArgs);
    if v in s.defaultMapping then s.defaultMapping[v] else v
  }

  function ResolveArgs(subst: (SubstList, string) -> string, s: JobState, globalArgs: Option<SubstList>, args: seq<string>): (r: seq<string>)
    ensures |r| == |args| && forall i :: 0 <= i < |args| ==> r[i] == ResolveArg(subst, s, globalArgs, args[i])
  {
    if |args| == 0 then []
    else ResolveArgs(subst, s, globalArgs, args[..|args| - 1]) + [ResolveArg(subst, s, globalArgs, args[|args| - 1])]
  }

  /** A fresh job, with no help text set, reports the fixed default text. */
  lemma FreshDefaults(name: string, root: Option<string>, privateJob: bool)
    ensures var s := Fresh(name, root, privateJob);
      HelpTextOf(s) == DefaultHelpText &&
      s.maxRunning == 0 && s.maxRunningMinutes == 0 && s.minArg == -1 && s.maxArg == -1 && s.valid &&
      s.executable.None? && s.stdoutFile.None? && s.stderrFile.None? && s.licensePath.None? &&
      forall i: nat :: ArgTypeOf(s, i) == ConfigString
  {
  }

  /** The copy is private and carries the source's settings, whatever the source. */
  lemma CopyKeepsSettings(s: JobState)
    ensures var c := CopyOf(s);
      c.privateJob && c.valid && c.argv == [] && c.defineArgs.None? &&
      c.environment == s.environment && c.execEnv == s.execEnv && c.defaultMapping == s.defaultMapping &&
      c.deprecatedArgv == s.deprecatedArgv && HelpTextOf(c) == HelpTextOf(s) &&
      c.stdoutFile == s.stdoutFile && c.licensePath == s.licensePath && c.maxRunning == s.maxRunning &&
      forall i: nat :: ArgTypeOf(c, i) == ArgTypeOf(s, i)
  {
  }

  /** STDOUT/STDERR "null" keeps the field; anything else replaces it. */
  lemma StdFilesGuarded(s: JobState, f: string)
    ensures WithStdout(s, Some(f)).stdoutFile == (if f == NoStdFile then s.stdoutFile else Some(f))
    ensures WithStderr(s, f).stderrFile == (if f == NoStdFile then s.stderrFile else Some(f))
    ensures WithStdout(s, Some(f)).(stdoutFile := s.stdoutFile) == s
    ensures WithStderr(s, f).(stderrFile := s.stderrFile) == s
  {
  }

  /**
   * max_running is always stored; the license path is created only for a
   * positive value and only when it is unset.
   */
  lemma MaxRunningLicense(s: JobState, n: int)
    ensures WithMaxRunning(s, n).maxRunning == n
    ensures s.licensePath.Some? ==> WithMaxRunning(s, n).licensePath == s.licensePath
    ensures n <= 0 ==> WithMaxRunning(s, n).licensePath == s.licensePath
    ensures n > 0 && s.licensePath.None? ==>
      WithMaxRunning(s, n).licensePath == Some(PrintS(s.licenseRootPath) + "/" + s.name)
  {
  }

  /** iset_argtype_string ignores unknown names and records a known one at its index. */
  lemma ArgTypeNameEffect(s: JobState, iarg: int, typeName: string)
    ensures KwType(typeName) == ConfigInvalid ==> WithArgTypeName(s, iarg, typeName) == Some(s)
    ensures KwType(typeName) != ConfigInvalid && iarg >= 0 ==>
      WithArgTypeName(s, iarg, typeName).Some? &&
      ArgTypeOf(WithArgTypeName(s, iarg, typeName).value, iarg) == KwType(typeName) &&
      forall j: nat :: j != iarg ==> ArgTypeOf(WithArgTypeName(s, iarg, typeName).value, j) == ArgTypeOf(s, j)
  {
  }

  /** util_is_abs_path */
  predicate IsAbsPath(p: string) {
    |p| > 0 && p[0] == PathSep
  }

  /** The file-system queries the job code makes. */
  datatype FileSystem = FileSystem(
    fileExists: string -> bool,                    // util_file_exists
    isExecutable: string -> bool,                  // util_is_executable
    realpath: string -> string,                    // util_alloc_realpath
    pathExecutable: string -> Option<string>,      // res_env_alloc_PATH_executable
    readable: string -> bool)                      // util_entry_readable

  /** What the PATH search returns is an existing file. */
  ghost predicate PathSearchFinds(fs: FileSystem) {
    forall p :: fs.pathExecutable(p).Some? ==> fs.fileExists(fs.pathExecutable(p).value)
  }

  /**
   * ext_job_set_executable as a function of the file system: the executable
   * and validity it leaves, from the ones it found. The PATH search calls
   * it again on the file found, without a raw input.
   */
  function ExecutableSpec(fs: FileSystem, exe: Option<string>, valid: bool, abs: string, input: Option<string>, searchPath: bool): (r: (Option<string>, bool))
    requires PathSearchFinds(fs)
    requires input.Some? || fs.fileExists(abs)
    decreases if input.Some? then 1 else 0
    // A job never becomes valid here, and it stays valid only with an
    // executable file found, or with the raw name when PATH is not searched.
    ensures r.1 ==> valid
    ensures r.1 ==>
      r.0.Some? &&
      (fs.isExecutable(r.0.value) || (input.Some? && r.0.value == input.value && !searchPath && !fs.fileExists(abs)))
  {
    var chosen: (Option<string>, bool) :=
      if fs.fileExists(abs) then (Some(fs.realpath(abs)), valid)
      else if IsAbsPath(input.value) then (exe, false)
      else if searchPath then
        (match fs.pathExecutable(input.value)
         case Some(p) => ExecutableSpec(fs, exe, valid, p, None, searchPath)
         case None => (exe, false))
      else (Some(input.value), valid);
    if chosen.0.Some? && fs.fileExists(abs) && !fs.isExecutable(chosen.0.value) then (chosen.0, false) else chosen
  }

  /** How the executable is chosen, case by case. */
  lemma ExecutableCases(fs: FileSystem, exe: Option<string>, valid: bool, abs: string, input: string, searchPath: bool)
    requires PathSearchFinds(fs)
    ensures fs.fileExists(abs) ==>
      ExecutableSpec(fs, exe, valid, abs, Some(input), searchPath)
        == (Some(fs.realpath(abs)), valid && fs.isExecutable(fs.realpath(abs)))
    ensures !fs.fileExists(abs) && IsAbsPath(input) ==>
      ExecutableSpec(fs, exe, valid, abs, Some(input), searchPath) == (exe, false)
    ensures !fs.fileExists(abs) && !IsAbsPath(input) && !searchPath ==>
      ExecutableSpec(fs, exe, valid, abs, Some(input), searchPath) == (Some(input), valid)
    ensures !fs.fileExists(abs) && !IsAbsPath(input) && searchPath && fs.pathExecutable(input).None? ==>
      ExecutableSpec(fs, exe, valid, abs, Some(input), searchPath) == (exe, false)
    ensures !fs.fileExists(abs) && !IsAbsPath(input) && searchPath && fs.pathExecutable(input).Some? ==>
      var p := fs.pathExecutable(input).value;
      ExecutableSpec(fs, exe, valid, abs, Some(input), searchPath) == (Some(fs.realpath(p)), valid && fs.isExecutable(fs.realpath(p)))
  {
    if !fs.fileExists(abs) && !IsAbsPath(input) && searchPath && fs.pathExecutable(input).Some? {
      var p := fs.pathExecutable(input).value;
      assert fs.fileExists(p);
      assert ExecutableSpec(fs, exe, valid, p, None, searchPath) == (Some(fs.realpath(p)), valid && fs.isExecutable(fs.realpath(p)));
    }
  }

  /** A copy of a hash, entry by entry, in whatever order the iterator gives. */
  method CopyHash<V>(src: map<string, V>) returns (dst: map<string, V>)
    ensures dst == src
  {
    dst := map[];
    var rest := src.Keys;
    while rest != {}
      invariant rest <= src.Keys
      invariant forall k :: k in dst <==> k in src && k !in rest
      invariant forall k :: k in dst ==> k in src && dst[k] == src[k]
      decreases rest
    {
      var key :| key in rest;
      dst := dst[key := src[key]];
      rest := rest - {key};
    }
    assert dst.Keys == src.Keys;
  }

  class ExtJob {
    const name: string
    const licenseRootPath: Option<string>
    var executable: Option<string>
    var targetFile: Option<string>
    var errorFile: Option<string>
    var startFile: Option<string>
    var stdoutFile: Option<string>
    var stdinFile: Option<string>
    var stderrFile: Option<string>
    var licensePath: Option<string>
    var configFile: Option<string>
    var maxRunning: int
    var maxRunningMinutes: int
    var minArg: int
    var maxArg: int
    var argTypes: map<nat, ItemType>
    var argv: seq<string>
    var privateArgs: SubstList
    var defineArgs: Option<SubstList>
    var deprecatedArgv: Option<seq<string>>
    var environment: map<string, Option<string>>
    var defaultMapping: map<string, string>
    var execEnv: map<string, Option<string>>
    var helpText: Option<string>
    var privateJob: bool
    var valid: bool

    /** The job's fields as one value. */
    function State(): JobState
      reads this
    {
      JobState(name, executable, targetFile, errorFile, startFile, stdoutFile, stdinFile, stderrFile,
               licensePath, licenseRootPath, configFile, maxRunning, maxRunningMinutes, minArg, maxArg,
               argTypes, argv, privateArgs, defineArgs, deprecatedArgv, environment, defaultMapping,
               execEnv, helpText, privateJob, valid)
    }

    /** ext_job_alloc */
    constructor Alloc(name: string, licenseRootPath: Option<string>, privateJob: bool)
      ensures State() == Fresh(name, licenseRootPath, privateJob)
    {
      this.name := name;
      this.licenseRootPath := licenseRootPath;
      executable := None;
      stdoutFile := None;
      targetFile := None;
      errorFile := None;
      startFile := None;
      stdinFile := None;
      stderrFile := None;
      environment := map[];
      defaultMapping := map[];
      execEnv := map[];
      argv := [];
      defineArgs := None;
      deprecatedArgv := None;
      valid := true;
      licensePath := None;
      configFile := None;
      maxRunning := 0;
      maxRunningMinutes := 0;
      minArg := -1;
      maxArg := -1;
      argTypes := map[];
      this.privateJob := privateJob;
      helpText := None;
      privateArgs := SubstList([]);
    }

    /** ext_job_alloc_copy */
    constructor Copy(src: ExtJob)
      ensures State() == CopyOf(old(src.State()))
    {
      var env := CopyHash(src.environment);
      var exec := CopyHash(src.execEnv);
      var defaults := CopyHash(src.defaultMapping);
      name := src.name;
      licenseRootPath := src.licenseRootPath;
      argv := [];
      defineArgs := None;
      valid := true;
      privateJob := true;
      configFile := src.configFile;
      executable := src.executable;
      targetFile := src.targetFile;
      errorFile := src.errorFile;
      startFile := src.startFile;
      stdoutFile := src.stdoutFile;
      stdinFile := src.stdinFile;
      stderrFile := src.stderrFile;
      licensePath := src.licensePath;
      helpText := src.helpText;
      maxRunningMinutes := src.maxRunningMinutes;
      maxRunning := src.maxRunning;
      minArg := src.minArg;
      maxArg := src.maxArg;
      argTypes := src.argTypes;
      privateArgs := src.privateArgs;
      environment := env;
      execEnv := exec;
      defaultMapping := defaults;
      deprecatedArgv := src.deprecatedArgv;
    }

    function HelpText(): (t: string)
      reads this
      ensures t == HelpTextOf(State())
    {
      if helpText.Some? then helpText.value else DefaultHelpText
    }

    method SetHelpText(text: Option<string>)
      modifies this
      ensures State() == old(State()).(helpText := text)
    {
      helpText := text;
    }

    method FreeDeprecatedArgv()
      modifies this
      ensures State() == old(State()).(deprecatedArgv := None)
    {
      deprecatedArgv := None;
    }

    method SetArgs(args: seq<string>)
      modifies this
      ensures State() == old(State()).(argv := args)
    {
      argv := args;
    }

    method SetConfigFile(f: Option<string>)
      modifies this
      ensures State() == old(State()).(configFile := f)
    {
      configFile := f;
    }

    method SetTargetFile(f: Option<string>)
      modifies this
      ensures State() == old(State()).(targetFile := f)
    {
      targetFile := f;
    }

    method SetErrorFile(f: Option<string>)
      modifies this
      ensures State() == old(State()).(errorFile := f)
    {
      errorFile := f;
    }

    method SetStartFile(f: Option<string>)
      modifies this
      ensures State() == old(State()).(startFile := f)
    {
      startFile := f;
    }

    method SetStdinFile(f: Option<string>)
      modifies this
      ensures State() == old(State()).(stdinFile := f)
    {
      stdinFile := f;
    }

    method SetStdoutFile(f: Option<string>)
      modifies this
      ensures State() == WithStdout(old(State()), f)
    {
      if f != Some(NoStdFile) {
        stdoutFile := f;
      }
    }

    /** strcmp on the argument: it must not be NULL. */
    method SetStderrFile(f: string)
      modifies this
      ensures State() == WithStderr(old(State()), f)
    {
      if f != NoStdFile {
        stderrFile := Some(f);
      }
    }

    /** ext_job_init_license_control, without creating the directory. */
    method InitLicenseControl()
      modifies this
      ensures old(licensePath).None? ==> State() == old(State()).(licensePath := Some(LicensePathFor(old(State()))))
      ensures old(licensePath).Some? ==> State() == old(State())
    {
      if licensePath.None? {
        licensePath := Some(PrintS(licenseRootPath) + [PathSep] + name);
      }
    }

    method SetMaxRunning(n: int)
      modifies this
      ensures State() == WithMaxRunning(old(State()), n)
    {
      maxRunning := n;
      if n > 0 {
        InitLicenseControl();
      }
    }

    /** ext_job_set_max_time and ext_job_set_max_running_minutes */
    method SetMaxRunningMinutes(n: int)
      modifies this
      ensures State() == old(State()).(maxRunningMinutes := n)
    {
      maxRunningMinutes := n;
    }

    method SetMinArg(n: int)
      modifies this
      ensures State() == old(State()).(minArg := n)
    {
      minArg := n;
    }

    method SetMaxArg(n: int)
      modifies this
      ensures State() == old(State()).(maxArg := n)
    {
      maxArg := n;
    }

    method SetPrivateArg(key: string, value: string)
      modifies this
      ensures State() == old(State()).(privateArgs := SubstList(old(privateArgs.pairs) + [(key, value)]))
    {
      privateArgs := SubstList(privateArgs.pairs + [(key, value)]);
    }

    /** ext_job_set_private_args_from_string: the list is cleared, then filled by the parser `parse`. */
    method SetPrivateArgsFromString(argString: string, parse: string -> seq<(string, string)>)
      modifies this
      ensures State() == old(State()).(privateArgs := SubstList(parse(argString)))
    {
      privateArgs := SubstList([]);
      privateArgs := SubstList(privateArgs.pairs + parse(argString));
    }

    method SetDefineArgs(d: SubstList)
      modifies this
      ensures State() == old(State()).(defineArgs := Some(d))
    {
      defineArgs := Some(d);
    }

    method AddEnvironment(key: string, value: Option<string>)
      modifies this
      ensures State() == old(State()).(environment := old(environment)[key := value])
    {
      environment := environment[key := value];
    }

    method ClearEnvironment()
      modifies this
      ensures State() == old(State()).(environment := map[])
    {
      environment := map[];
    }

    function IGetArgType(index: nat): (t: ItemType)
      reads this
      ensures t == ArgTypeOf(State(), index)
    {
      if index in argTypes then argTypes[index] else ConfigString
    }

    /** Returns false where the process aborts. */
    method ISetArgTypeString(iarg: int, typeName: string) returns (ok: bool)
      modifies this
      ensures ok == WithArgTypeName(old(State()), iarg, typeName).Some?
      ensures ok ==> State() == WithArgTypeName(old(State()), iarg, typeName).value
    {
      var t := KwType(typeName);
      ok := true;
      if t != ConfigInvalid {
        if iarg < 0 {
          return false;
        }
        argTypes := argTypes[iarg := t];
      }
    }

    method SetExecutable(fs: FileSystem, abs: string, input: Option<string>, searchPath: bool)
      requires PathSearchFinds(fs)
      requires input.Some? || fs.fileExists(abs)
      modifies this
      ensures State() == old(State()).(executable := ExecutableSpec(fs, old(executable), old(valid), abs, input, searchPath).0,
                                       valid := ExecutableSpec(fs, old(executable), old(valid), abs, input, searchPath).1)
      decreases if input.Some? then 1 else 0
    {
      if fs.fileExists(abs) {
        executable := Some(fs.realpath(abs));
      } else if IsAbsPath(input.value) {
        valid := false;
      } else {
        if searchPath {
          var found := fs.pathExecutable(input.value);
          if found.Some? {
            SetExecutable(fs, found.value, None, searchPath);
          } else {
            valid := false;
          }
        } else {
          executable := input;
        }
      }
      if executable.Some? && fs.fileExists(abs) && !fs.isExecutable(executable.value) {
        valid := false;
      }
    }

    function ArgList(): (args: seq<string>)
      reads this
      ensures args == ArgListOf(State())
    {
      if deprecatedArgv.Some? then deprecatedArgv.value else argv
    }

    /** ext_job_get_argvalues: one resolved value per argument, in order, against the define list. */
    method ArgValues(subst: (SubstList, string) -> string) returns (result: seq<string>)
      ensures |result| == |ArgListOf(State())|
      ensures forall i :: 0 <= i < |result| ==> result[i] == ResolveArg(subst, State(), defineArgs, ArgListOf(State())[i])
      ensures result == ResolveArgs(subst, State(), defineArgs, ArgListOf(State()))
    {
      result := [];
      var args := ArgList();
      for i := 0 to |args|
        invariant |result| == i
        invariant forall j :: 0 <= j < i ==> result[j] == ResolveArg(subst, State(), defineArgs, args[j])
      {
        var filtered := FilterString(subst, args[i], privateArgs, defineArgs);
        if filtered in defaultMapping {
          filtered := defaultMapping[filtered];
        }
        result := result + [filtered];
      }
    }

    /** ext_job_is_shared: a job is shared exactly when it was not loaded as private. */
    predicate IsShared()
      reads this
      ensures IsShared() <==> !State().privateJob
    {
      !privateJob
    }

    /** ext_job_is_private: the private flag the job was allocated or copied with. */
    predicate IsPrivate()
      reads this
      ensures IsPrivate() <==> State().privateJob
    {
      privateJob
    }
  }
}
