/**
 * How a job descriptor is written out (libres/lib/job_queue/ext_job.cpp):
 * the python/JSON fragments of ext_job_json_fprintf, the filtered
 * environment hashes, and the entries ext_job_save writes back.
 *
 * The output file is a `Stream` whose text grows by each fprintf. The
 * iteration order of a hash is a parameter: a sequence that lists the
 * hash's keys once each.
 */
module ExtJobEmit {
  import opened Wrappers
  import Text
  import opened Records
  import opened ExtJobs

  /** The `null_value` of ext_job_json_fprintf. */
  const NullValue := "null"
  /** The environment value that stands for "no value". */
  const NullLiteral := "null"

  class Stream {
    var text: string

    constructor()
      ensures text == []
    {
      text := [];
    }

    /** One fprintf. */
    method Write(s: string)
      modifies this
      ensures text == old(text) + s
    {
      text := text + s;
    }
  }

  function Quote(s: string): string {
    "\"" + s + "\""
  }

  /** prefix"id" : */
  function Field(prefix: string, id: string): string {
    prefix + Quote(id) + " : "
  }

  /** The parts separated by `sep`. */
  function Join(sep: string, parts: seq<string>): string
    decreases |parts|
  {
    if |parts| == 0 then ""
    else if |parts| == 1 then parts[0]
    else Join(sep, parts[..|parts| - 1]) + sep + parts[|parts| - 1]
  }

  function Quoted(parts: seq<string>): (r: seq<string>)
    ensures |r| == |parts| && forall i :: 0 <= i < |parts| ==> r[i] == Quote(parts[i])
  {
    seq(|parts|, i requires 0 <= i < |parts| => Quote(parts[i]))
  }

  predicate Infix(a: string, b: string) {
    exists i, j :: 0 <= i <= j <= |b| && b[i..j] == a
  }

  lemma InfixMiddle(x: string, a: string, y: string)
    ensures Infix(a, x + a + y)
  {
    var b := x + a + y;
    assert b[|x|..|x| + |a|] == a;
  }

  lemma InfixExtend(a: string, b: string, x: string, y: string)
    requires Infix(a, b)
    ensures Infix(a, x + b + y)
  {
    var i, j :| 0 <= i <= j <= |b| && b[i..j] == a;
    var c := x + b + y;
    assert c[|x| + i..|x| + j] == b[i..j];
  }

  /** Every part can be found in the joined text. */
  lemma {:induction false} JoinContains(sep: string, parts: seq<string>, k: int)
    requires 0 <= k < |parts|
    ensures Infix(parts[k], Join(sep, parts))
    decreases |parts|
  {
    if |parts| == 1 {
      InfixMiddle("", parts[0], "");
      assert "" + parts[0] + "" == parts[0];
    } else if k == |parts| - 1 {
      InfixMiddle(Join(sep, parts[..|parts| - 1]) + sep, parts[k], "");
      assert Join(sep, parts[..|parts| - 1]) + sep + parts[k] + "" == Join(sep, parts);
    } else {
      var init := parts[..|parts| - 1];
      assert init[k] == parts[k];
      JoinContains(sep, init, k);
      InfixExtend(parts[k], Join(sep, init), "", sep + parts[|parts| - 1]);
      assert "" + Join(sep, init) + (sep + parts[|parts| - 1]) == Join(sep, parts);
    }
  }

  lemma JoinSnoc(sep: string, parts: seq<string>, p: string)
    ensures Join(sep, parts + [p]) == (if |parts| == 0 then p else Join(sep, parts) + sep + p)
  {
    var all := parts + [p];
    assert all[..|all| - 1] == parts;
  }

  /** __fprintf_python_string */
  function PythonStringText(prefix: string, id: string, value: Option<string>, suffix: string,
                            subst: (SubstList, string) -> string, privateArgs: SubstList,
                            globalArgs: Option<SubstList>, nullValue: string): string {
    Field(prefix, id) +
    (if value.None? then nullValue else Quote(FilterString(subst, value.value, privateArgs, globalArgs))) +
    suffix
  }

  /** A filtered hash leaves out a value of the form <...> that no substitution replaced. */
  predicate Angular(fv: string) {
    |fv| > 0 && fv[0] == '<' && fv[|fv| - 1] == '>'
  }

  predicate IsNullEntry(v: Option<string>) {
    v.None? || v == Some(NullLiteral)
  }

  predicate KeptEntry(v: Option<string>, includeAngular: bool, subst: (SubstList, string) -> string,
                      privateArgs: SubstList, globalArgs: Option<SubstList>) {
    IsNullEntry(v) || includeAngular || !Angular(FilterString(subst, v.value, privateArgs, globalArgs))
  }

  /** __alloc_filtered_hash */
  function FilteredHash(input: map<string, Option<string>>, includeAngular: bool,
                        subst: (SubstList, string) -> string, privateArgs: SubstList,
                        globalArgs: Option<SubstList>): map<string, Option<string>> {
    map k | k in input && KeptEntry(input[k], includeAngular, subst, privateArgs, globalArgs) ::
      if IsNullEntry(input[k]) then None else Some(FilterString(subst, input[k].value, privateArgs, globalArgs))
  }

  /**
   * A key survives filtering unless its filtered value is still an
   * unreplaced <...> (and angular values are excluded); NULL and "null"
   * become a NULL entry, everything else its filtered value.
   */
  lemma FilteredHashEntries(input: map<string, Option<string>>, includeAngular: bool,
                            subst: (SubstList, string) -> string, privateArgs: SubstList,
                            globalArgs: Option<SubstList>, k: string)
    ensures var h := FilteredHash(input, includeAngular, subst, privateArgs, globalArgs);
      (k in h <==> k in input && (IsNullEntry(input[k]) || includeAngular ||
                                   !Angular(FilterString(subst, input[k].value, privateArgs, globalArgs)))) &&
      (k in h ==> (h[k].None? <==> IsNullEntry(input[k]))) &&
      (k in h && h[k].Some? ==> h[k].value == FilterString(subst, input[k].value, privateArgs, globalArgs))
    ensures includeAngular ==> FilteredHash(input, includeAngular, subst, privateArgs, globalArgs).Keys == input.Keys
  {
  }

  method AllocFilteredHash(input: map<string, Option<string>>, includeAngular: bool,
                           subst: (SubstList, string) -> string, privateArgs: SubstList,
                           globalArgs: Option<SubstList>) returns (output: map<string, Option<string>>)
    ensures output == FilteredHash(input, includeAngular, subst, privateArgs, globalArgs)
  {
    ghost var h := FilteredHash(input, includeAngular, subst, privateArgs, globalArgs);
    output := map[];
    var rest := input.Keys;
    while rest != {}
      invariant rest <= input.Keys
      invariant forall k :: k in output <==> k in h && k !in rest
      invariant forall k :: k in output ==> output[k] == h[k]
      decreases rest
    {
      var key :| key in rest;
      var value := input[key];
      if value.None? || value.value == NullLiteral {
        output := output[key := None];
      } else {
        var fv := FilterString(subst, value.value, privateArgs, globalArgs);
        if includeAngular {
          output := output[key := Some(fv)];
        } else if !(|fv| > 0 && fv[0] == '<' && fv[|fv| - 1] == '>') {
          output := output[key := Some(fv)];
        }
      }
      rest := rest - {key};
    }
    assert output.Keys == h.Keys;
  }


  /** `order` lists the keys of `h`, each once. */
  predicate Enumerates<V>(order: seq<string>, h: map<string, V>) {
    Distinct(order) && (forall k :: k in order ==> k in h) && (forall k :: k in h ==> k in order)
  }

  /** One entry of a printed hash. */
  function EntryText(h: map<string, Option<string>>, k: string, nullValue: string): string {
    Quote(k) + " : " + (if k in h && h[k].Some? then Quote(h[k].value) else nullValue)
  }

  function EntryTexts(h: map<string, Option<string>>, keys: seq<string>, nullValue: string): (r: seq<string>)
    ensures |r| == |keys| && forall i :: 0 <= i < |keys| ==> r[i] == EntryText(h, keys[i], nullValue)
  {
    seq(|keys|, i requires 0 <= i < |keys| => EntryText(h, keys[i], nullValue))
  }

  /** A filtered hash in braces, or the null value when it is empty. */
  function HashBodyText(h: map<string, Option<string>>, order: seq<string>, nullValue: string): string {
    if |h| > 0 then "{" + Join(",", EntryTexts(h, order, nullValue)) + "}" else nullValue
  }

  /** __fprintf_python_hash */
  function PythonHashText(prefix: string, id: string, input: map<string, Option<string>>, suffix: string,
                          subst: (SubstList, string) -> string, privateArgs: SubstList,
                          globalArgs: Option<SubstList>, nullValue: string, order: seq<string>): string
    requires Enumerates(order, FilteredHash(input, false, subst, privateArgs, globalArgs))
  {
    Field(prefix, id) + HashBodyText(FilteredHash(input, false, subst, privateArgs, globalArgs), order, nullValue) + suffix
  }

  /** Every entry of a non-empty hash is printed between the braces. */
  lemma HashBodyLists(h: map<string, Option<string>>, order: seq<string>, nullValue: string, k: string)
    requires Enumerates(order, h)
    ensures k in h ==> Infix(EntryText(h, k, nullValue), HashBodyText(h, order, nullValue))
    ensures |h| == 0 ==> HashBodyText(h, order, nullValue) == nullValue
  {
    if k in h {
      assert |h| > 0 by {
        assert k in h.Keys;
      }
      var i :| 0 <= i < |order| && order[i] == k;
      var parts := EntryTexts(h, order, nullValue);
      JoinContains(",", parts, i);
      InfixExtend(parts[i], Join(",", parts), "{", "}");
    }
  }

  /** Every entry that survives filtering is printed, and an empty hash prints the null value. */
  lemma HashPrintsEntries(prefix: string, id: string, input: map<string, Option<string>>, suffix: string,
                          subst: (SubstList, string) -> string, privateArgs: SubstList,
                          globalArgs: Option<SubstList>, nullValue: string, order: seq<string>, k: string)
    requires Enumerates(order, FilteredHash(input, false, subst, privateArgs, globalArgs))
    ensures var h := FilteredHash(input, false, subst, privateArgs, globalArgs);
      var text := PythonHashText(prefix, id, input, suffix, subst, privateArgs, globalArgs, nullValue, order);
      (k in h ==> Infix(EntryText(h, k, nullValue), text)) &&
      (|h| == 0 ==> text == Field(prefix, id) + nullValue + suffix)
  {
    var h := FilteredHash(input, false, subst, privateArgs, globalArgs);
    HashBodyLists(h, order, nullValue, k);
    if k in h {
      InfixExtend(EntryText(h, k, nullValue), HashBodyText(h, order, nullValue), Field(prefix, id), suffix);
    }
  }

  /** __fprintf_python_int */
  function PythonIntText(prefix: string, key: string, value: int, suffix: string, nullValue: string): string {
    prefix + Quote(key) + " : " + (if value > 0 then Text.IntToString(value) else nullValue) + suffix
  }

  /** A positive value is printed in decimal and reads back as itself; any other prints the null value. */
  lemma PythonIntReadsBack(prefix: string, key: string, value: int, suffix: string, nullValue: string)
    ensures value > 0 ==> exists digits ::
      PythonIntText(prefix, key, value, suffix, nullValue) == prefix + Quote(key) + " : " + digits + suffix &&
      Text.ParseInt(digits) == Some(value)
    ensures value <= 0 ==> PythonIntText(prefix, key, value, suffix, nullValue) == prefix + Quote(key) + " : " + nullValue + suffix
  {
    if value > 0 {
      Text.IntToStringRoundTrip(value);
      var digits := Text.IntToString(value);
      assert PythonIntText(prefix, key, value, suffix, nullValue) == prefix + Quote(key) + " : " + digits + suffix;
    }
  }

  /** __fprintf_python_argList: the resolved arguments against the global substitutions. */
  function ArgListText(prefix: string, s: JobState, suffix: string,
                       subst: (SubstList, string) -> string, globalArgs: Option<SubstList>): string {
    prefix + Quote("argList") + " : " + "[" + Join(",", Quoted(ResolveArgs(subst, s, globalArgs, ArgListOf(s)))) + "]" + suffix
  }

  /** The type names of the first n arguments; None when one of them has no name. */
  function ArgTypeNames(s: JobState, n: nat): (r: Option<seq<string>>)
    ensures r.Some? <==> forall i :: 0 <= i < n ==> TypeName(ArgTypeOf(s, i)).Some?
    ensures r.Some? ==> |r.value| == n && forall i :: 0 <= i < n ==> Some(r.value[i]) == TypeName(ArgTypeOf(s, i))
  {
    if n == 0 then Some([])
    else
      var init := ArgTypeNames(s, n - 1);
      var last := TypeName(ArgTypeOf(s, n - 1));
      if init.None? || last.None? then None else Some(init.value + [last.value])
  }

  function ArgCount(maxArg: int): nat {
    if maxArg > 0 then maxArg else 0
  }

  /** __fprintf_python_arg_types; None where it aborts on an unknown type. */
  function ArgTypesText(prefix: string, key: string, s: JobState, suffix: string): Option<string> {
    var names := ArgTypeNames(s, ArgCount(s.maxArg));
    if names.None? then None
    else Some(prefix + Quote(key) + " : [" + Join(", ", Quoted(names.value)) + "]" + suffix)
  }

  /** Every stored argument type has a name. */
  ghost predicate KnownTypes(s: JobState) {
    forall i :: i in s.argTypes ==> TypeName(s.argTypes[i]).Some?
  }

  /**
   * The argument types of a job come only from ext_job_iset_argtype_string,
   * so every one of them has a name: fresh jobs, copies and every setting
   * keep that, and such a job's types are always printed.
   */
  lemma KnownTypesKept(s: JobState, name: string, root: Option<string>, privateJob: bool, iarg: int, typeName: string)
    ensures KnownTypes(Fresh(name, root, privateJob))
    ensures KnownTypes(s) ==> KnownTypes(CopyOf(s))
    ensures KnownTypes(s) && WithArgTypeName(s, iarg, typeName).Some? ==> KnownTypes(WithArgTypeName(s, iarg, typeName).value)
    ensures KnownTypes(s) ==> ArgTypeNames(s, ArgCount(s.maxArg)).Some?
  {
    if KnownTypes(s) && WithArgTypeName(s, iarg, typeName).Some? {
      var t := WithArgTypeName(s, iarg, typeName).value;
      forall i | i in t.argTypes
        ensures TypeName(t.argTypes[i]).Some?
      {
        if i != iarg {
          assert t.argTypes[i] == s.argTypes[i];
        } else if KwType(typeName) != ConfigInvalid {
          TypeNameRoundTrip(typeName, t.argTypes[i]);
        }
      }
    }
    if KnownTypes(s) {
      forall i | 0 <= i < ArgCount(s.maxArg)
        ensures TypeName(ArgTypeOf(s, i)).Some?
      {
      }
    }
  }

  /** "%s.%d" of a standard stream file and the job index. */
  function StdIndex(f: Option<string>, jobIndex: int): string {
    PrintS(f) + "." + Text.IntToString(jobIndex)
  }

  /** The first fragments ext_job_json_fprintf writes, up to the stdout entry. */
  function JsonHead(s: JobState, subst: (SubstList, string) -> string, globalArgs: Option<SubstList>): string {
    var p := s.privateArgs;
    " {" +
    PythonStringText("", "name", Some(s.name), ",\n", subst, p, None, NullValue) +
    PythonStringText("  ", "executable", s.executable, ",\n", subst, p, globalArgs, NullValue) +
    PythonStringText("  ", "target_file", s.targetFile, ",\n", subst, p, globalArgs, NullValue) +
    PythonStringText("  ", "error_file", s.errorFile, ",\n", subst, p, globalArgs, NullValue) +
    PythonStringText("  ", "start_file", s.startFile, ",\n", subst, p, globalArgs, NullValue)
  }

  /** The stream, argument and environment entries of ext_job_json_fprintf. */
  function JsonMiddle(s: JobState, jobIndex: int, subst: (SubstList, string) -> string, globalArgs: Option<SubstList>,
                      envOrder: seq<string>, execOrder: seq<string>): string
    requires Enumerates(envOrder, FilteredHash(s.environment, false, subst, s.privateArgs, globalArgs))
    requires Enumerates(execOrder, FilteredHash(s.execEnv, false, subst, s.privateArgs, globalArgs))
  {
    var p := s.privateArgs;
    PythonStringText("  ", "stdout", Some(StdIndex(s.stdoutFile, jobIndex)), ",\n", subst, p, globalArgs, NullValue) +
    PythonStringText("  ", "stderr", Some(StdIndex(s.stderrFile, jobIndex)), ",\n", subst, p, globalArgs, NullValue) +
    PythonStringText("  ", "stdin", s.stdinFile, ",\n", subst, p, globalArgs, NullValue) +
    ArgListText("  ", s, ",\n", subst, globalArgs) +
    PythonHashText("  ", "environment", s.environment, ",\n", subst, p, globalArgs, NullValue, envOrder) +
    PythonHashText("  ", "exec_env", s.execEnv, ",\n", subst, p, globalArgs, NullValue, execOrder)
  }

  /** The license path and the limits that ext_job_json_fprintf writes before the argument types. */
  function JsonLimits(s: JobState, subst: (SubstList, string) -> string, globalArgs: Option<SubstList>): string {
    PythonStringText("  ", "license_path", s.licensePath, ",\n", subst, s.privateArgs, globalArgs, NullValue) +
    PythonIntText("  ", "max_running_minutes", s.maxRunningMinutes, ",\n", NullValue) +
    PythonIntText("  ", "max_running", s.maxRunning, ",\n", NullValue) +
    PythonIntText("  ", "min_arg", s.minArg, ",\n", NullValue)
  }

  /** Everything ext_job_json_fprintf writes before the argument types. */
  function JsonFront(s: JobState, jobIndex: int, subst: (SubstList, string) -> string, globalArgs: Option<SubstList>,
                     envOrder: seq<string>, execOrder: seq<string>): string
    requires Enumerates(envOrder, FilteredHash(s.environment, false, subst, s.privateArgs, globalArgs))
    requires Enumerates(execOrder, FilteredHash(s.execEnv, false, subst, s.privateArgs, globalArgs))
  {
    JsonHead(s, subst, globalArgs) +
    JsonMiddle(s, jobIndex, subst, globalArgs, envOrder, execOrder) +
    JsonLimits(s, subst, globalArgs)
  }

  /** The printed argument types, the last limit and the closing brace. */
  function JsonTail(s: JobState, typesText: string): string {
    typesText + PythonIntText("  ", "max_arg", s.maxArg, "\n", NullValue) + "}"
  }

  /** What ext_job_json_fprintf writes, given the printed argument types. */
  function JsonBody(s: JobState, jobIndex: int, subst: (SubstList, string) -> string, globalArgs: Option<SubstList>,
                    envOrder: seq<string>, execOrder: seq<string>, typesText: string): string
    requires Enumerates(envOrder, FilteredHash(s.environment, false, subst, s.privateArgs, globalArgs))
    requires Enumerates(execOrder, FilteredHash(s.execEnv, false, subst, s.privateArgs, globalArgs))
  {
    JsonFront(s, jobIndex, subst, globalArgs, envOrder, execOrder) + JsonTail(s, typesText)
  }

  /**
   * ext_job_json_fprintf writes the job unless one of its first max_arg types
   * has no name, and a job whose types all have names is always written.
   */
  lemma JsonWritten(s: JobState)
    ensures ArgTypesText("  ", "arg_types", s, ",\n").Some? <==> ArgTypeNames(s, ArgCount(s.maxArg)).Some?
    ensures KnownTypes(s) ==> ArgTypesText("  ", "arg_types", s, ",\n").Some?
  {
    KnownTypesKept(s, s.name, s.licenseRootPath, s.privateJob, 0, "");
  }

  lemma InfixSelf(a: string)
    ensures Infix(a, a)
  {
    assert a[0..|a|] == a;
  }

  lemma InfixPrepend(a: string, x: string, b: string)
    requires Infix(a, b)
    ensures Infix(a, x + b)
  {
    var i, j :| 0 <= i <= j <= |b| && b[i..j] == a;
    assert (x + b)[|x| + i..|x| + j] == b[i..j];
  }

  lemma InfixAppend(a: string, b: string, c: string)
    requires Infix(a, b)
    ensures Infix(a, b + c)
  {
    var i, j :| 0 <= i <= j <= |b| && b[i..j] == a;
    assert (b + c)[i..j] == b[i..j];
  }

  /** The stdout entry is a quoted "<file>.<index>" even when no stdout file is set. */
  lemma JsonStdoutEntry(s: JobState, jobIndex: int, subst: (SubstList, string) -> string, globalArgs: Option<SubstList>,
                        envOrder: seq<string>, execOrder: seq<string>, typesText: string)
    requires Enumerates(envOrder, FilteredHash(s.environment, false, subst, s.privateArgs, globalArgs))
    requires Enumerates(execOrder, FilteredHash(s.execEnv, false, subst, s.privateArgs, globalArgs))
    ensures Infix("  \"stdout\" : " + Quote(FilterString(subst, StdIndex(s.stdoutFile, jobIndex), s.privateArgs, globalArgs)) + ",\n",
                  JsonBody(s, jobIndex, subst, globalArgs, envOrder, execOrder, typesText))
  {
    var p := s.privateArgs;
    var e := PythonStringText("  ", "stdout", Some(StdIndex(s.stdoutFile, jobIndex)), ",\n", subst, p, globalArgs, NullValue);
    assert e == "  \"stdout\" : " + Quote(FilterString(subst, StdIndex(s.stdoutFile, jobIndex), p, globalArgs)) + ",\n";
    var t := e;
    InfixSelf(e);
    var stderr := PythonStringText("  ", "stderr", Some(StdIndex(s.stderrFile, jobIndex)), ",\n", subst, p, globalArgs, NullValue);
    InfixAppend(e, t, stderr);
    t := t + stderr;
    var stdin := PythonStringText("  ", "stdin", s.stdinFile, ",\n", subst, p, globalArgs, NullValue);
    InfixAppend(e, t, stdin);
    t := t + stdin;
    var argList := ArgListText("  ", s, ",\n", subst, globalArgs);
    InfixAppend(e, t, argList);
    t := t + argList;
    var env := PythonHashText("  ", "environment", s.environment, ",\n", subst, p, globalArgs, NullValue, envOrder);
    InfixAppend(e, t, env);
    t := t + env;
    var execEnv := PythonHashText("  ", "exec_env", s.execEnv, ",\n", subst, p, globalArgs, NullValue, execOrder);
    InfixAppend(e, t, execEnv);
    t := t + execEnv;
    assert t == JsonMiddle(s, jobIndex, subst, globalArgs, envOrder, execOrder);
    InfixPrepend(e, JsonHead(s, subst, globalArgs), t);
    t := JsonHead(s, subst, globalArgs) + t;
    InfixAppend(e, t, JsonLimits(s, subst, globalArgs)); t := t + JsonLimits(s, subst, globalArgs);
    assert t == JsonFront(s, jobIndex, subst, globalArgs, envOrder, execOrder);
    InfixAppend(e, t, JsonTail(s, typesText));
  }

  /** One round of a loop that writes a separator before every part but the first. */
  lemma SepBeforeStep(start: string, sep: string, parts: seq<string>, i: nat, before: string, t: string)
    requires i < |parts|
    requires before == start + Join(sep, parts[..i])
    requires t == before + (if i > 0 then sep else "") + parts[i]
    ensures t == start + Join(sep, parts[..i + 1])
  {
    JoinSnoc(sep, parts[..i], parts[i]);
    assert parts[..i + 1] == parts[..i] + [parts[i]];
  }

  /** One round of a loop that writes a separator after every part but the last. */
  lemma SepAfterStep(start: string, sep: string, parts: seq<string>, i: nat, before: string, t: string)
    requires i < |parts|
    requires before == start + Join(sep, parts[..i]) + (if 0 < i < |parts| then sep else "")
    requires t == before + parts[i] + (if i < |parts| - 1 then sep else "")
    ensures t == start + Join(sep, parts[..i + 1]) + (if 0 < i + 1 < |parts| then sep else "")
  {
    JoinSnoc(sep, parts[..i], parts[i]);
    assert parts[..i + 1] == parts[..i] + [parts[i]];
  }

  lemma Assoc(a: string, b: string, c: string)
    ensures a + b + c == a + (b + c)
  {
  }

  method FprintfPythonString(stream: Stream, prefix: string, id: string, value: Option<string>, suffix: string,
                             subst: (SubstList, string) -> string, privateArgs: SubstList,
                             globalArgs: Option<SubstList>, nullValue: string)
    modifies stream
    ensures stream.text == old(stream.text) + PythonStringText(prefix, id, value, suffix, subst, privateArgs, globalArgs, nullValue)
  {
    stream.Write(Field(prefix, id));
    if value.None? {
      stream.Write(nullValue);
    } else {
      stream.Write(Quote(FilterString(subst, value.value, privateArgs, globalArgs)));
    }
    stream.Write(suffix);
  }

  /** The braces and entries of a hash, or the null value. */
  method FprintfHashBody(stream: Stream, h: map<string, Option<string>>, order: seq<string>, nullValue: string)
    modifies stream
    ensures stream.text == old(stream.text) + HashBodyText(h, order, nullValue)
  {
    if |h| > 0 {
      ghost var t0 := stream.text;
      stream.Write("{");
      ghost var start := stream.text;
      ghost var parts := EntryTexts(h, order, nullValue);
      for i := 0 to |order|
        invariant stream.text == start + Join(",", parts[..i])
      {
        ghost var before := stream.text;
        if i > 0 {
          stream.Write(",");
        }
        stream.Write(EntryText(h, order[i], nullValue));
        SepBeforeStep(start, ",", parts, i, before, stream.text);
      }
      assert parts[..|order|] == parts;
      stream.Write("}");
      Assoc(t0, "{", Join(",", parts));
      Assoc(t0, "{" + Join(",", parts), "}");
    } else {
      stream.Write(nullValue);
    }
  }

  method FprintfPythonHash(stream: Stream, prefix: string, id: string, input: map<string, Option<string>>, suffix: string,
                           subst: (SubstList, string) -> string, privateArgs: SubstList,
                           globalArgs: Option<SubstList>, nullValue: string, order: seq<string>)
    requires Enumerates(order, FilteredHash(input, false, subst, privateArgs, globalArgs))
    modifies stream
    ensures stream.text == old(stream.text) + PythonHashText(prefix, id, input, suffix, subst, privateArgs, globalArgs, nullValue, order)
  {
    var h := AllocFilteredHash(input, false, subst, privateArgs, globalArgs);
    stream.Write(Field(prefix, id));
    FprintfHashBody(stream, h, order, nullValue);
    stream.Write(suffix);
  }

  method FprintfPythonInt(stream: Stream, prefix: string, key: string, value: int, suffix: string, nullValue: string)
    modifies stream
    ensures stream.text == old(stream.text) + PythonIntText(prefix, key, value, suffix, nullValue)
  {
    stream.Write(prefix);
    if value > 0 {
      stream.Write(Quote(key) + " : " + Text.IntToString(value));
    } else {
      stream.Write(Quote(key) + " : " + nullValue);
    }
    stream.Write(suffix);
  }

  /** The quoted values, separated by commas, as the argList loop writes them. */
  method FprintfArgValues(stream: Stream, job: ExtJob, argv: seq<string>,
                          subst: (SubstList, string) -> string, globalArgs: Option<SubstList>)
    modifies stream
    ensures stream.text == old(stream.text) + Join(",", Quoted(ResolveArgs(subst, job.State(), globalArgs, argv)))
  {
    ghost var values := Quoted(ResolveArgs(subst, job.State(), globalArgs, argv));
    ghost var start := stream.text;
    for index := 0 to |argv|
      invariant stream.text == start + Join(",", values[..index]) + (if 0 < index < |argv| then "," else "")
    {
      ghost var before := stream.text;
      var filtered := FilterString(subst, argv[index], job.privateArgs, globalArgs);
      if filtered in job.defaultMapping {
        filtered := job.defaultMapping[filtered];
      }
      stream.Write(Quote(filtered));
      if index < |argv| - 1 {
        stream.Write(",");
      }
      SepAfterStep(start, ",", values, index, before, stream.text);
    }
    assert values[..|argv|] == values;
  }

  method FprintfPythonArgList(stream: Stream, prefix: string, job: ExtJob, suffix: string,
                              subst: (SubstList, string) -> string, globalArgs: Option<SubstList>)
    modifies stream
    ensures stream.text == old(stream.text) + ArgListText(prefix, job.State(), suffix, subst, globalArgs)
  {
    var argv := job.ArgList();
    ghost var t0 := stream.text;
    ghost var values := Join(",", Quoted(ResolveArgs(subst, job.State(), globalArgs, argv)));
    stream.Write(prefix);
    stream.Write(Quote("argList") + " : ");
    Assoc(t0, prefix, Quote("argList") + " : ");
    stream.Write("[");
    Assoc(t0, prefix + (Quote("argList") + " : "), "[");
    ghost var opening := prefix + (Quote("argList") + " : ") + "[";
    FprintfArgValues(stream, job, argv, subst, globalArgs);
    Assoc(t0, opening, values);
    stream.Write("]");
    Assoc(t0, opening + values, "]");
    stream.Write(suffix);
    Assoc(t0, opening + values + "]", suffix);
    assert ArgListText(prefix, job.State(), suffix, subst, globalArgs) == opening + values + "]" + suffix;
  }

  /** The quoted type names of the first n arguments; false where the process aborts. */
  method FprintfArgTypeNames(stream: Stream, job: ExtJob, n: nat) returns (ok: bool)
    modifies stream
    ensures ok == ArgTypeNames(job.State(), n).Some?
    ensures ok ==> stream.text == old(stream.text) + Join(", ", Quoted(ArgTypeNames(job.State(), n).value))
  {
    ghost var s := job.State();
    ghost var start := stream.text;
    ghost var names := if ArgTypeNames(s, n).Some? then Quoted(ArgTypeNames(s, n).value) else [];
    for i := 0 to n
      invariant ArgTypeNames(s, i).Some?
      invariant ArgTypeNames(s, n).Some? ==> stream.text == start + Join(", ", names[..i]) + (if 0 < i < n then ", " else "")
    {
      var name := TypeName(job.IGetArgType(i));
      if name.None? {
        return false;
      }
      ghost var before := stream.text;
      stream.Write(Quote(name.value));
      if i + 1 < n {
        stream.Write(", ");
      }
      if ArgTypeNames(s, n).Some? {
        SepAfterStep(start, ", ", names, i, before, stream.text);
      }
    }
    assert names[..n] == names;
    ok := true;
  }

  /** Returns false where the process aborts on an unknown type. */
  method FprintfPythonArgTypes(stream: Stream, prefix: string, key: string, job: ExtJob, suffix: string) returns (ok: bool)
    modifies stream
    ensures ok == ArgTypesText(prefix, key, job.State(), suffix).Some?
    ensures ok ==> stream.text == old(stream.text) + ArgTypesText(prefix, key, job.State(), suffix).value
  {
    var n := ArgCount(job.maxArg);
    stream.Write(prefix);
    stream.Write(Quote(key) + " : [");
    ok := FprintfArgTypeNames(stream, job, n);
    if !ok {
      return;
    }
    stream.Write("]");
    stream.Write(suffix);
  }

  /** The opening brace and the name, executable and file entries. */
  method FprintfJsonHead(stream: Stream, job: ExtJob, subst: (SubstList, string) -> string, globalArgs: Option<SubstList>)
    modifies stream
    ensures stream.text == old(stream.text) + JsonHead(job.State(), subst, globalArgs)
  {
    ghost var s := job.State();
    ghost var start := stream.text;
    stream.Write(" {");
    ghost var written := " {";
    FprintfPythonString(stream, "", "name", Some(job.name), ",\n", subst, job.privateArgs, None, NullValue);
    Assoc(start, written, PythonStringText("", "name", Some(s.name), ",\n", subst, s.privateArgs, None, NullValue));
    written := written + PythonStringText("", "name", Some(s.name), ",\n", subst, s.privateArgs, None, NullValue);
    FprintfPythonString(stream, "  ", "executable", job.executable, ",\n", subst, job.privateArgs, globalArgs, NullValue);
    Assoc(start, written, PythonStringText("  ", "executable", s.executable, ",\n", subst, s.privateArgs, globalArgs, NullValue));
    written := written + PythonStringText("  ", "executable", s.executable, ",\n", subst, s.privateArgs, globalArgs, NullValue);
    FprintfPythonString(stream, "  ", "target_file", job.targetFile, ",\n", subst, job.privateArgs, globalArgs, NullValue);
    Assoc(start, written, PythonStringText("  ", "target_file", s.targetFile, ",\n", subst, s.privateArgs, globalArgs, NullValue));
    written := written + PythonStringText("  ", "target_file", s.targetFile, ",\n", subst, s.privateArgs, globalArgs, NullValue);
    FprintfPythonString(stream, "  ", "error_file", job.errorFile, ",\n", subst, job.privateArgs, globalArgs, NullValue);
    Assoc(start, written, PythonStringText("  ", "error_file", s.errorFile, ",\n", subst, s.privateArgs, globalArgs, NullValue));
    written := written + PythonStringText("  ", "error_file", s.errorFile, ",\n", subst, s.privateArgs, globalArgs, NullValue);
    FprintfPythonString(stream, "  ", "start_file", job.startFile, ",\n", subst, job.privateArgs, globalArgs, NullValue);
    Assoc(start, written, PythonStringText("  ", "start_file", s.startFile, ",\n", subst, s.privateArgs, globalArgs, NullValue));
    written := written + PythonStringText("  ", "start_file", s.startFile, ",\n", subst, s.privateArgs, globalArgs, NullValue);
    assert written == JsonHead(s, subst, globalArgs);
  }

  /** The stream, argument and environment entries. */
  method FprintfJsonMiddle(stream: Stream, job: ExtJob, jobIndex: int, subst: (SubstList, string) -> string, globalArgs: Option<SubstList>,
                            envOrder: seq<string>, execOrder: seq<string>)
    requires Enumerates(envOrder, FilteredHash(job.environment, false, subst, job.privateArgs, globalArgs))
    requires Enumerates(execOrder, FilteredHash(job.execEnv, false, subst, job.privateArgs, globalArgs))
    modifies stream
    ensures stream.text == old(stream.text) + JsonMiddle(job.State(), jobIndex, subst, globalArgs, envOrder, execOrder)
  {
    ghost var s := job.State();
    ghost var start := stream.text;
    FprintfPythonString(stream, "  ", "stdout", Some(StdIndex(job.stdoutFile, jobIndex)), ",\n", subst, job.privateArgs, globalArgs, NullValue);
    ghost var written := PythonStringText("  ", "stdout", Some(StdIndex(s.stdoutFile, jobIndex)), ",\n", subst, s.privateArgs, globalArgs, NullValue);
    FprintfPythonString(stream, "  ", "stderr", Some(StdIndex(job.stderrFile, jobIndex)), ",\n", subst, job.privateArgs, globalArgs, NullValue);
    Assoc(start, written, PythonStringText("  ", "stderr", Some(StdIndex(s.stderrFile, jobIndex)), ",\n", subst, s.privateArgs, globalArgs, NullValue));
    written := written + PythonStringText("  ", "stderr", Some(StdIndex(s.stderrFile, jobIndex)), ",\n", subst, s.privateArgs, globalArgs, NullValue);
    FprintfPythonString(stream, "  ", "stdin", job.stdinFile, ",\n", subst, job.privateArgs, globalArgs, NullValue);
    Assoc(start, written, PythonStringText("  ", "stdin", s.stdinFile, ",\n", subst, s.privateArgs, globalArgs, NullValue));
    written := written + PythonStringText("  ", "stdin", s.stdinFile, ",\n", subst, s.privateArgs, globalArgs, NullValue);
    FprintfPythonArgList(stream, "  ", job, ",\n", subst, globalArgs);
    Assoc(start, written, ArgListText("  ", s, ",\n", subst, globalArgs));
    written := written + ArgListText("  ", s, ",\n", subst, globalArgs);
    FprintfPythonHash(stream, "  ", "environment", job.environment, ",\n", subst, job.privateArgs, globalArgs, NullValue, envOrder);
    Assoc(start, written, PythonHashText("  ", "environment", s.environment, ",\n", subst, s.privateArgs, globalArgs, NullValue, envOrder));
    written := written + PythonHashText("  ", "environment", s.environment, ",\n", subst, s.privateArgs, globalArgs, NullValue, envOrder);
    FprintfPythonHash(stream, "  ", "exec_env", job.execEnv, ",\n", subst, job.privateArgs, globalArgs, NullValue, execOrder);
    Assoc(start, written, PythonHashText("  ", "exec_env", s.execEnv, ",\n", subst, s.privateArgs, globalArgs, NullValue, execOrder));
    written := written + PythonHashText("  ", "exec_env", s.execEnv, ",\n", subst, s.privateArgs, globalArgs, NullValue, execOrder);
    assert written == JsonMiddle(s, jobIndex, subst, globalArgs, envOrder, execOrder);
  }

  /** The license path and the limits. */
  method FprintfJsonLimits(stream: Stream, job: ExtJob, subst: (SubstList, string) -> string, globalArgs: Option<SubstList>)
    modifies stream
    ensures stream.text == old(stream.text) + JsonLimits(job.State(), subst, globalArgs)
  {
    ghost var s := job.State();
    ghost var start := stream.text;
    FprintfPythonString(stream, "  ", "license_path", job.licensePath, ",\n", subst, job.privateArgs, globalArgs, NullValue);
    ghost var written := PythonStringText("  ", "license_path", s.licensePath, ",\n", subst, s.privateArgs, globalArgs, NullValue);
    FprintfPythonInt(stream, "  ", "max_running_minutes", job.maxRunningMinutes, ",\n", NullValue);
    Assoc(start, written, PythonIntText("  ", "max_running_minutes", s.maxRunningMinutes, ",\n", NullValue));
    written := written + PythonIntText("  ", "max_running_minutes", s.maxRunningMinutes, ",\n", NullValue);
    FprintfPythonInt(stream, "  ", "max_running", job.maxRunning, ",\n", NullValue);
    Assoc(start, written, PythonIntText("  ", "max_running", s.maxRunning, ",\n", NullValue));
    written := written + PythonIntText("  ", "max_running", s.maxRunning, ",\n", NullValue);
    FprintfPythonInt(stream, "  ", "min_arg", job.minArg, ",\n", NullValue);
    Assoc(start, written, PythonIntText("  ", "min_arg", s.minArg, ",\n", NullValue));
    written := written + PythonIntText("  ", "min_arg", s.minArg, ",\n", NullValue);
    assert written == JsonLimits(s, subst, globalArgs);
  }

  /** Everything before the argument types. */
  method FprintfJsonFront(stream: Stream, job: ExtJob, jobIndex: int, subst: (SubstList, string) -> string, globalArgs: Option<SubstList>,
                          envOrder: seq<string>, execOrder: seq<string>)
    requires Enumerates(envOrder, FilteredHash(job.environment, false, subst, job.privateArgs, globalArgs))
    requires Enumerates(execOrder, FilteredHash(job.execEnv, false, subst, job.privateArgs, globalArgs))
    modifies stream
    ensures stream.text == old(stream.text) + JsonFront(job.State(), jobIndex, subst, globalArgs, envOrder, execOrder)
  {
    ghost var s := job.State();
    ghost var start := stream.text;
    FprintfJsonHead(stream, job, subst, globalArgs);
    ghost var written := JsonHead(s, subst, globalArgs);
    FprintfJsonMiddle(stream, job, jobIndex, subst, globalArgs, envOrder, execOrder);
    Assoc(start, written, JsonMiddle(s, jobIndex, subst, globalArgs, envOrder, execOrder));
    written := written + JsonMiddle(s, jobIndex, subst, globalArgs, envOrder, execOrder);
    FprintfJsonLimits(stream, job, subst, globalArgs);
    Assoc(start, written, JsonLimits(s, subst, globalArgs));
  }

  /** The argument types, the last limit and the closing brace; returns false where the process aborts. */
  method FprintfJsonTail(stream: Stream, job: ExtJob) returns (ok: bool)
    modifies stream
    ensures ok == ArgTypesText("  ", "arg_types", job.State(), ",\n").Some?
    ensures ok ==> stream.text == old(stream.text) + JsonTail(job.State(), ArgTypesText("  ", "arg_types", job.State(), ",\n").value)
  {
    ghost var start := stream.text;
    ok := FprintfPythonArgTypes(stream, "  ", "arg_types", job, ",\n");
    if !ok {
      return;
    }
    ghost var types := stream.text[|start|..];
    FprintfPythonInt(stream, "  ", "max_arg", job.maxArg, "\n", NullValue);
    Assoc(start, types, PythonIntText("  ", "max_arg", job.maxArg, "\n", NullValue));
    stream.Write("}");
    Assoc(start, types + PythonIntText("  ", "max_arg", job.maxArg, "\n", NullValue), "}");
  }

  /** ext_job_json_fprintf; returns false where the process aborts. */
  method JsonFprintf(job: ExtJob, jobIndex: int, stream: Stream, subst: (SubstList, string) -> string,
                     globalArgs: Option<SubstList>, envOrder: seq<string>, execOrder: seq<string>) returns (ok: bool)
    requires Enumerates(envOrder, FilteredHash(job.environment, false, subst, job.privateArgs, globalArgs))
    requires Enumerates(execOrder, FilteredHash(job.execEnv, false, subst, job.privateArgs, globalArgs))
    modifies stream
    ensures ok == ArgTypesText("  ", "arg_types", job.State(), ",\n").Some?
    ensures ok ==>
      stream.text == old(stream.text) + JsonBody(job.State(), jobIndex, subst, globalArgs, envOrder, execOrder, ArgTypesText("  ", "arg_types", job.State(), ",\n").value)
  {
    ghost var start := stream.text;
    FprintfJsonFront(stream, job, jobIndex, subst, globalArgs, envOrder, execOrder);
    ghost var front := JsonFront(job.State(), jobIndex, subst, globalArgs, envOrder, execOrder);
    ok := FprintfJsonTail(stream, job);
    if ok {
      Assoc(start, front, JsonTail(job.State(), ArgTypesText("  ", "arg_types", job.State(), ",\n").value));
    }
  }

  /** The keywords ext_job_save writes a single value for. */
  datatype SaveKey =
    | Executable | Stdin | Stderr | Stdout | TargetFile | StartFile | ErrorFile | MaxRunning | MaxRunningMinutes

  function KeyWord(k: SaveKey): string {
    match k
    case Executable => "EXECUTABLE"
    case Stdin => "STDIN"
    case Stderr => "STDERR"
    case Stdout => "STDOUT"
    case TargetFile => "TARGET_FILE"
    case StartFile => "START_FILE"
    case ErrorFile => "ERROR_FILE"
    case MaxRunning => "MAX_RUNNING"
    case MaxRunningMinutes => "MAX_RUNNING_MINUTES"
  }

  /** One entry of the file ext_job_save writes; the column layout is not modelled. */
  datatype SaveLine =
    | KeyString(key: SaveKey, value: string)
    | KeyInt(key: SaveKey, number: int)
    | ArgListLine(args: seq<string>)
    | EnvLine(name: string, setting: Option<string>)

  /** PRINT_KEY_STRING: only a value that is set. */
  function StringLine(key: SaveKey, value: Option<string>): seq<SaveLine> {
    if value.Some? then [KeyString(key, value.value)] else []
  }

  /** PRINT_KEY_INT: only a value other than 0. */
  function IntLine(key: SaveKey, value: int): seq<SaveLine> {
    if value != 0 then [KeyInt(key, value)] else []
  }

  /** The single-value keywords in the order ext_job_save writes them. */
  const SavedKeys := [Executable, Stdin, Stderr, Stdout, TargetFile, StartFile, ErrorFile, MaxRunning, MaxRunningMinutes]

  /** The string setting a keyword is written from; None for the numeric ones. */
  function StringField(s: JobState, k: SaveKey): Option<string> {
    match k
    case Executable => s.executable
    case Stdin => s.stdinFile
    case Stderr => s.stderrFile
    case Stdout => s.stdoutFile
    case TargetFile => s.targetFile
    case StartFile => s.startFile
    case ErrorFile => s.errorFile
    case _ => None
  }

  /** The numeric setting a keyword is written from; None for the string ones. */
  function IntField(s: JobState, k: SaveKey): Option<int> {
    match k
    case MaxRunning => Some(s.maxRunning)
    case MaxRunningMinutes => Some(s.maxRunningMinutes)
    case _ => None
  }

  function KeyLines(s: JobState, k: SaveKey): seq<SaveLine> {
    if IntField(s, k).Some? then IntLine(k, IntField(s, k).value) else StringLine(k, StringField(s, k))
  }

  function KeyedLines(s: JobState, keys: seq<SaveKey>): seq<SaveLine> {
    if |keys| == 0 then [] else KeyLines(s, keys[0]) + KeyedLines(s, keys[1..])
  }

  lemma {:induction false} KeyedLinesMembers(s: JobState, keys: seq<SaveKey>, l: SaveLine)
    ensures l in KeyedLines(s, keys) <==> exists i :: 0 <= i < |keys| && l in KeyLines(s, keys[i])
  {
    if |keys| > 0 {
      KeyedLinesMembers(s, keys[1..], l);
      if l in KeyedLines(s, keys[1..]) {
        var i :| 0 <= i < |keys[1..]| && l in KeyLines(s, keys[1..][i]);
        assert keys[1..][i] == keys[i + 1];
      }
      if exists i :: 0 <= i < |keys| && l in KeyLines(s, keys[i]) {
        var i :| 0 <= i < |keys| && l in KeyLines(s, keys[i]);
        if i > 0 {
          assert keys[1..][i - 1] == keys[i];
        }
      }
    }
  }

  function EnvLines(env: map<string, Option<string>>, order: seq<string>): (r: seq<SaveLine>)
    requires forall k :: k in order ==> k in env
    ensures |r| == |order| && forall i :: 0 <= i < |order| ==> r[i] == EnvLine(order[i], env[order[i]])
  {
    seq(|order|, i requires 0 <= i < |order| => EnvLine(order[i], env[order[i]]))
  }

  function ArgListLines(s: JobState): seq<SaveLine> {
    if |ArgListOf(s)| > 0 then [ArgListLine(ArgListOf(s))] else []
  }

  /** Every line written for the single-value keywords is a keyword line. */
  lemma {:induction false} KeyedLinesAreKeywords(s: JobState, keys: seq<SaveKey>)
    ensures forall i :: 0 <= i < |KeyedLines(s, keys)| ==> KeyedLines(s, keys)[i].KeyString? || KeyedLines(s, keys)[i].KeyInt?
  {
    if |keys| > 0 {
      KeyedLinesAreKeywords(s, keys[1..]);
    }
  }

  /**
   * ext_job_save: the entries in the order they are written, the environment
   * in hash order. The single-value keywords come first, the ENV entries
   * last, one per variable.
   */
  function SaveLines(s: JobState, envOrder: seq<string>): (r: seq<SaveLine>)
    requires Enumerates(envOrder, s.environment)
    ensures forall i, j :: 0 <= i < j < |r| && (r[j].KeyString? || r[j].KeyInt?) ==> r[i].KeyString? || r[i].KeyInt?
    ensures forall i, j :: 0 <= i < j < |r| && r[i].EnvLine? ==> r[j].EnvLine?
    ensures |r| >= |envOrder| && forall i :: 0 <= i < |envOrder| ==>
      r[|r| - |envOrder| + i] == EnvLine(envOrder[i], s.environment[envOrder[i]])
  {
    KeyedLinesAreKeywords(s, SavedKeys);
    KeyedLines(s, SavedKeys) + ArgListLines(s) + EnvLines(s.environment, envOrder)
  }

  lemma SavedKeysComplete(k: SaveKey)
    ensures exists i :: 0 <= i < |SavedKeys| && SavedKeys[i] == k
  {
    match k
    case Executable => assert SavedKeys[0] == k;
    case Stdin => assert SavedKeys[1] == k;
    case Stderr => assert SavedKeys[2] == k;
    case Stdout => assert SavedKeys[3] == k;
    case TargetFile => assert SavedKeys[4] == k;
    case StartFile => assert SavedKeys[5] == k;
    case ErrorFile => assert SavedKeys[6] == k;
    case MaxRunning => assert SavedKeys[7] == k;
    case MaxRunningMinutes => assert SavedKeys[8] == k;
  }

  /** A line written for one keyword carries that keyword and the setting it is written from. */
  lemma KeyLinesOf(s: JobState, k: SaveKey, l: SaveLine)
    requires l in KeyLines(s, k)
    ensures l.KeyString? ==> l.key == k && StringField(s, k) == Some(l.value) && IntField(s, k).None?
    ensures l.KeyInt? ==> l.key == k && l.number != 0 && IntField(s, k) == Some(l.number)
    ensures l.KeyString? || l.KeyInt?
  {
  }

  /** A single-value entry of the saved file comes from one of the keywords. */
  lemma SavedFromKey(s: JobState, envOrder: seq<string>, l: SaveLine)
    requires Enumerates(envOrder, s.environment)
    requires l.KeyString? || l.KeyInt?
    ensures l in SaveLines(s, envOrder) <==> l in KeyLines(s, l.key)
  {
    KeyedLinesMembers(s, SavedKeys, l);
    assert l !in EnvLines(s.environment, envOrder);
    assert l !in ArgListLines(s);
    if l in SaveLines(s, envOrder) {
      var i :| 0 <= i < |SavedKeys| && l in KeyLines(s, SavedKeys[i]);
      KeyLinesOf(s, SavedKeys[i], l);
    }
    if l in KeyLines(s, l.key) {
      SavedKeysComplete(l.key);
      var i :| 0 <= i < |SavedKeys| && SavedKeys[i] == l.key;
      assert l in KeyLines(s, SavedKeys[i]);
    }
  }

  /** The saved file has an entry for a string setting exactly when it is set, with its value. */
  lemma SaveStringEntry(s: JobState, envOrder: seq<string>, k: SaveKey, v: string)
    requires Enumerates(envOrder, s.environment)
    ensures KeyString(k, v) in SaveLines(s, envOrder) <==> StringField(s, k) == Some(v)
  {
    SavedFromKey(s, envOrder, KeyString(k, v));
  }

  /** ... and for a numeric setting exactly when it is not 0. */
  lemma SaveIntEntry(s: JobState, envOrder: seq<string>, k: SaveKey, n: int)
    requires Enumerates(envOrder, s.environment)
    ensures KeyInt(k, n) in SaveLines(s, envOrder) <==> n != 0 && IntField(s, k) == Some(n)
  {
    SavedFromKey(s, envOrder, KeyInt(k, n));
  }

  /** The argument list is saved when it is not empty, and every variable gets one ENV entry. */
  lemma SaveListEntries(s: JobState, envOrder: seq<string>, args: seq<string>, name: string, setting: Option<string>)
    requires Enumerates(envOrder, s.environment)
    ensures ArgListLine(args) in SaveLines(s, envOrder) <==> |args| > 0 && args == ArgListOf(s)
    ensures EnvLine(name, setting) in SaveLines(s, envOrder) <==> name in s.environment && s.environment[name] == setting
  {
    var env := EnvLines(s.environment, envOrder);
    KeyedLinesMembers(s, SavedKeys, ArgListLine(args));
    KeyedLinesMembers(s, SavedKeys, EnvLine(name, setting));
    if name in s.environment && s.environment[name] == setting {
      var i :| 0 <= i < |envOrder| && envOrder[i] == name;
      assert env[i] == EnvLine(name, setting);
    }
  }
}
