/**
 * What the ensemble-record client guarantees about the requests it issues
 * and the state it leaves behind (ert3/storage/_storage.py).
 */
module StorageProperties {
  import opened Wrappers
  import opened Records
  import opened Service
  import opened Storage

  /** Every request sent to one endpoint, in order. */
  function Stamp(ep: Endpoint, reqs: seq<Request>): (calls: seq<Call>)
    ensures |calls| == |reqs| && forall k :: 0 <= k < |reqs| ==> calls[k] == Call(ep, reqs[k])
  {
    seq(|reqs|, k requires 0 <= k < |reqs| => Call(ep, reqs[k]))
  }

  lemma StampConcat(ep: Endpoint, a: seq<Request>, b: seq<Request>)
    ensures Stamp(ep, a + b) == Stamp(ep, a) + Stamp(ep, b)
  {
  }

  /** The service answers as written: no injected status other than 200. */
  predicate NoFaults(env: Env) {
    forall n :: n in env.faults ==> env.faults[n] == OK
  }

  lemma ServesAsWritten(env: Env, r: Remote, req: Request)
    requires NoFaults(env)
    ensures Exchange(env, r, req) == Reply(Remote(Serve(r.store, req).store, r.log + [Call(env.endpoint, req)]), Serve(r.store, req).response)
  {
  }

  /** The requests of the write loop from realization i on, when each one succeeds. */
  function WritePlan(ens: Id, recordName: string, records: seq<Record>, meta: Metadata, i: nat): (plan: seq<Request>)
    decreases |records| - i
  {
    if i >= |records| then []
    else
      var at := Slot(ens, recordName, i);
      [PostMatrix(at, Encode(records[i], i)), PutUserdata(at, meta)] + WritePlan(ens, recordName, records, meta, i + 1)
  }

  /** The requests of the read loop from realization i to n - 1. */
  function ReadPlan(ens: Id, recordName: string, i: int, n: int): (plan: seq<Request>)
    decreases n - i
  {
    if i >= n then [] else [GetMatrix(Slot(ens, recordName, i))] + ReadPlan(ens, recordName, i + 1, n)
  }

  /** `log` is `base` followed by a non-empty prefix of the requests of `plan`. */
  predicate StopsWithin(log: seq<Call>, base: seq<Call>, ep: Endpoint, plan: seq<Request>) {
    exists m :: 0 < m <= |plan| && log == base + Stamp(ep, plan[..m])
  }

  lemma PrefixStep(ep: Endpoint, base: seq<Call>, head: seq<Request>, rest: seq<Request>, log: seq<Call>)
    requires StopsWithin(log, base + Stamp(ep, head), ep, rest)
    ensures StopsWithin(log, base, ep, head + rest)
  {
    var m :| 0 < m <= |rest| && log == base + Stamp(ep, head) + Stamp(ep, rest[..m]);
    assert (head + rest)[..|head| + m] == head + rest[..m];
    StampConcat(ep, head, rest[..m]);
  }

  /**
   * The write loop walks the realizations in index order, a matrix POST and
   * then a metadata PUT each; it stops at the first refusal, raising
   * ElementExistsError or a StorageError (which one at which step is
   * WriteStep).
   */
  lemma {:induction false} WriteFromTrace(env: Env, r: Remote, ens: Id, recordName: string, records: seq<Record>, meta: Metadata, i: nat)
    ensures var w := WriteFromSpec(env, r, ens, recordName, records, meta, i);
      w.result.Success? ==> w.remote.log == r.log + Stamp(env.endpoint, WritePlan(ens, recordName, records, meta, i))
    ensures var w := WriteFromSpec(env, r, ens, recordName, records, meta, i);
      w.result.Failure? ==> StopsWithin(w.remote.log, r.log, env.endpoint, WritePlan(ens, recordName, records, meta, i))
    ensures var w := WriteFromSpec(env, r, ens, recordName, records, meta, i);
      w.result.Failure? ==> w.result.error == ElementExistsError || (w.result.error.StorageError? && w.result.error.status != OK)
    decreases |records| - i
  {
    if i < |records| {
      var ep := env.endpoint;
      var at := Slot(ens, recordName, i);
      var post := PostMatrix(at, Encode(records[i], i));
      var put := PutUserdata(at, meta);
      var rest := WritePlan(ens, recordName, records, meta, i + 1);
      var plan := WritePlan(ens, recordName, records, meta, i);
      assert plan == [post, put] + rest;
      var p := Exchange(env, r, post);
      if p.response.status != OK {
        assert plan[..1] == [post];
      } else {
        var u := Exchange(env, p.remote, put);
        if u.response.status != OK {
          assert plan[..2] == [post, put];
        } else {
          assert u.remote.log == r.log + Stamp(ep, [post, put]);
          WriteFromTrace(env, u.remote, ens, recordName, records, meta, i + 1);
          var w := WriteFromSpec(env, u.remote, ens, recordName, records, meta, i + 1);
          if w.result.Success? {
            StampConcat(ep, [post, put], rest);
          } else {
            PrefixStep(ep, r.log, [post, put], rest, w.remote.log);
          }
        }
      }
    }
  }

  /**
   * What the write loop leaves in the store: the experiments as they were,
   * every matrix already there untouched (nothing is rolled back or
   * overwritten), metadata only ever overwritten with this loop's own.
   * On success every realization's matrix and metadata are stored.
   */
  lemma {:induction false} WriteFromStore(env: Env, r: Remote, ens: Id, recordName: string, records: seq<Record>, meta: Metadata, i: nat)
    ensures var s := WriteFromSpec(env, r, ens, recordName, records, meta, i).remote.store;
      s.experiments == r.store.experiments &&
      (forall id :: id in r.store.ensembles ==> id in s.ensembles) &&
      (forall at :: at in r.store.matrices ==> at in s.matrices && s.matrices[at] == r.store.matrices[at]) &&
      (forall at :: at in r.store.userdata ==> at in s.userdata && (s.userdata[at] == r.store.userdata[at] || s.userdata[at] == meta))
    ensures var w := WriteFromSpec(env, r, ens, recordName, records, meta, i);
      w.result.Success? ==> forall k :: i <= k < |records| ==>
        Slot(ens, recordName, k) in w.remote.store.matrices &&
        w.remote.store.matrices[Slot(ens, recordName, k)] == Encode(records[k], k) &&
        Slot(ens, recordName, k) in w.remote.store.userdata &&
        w.remote.store.userdata[Slot(ens, recordName, k)] == meta
    ensures var w := WriteFromSpec(env, r, ens, recordName, records, meta, i);
      w.result.Success? && i < |records| ==> ens in w.remote.store.ensembles
    decreases |records| - i
  {
    if i < |records| {
      var at := Slot(ens, recordName, i);
      var p := Exchange(env, r, PostMatrix(at, Encode(records[i], i)));
      if p.response.status == OK {
        assert p.remote.store.matrices == r.store.matrices[at := Encode(records[i], i)];
        assert ens in p.remote.store.ensembles;
        var u := Exchange(env, p.remote, PutUserdata(at, meta));
        if u.response.status == OK {
          assert u.remote.store == p.remote.store.(userdata := p.remote.store.userdata[at := meta]);
          WriteFromStore(env, u.remote, ens, recordName, records, meta, i + 1);
        }
      }
    }
  }

  /**
   * One step of the write loop at realization i: a 409 on the matrix POST
   * raises ElementExistsError, any other refusal of it StorageError with
   * that status, a refused metadata PUT StorageError with the PUT's status;
   * when both are accepted the loop goes on with realization i + 1.
   */
  lemma WriteStep(env: Env, r: Remote, ens: Id, recordName: string, records: seq<Record>, meta: Metadata, i: nat)
    ensures i >= |records| ==> WriteFromSpec(env, r, ens, recordName, records, meta, i) == Run(r, Success(()))
    ensures i < |records| ==>
      var at := Slot(ens, recordName, i);
      var p := Exchange(env, r, PostMatrix(at, Encode(records[i], i)));
      var u := Exchange(env, p.remote, PutUserdata(at, meta));
      var w := WriteFromSpec(env, r, ens, recordName, records, meta, i);
      (p.response.status == CONFLICT ==> w == Run(p.remote, Failure(ElementExistsError))) &&
      (p.response.status != OK && p.response.status != CONFLICT ==>
         w == Run(p.remote, Failure(StorageError(p.response.status)))) &&
      (p.response.status == OK && u.response.status != OK ==>
         w == Run(u.remote, Failure(StorageError(u.response.status)))) &&
      (p.response.status == OK && u.response.status == OK ==>
         w == WriteFromSpec(env, u.remote, ens, recordName, records, meta, i + 1))
  {
  }

  /** How many realizations, from i on, the write loop stores in full (matrix, then metadata) before it stops. */
  function Written(env: Env, r: Remote, ens: Id, recordName: string, records: seq<Record>, meta: Metadata, i: nat): nat
    decreases |records| - i
  {
    if i >= |records| then 0
    else
      var at := Slot(ens, recordName, i);
      var p := Exchange(env, r, PostMatrix(at, Encode(records[i], i)));
      var u := Exchange(env, p.remote, PutUserdata(at, meta));
      if p.response.status != OK || u.response.status != OK then 0
      else 1 + Written(env, u.remote, ens, recordName, records, meta, i + 1)
  }

  /** Realization k holds its encoded matrix and the metadata. */
  predicate Kept(s: Store, ens: Id, recordName: string, records: seq<Record>, meta: Metadata, k: int) {
    0 <= k < |records| &&
    Slot(ens, recordName, k) in s.matrices && s.matrices[Slot(ens, recordName, k)] == Encode(records[k], k) &&
    Slot(ens, recordName, k) in s.userdata && s.userdata[Slot(ens, recordName, k)] == meta
  }

  /** Realizations lo..hi-1 each hold their encoded matrix and the metadata. */
  predicate Completed(s: Store, ens: Id, recordName: string, records: seq<Record>, meta: Metadata, lo: int, hi: int) {
    forall k :: lo <= k < hi ==> Kept(s, ens, recordName, records, meta, k)
  }

  /**
   * A failed write loop rolls nothing back: it fails exactly when it stops
   * before the last realization, and every realization it completed before
   * stopping keeps the matrix and the metadata it wrote.
   */
  lemma {:induction false} WriteFromKept(env: Env, r: Remote, ens: Id, recordName: string, records: seq<Record>, meta: Metadata, i: nat)
    ensures WriteFromSpec(env, r, ens, recordName, records, meta, i).result.Success? <==>
      i + Written(env, r, ens, recordName, records, meta, i) >= |records|
    ensures Completed(WriteFromSpec(env, r, ens, recordName, records, meta, i).remote.store, ens, recordName, records, meta,
                      i, i + Written(env, r, ens, recordName, records, meta, i))
    decreases |records| - i
  {
    if i < |records| {
      var at := Slot(ens, recordName, i);
      var p := Exchange(env, r, PostMatrix(at, Encode(records[i], i)));
      if p.response.status == OK {
        var u := Exchange(env, p.remote, PutUserdata(at, meta));
        if u.response.status == OK {
          assert p.remote.store.matrices == r.store.matrices[at := Encode(records[i], i)];
          assert u.remote.store == p.remote.store.(userdata := p.remote.store.userdata[at := meta]);
          WriteFromKept(env, u.remote, ens, recordName, records, meta, i + 1);
          WriteFromStore(env, u.remote, ens, recordName, records, meta, i + 1);
          var w := WriteFromSpec(env, u.remote, ens, recordName, records, meta, i + 1);
          var n := Written(env, u.remote, ens, recordName, records, meta, i + 1);
          assert Written(env, r, ens, recordName, records, meta, i) == 1 + n;
          assert WriteFromSpec(env, r, ens, recordName, records, meta, i) == w;
          assert at in u.remote.store.matrices && at in u.remote.store.userdata;
          CompletedExtend(w.remote.store, ens, recordName, records, meta, i, i + 1 + n);
        }
      }
    }
  }

  lemma CompletedExtend(s: Store, ens: Id, recordName: string, records: seq<Record>, meta: Metadata, i: int, hi: int)
    requires Completed(s, ens, recordName, records, meta, i + 1, hi)
    requires 0 <= i < |records| && i < hi
    requires Slot(ens, recordName, i) in s.matrices && s.matrices[Slot(ens, recordName, i)] == Encode(records[i], i)
    requires Slot(ens, recordName, i) in s.userdata && s.userdata[Slot(ens, recordName, i)] == meta
    ensures Completed(s, ens, recordName, records, meta, i, hi)
  {
    forall k | i <= k < hi
      ensures Kept(s, ens, recordName, records, meta, k)
    {
      if k != i {
        assert i + 1 <= k < hi;
      }
    }
  }

  /**
   * The write loop never drops a record name an ensemble lists, and once it
   * has accepted a matrix the ensemble it wrote lists the record's name.
   */
  lemma {:induction false} WriteFromNames(env: Env, r: Remote, ens: Id, recordName: string, records: seq<Record>, meta: Metadata, i: nat)
    ensures var s := WriteFromSpec(env, r, ens, recordName, records, meta, i).remote.store;
      forall id, n :: id in r.store.ensembles && n in r.store.ensembles[id].recordNames ==>
        id in s.ensembles && n in s.ensembles[id].recordNames
    ensures var w := WriteFromSpec(env, r, ens, recordName, records, meta, i);
      w.result.Success? && i < |records| ==>
        ens in w.remote.store.ensembles && recordName in w.remote.store.ensembles[ens].recordNames
    decreases |records| - i
  {
    if i < |records| {
      var at := Slot(ens, recordName, i);
      var p := Exchange(env, r, PostMatrix(at, Encode(records[i], i)));
      if p.response.status == OK {
        var en := r.store.ensembles[ens];
        assert p.remote.store.ensembles == r.store.ensembles[ens := en.(recordNames := AddName(en.recordNames, recordName))];
        var u := Exchange(env, p.remote, PutUserdata(at, meta));
        if u.response.status == OK {
          assert u.remote.store.ensembles == p.remote.store.ensembles;
          WriteFromNames(env, u.remote, ens, recordName, records, meta, i + 1);
          var w := WriteFromSpec(env, u.remote, ens, recordName, records, meta, i + 1);
          assert WriteFromSpec(env, r, ens, recordName, records, meta, i) == w;
          forall id, n | id in r.store.ensembles && n in r.store.ensembles[id].recordNames
            ensures id in w.remote.store.ensembles && n in w.remote.store.ensembles[id].recordNames
          {
            assert id in u.remote.store.ensembles && n in u.remote.store.ensembles[id].recordNames;
          }
          if i + 1 >= |records| {
            assert w.remote == u.remote;
          }
        }
      }
    }
  }

  /**
   * One step of the read loop at realization i: a 404 on its matrix raises
   * ElementMissingError, any other refusal StorageError with that status,
   * a matrix that does not decode the decoder's error; a decoded record is
   * appended and the loop goes on with realization i + 1.
   */
  lemma ReadStep(env: Env, r: Remote, ens: Id, recordName: string, meta: Metadata, i: int, acc: seq<Record>)
    ensures i >= meta.ensembleSize ==> ReadFromSpec(env, r, ens, recordName, meta, i, acc) == Run(r, Success(acc))
    ensures i < meta.ensembleSize ==>
      var x := Exchange(env, r, GetMatrix(Slot(ens, recordName, i)));
      var g := ReadFromSpec(env, r, ens, recordName, meta, i, acc);
      (x.response.status == NOT_FOUND ==> g == Run(x.remote, Failure(ElementMissingError))) &&
      (x.response.status != OK && x.response.status != NOT_FOUND ==>
         g == Run(x.remote, Failure(StorageError(x.response.status)))) &&
      (x.response.status == OK && x.response.body.Matrix? ==>
         var d := Decode(x.response.body.table, meta.recordType, i);
         (d.Failure? ==> g == Run(x.remote, Failure(d.error))) &&
         (d.Success? ==> g == ReadFromSpec(env, x.remote, ens, recordName, meta, i + 1, acc + [d.value]))) &&
      (x.response.status == OK && !x.response.body.Matrix? ==> g == Run(x.remote, Failure(BadResponseBody)))
  {
  }

  /** The read loop sends only GETs: the store is left as it was. */
  lemma {:induction false} ReadFromKeepsStore(env: Env, r: Remote, ens: Id, recordName: string, meta: Metadata, i: int, acc: seq<Record>)
    ensures ReadFromSpec(env, r, ens, recordName, meta, i, acc).remote.store == r.store
    decreases meta.ensembleSize - i
  {
    if i < meta.ensembleSize {
      var x := Exchange(env, r, GetMatrix(Slot(ens, recordName, i)));
      if x.response.status == OK && x.response.body.Matrix? {
        if Decode(x.response.body.table, meta.recordType, i).Success? {
          ReadFromKeepsStore(env, x.remote, ens, recordName, meta, i + 1, acc + [Decode(x.response.body.table, meta.recordType, i).value]);
        }
      }
    }
  }

  /**
   * The read loop fetches realizations i, i+1, ... in order, exactly up to
   * the ensemble size, and returns one record per realization after those
   * already read.
   */
  lemma {:induction false} ReadFromSuccessTrace(env: Env, r: Remote, ens: Id, recordName: string, meta: Metadata, i: int, acc: seq<Record>)
    requires ReadFromSpec(env, r, ens, recordName, meta, i, acc).result.Success?
    ensures var x := ReadFromSpec(env, r, ens, recordName, meta, i, acc);
      x.remote.log == r.log + Stamp(env.endpoint, ReadPlan(ens, recordName, i, meta.ensembleSize)) &&
      |x.result.value| == |acc| + (if i < meta.ensembleSize then meta.ensembleSize - i else 0) &&
      x.result.value[..|acc|] == acc
    decreases meta.ensembleSize - i
  {
    if i < meta.ensembleSize {
      var ep := env.endpoint;
      var get := GetMatrix(Slot(ens, recordName, i));
      var rest := ReadPlan(ens, recordName, i + 1, meta.ensembleSize);
      assert ReadPlan(ens, recordName, i, meta.ensembleSize) == [get] + rest;
      var x := Exchange(env, r, get);
      var rec := Decode(x.response.body.table, meta.recordType, i).value;
      assert ReadFromSpec(env, r, ens, recordName, meta, i, acc) == ReadFromSpec(env, x.remote, ens, recordName, meta, i + 1, acc + [rec]);
      ReadFromSuccessTrace(env, x.remote, ens, recordName, meta, i + 1, acc + [rec]);
      var y := ReadFromSpec(env, x.remote, ens, recordName, meta, i + 1, acc + [rec]);
      StampConcat(ep, [get], rest);
      assert y.result.value[..|acc|] == (y.result.value[..|acc| + 1])[..|acc|];
    }
  }

  /** The read loop stops at the first failure, having sent a prefix of its plan, and returns only the exception. */
  lemma {:induction false} ReadFromFailureTrace(env: Env, r: Remote, ens: Id, recordName: string, meta: Metadata, i: int, acc: seq<Record>)
    requires ReadFromSpec(env, r, ens, recordName, meta, i, acc).result.Failure?
    ensures StopsWithin(ReadFromSpec(env, r, ens, recordName, meta, i, acc).remote.log, r.log, env.endpoint,
                        ReadPlan(ens, recordName, i, meta.ensembleSize))
    decreases meta.ensembleSize - i
  {
    var ep := env.endpoint;
    var get := GetMatrix(Slot(ens, recordName, i));
    var rest := ReadPlan(ens, recordName, i + 1, meta.ensembleSize);
    var plan := ReadPlan(ens, recordName, i, meta.ensembleSize);
    assert plan == [get] + rest;
    assert plan[..1] == [get];
    var x := Exchange(env, r, get);
    if x.response.status == OK && x.response.body.Matrix? {
      var d := Decode(x.response.body.table, meta.recordType, i);
      if d.Success? {
        assert x.remote.log == r.log + Stamp(ep, [get]);
        ReadFromFailureTrace(env, x.remote, ens, recordName, meta, i + 1, acc + [d.value]);
        PrefixStep(ep, r.log, [get], rest, ReadFromSpec(env, x.remote, ens, recordName, meta, i + 1, acc + [d.value]).remote.log);
      }
    }
  }

  /** With every realization stored and decodable, the read loop returns them all. */
  lemma {:induction false} ReadFromStored(env: Env, r: Remote, ens: Id, recordName: string, meta: Metadata, records: seq<Record>, i: nat)
    requires NoFaults(env)
    requires i <= |records| == meta.ensembleSize
    requires forall k :: i <= k < |records| ==>
      Slot(ens, recordName, k) in r.store.matrices &&
      Decode(r.store.matrices[Slot(ens, recordName, k)], meta.recordType, k) == Success(records[k])
    ensures ReadFromSpec(env, r, ens, recordName, meta, i, records[..i]).result == Success(records)
    decreases |records| - i
  {
    if i < |records| {
      var at := Slot(ens, recordName, i);
      ServesAsWritten(env, r, GetMatrix(at));
      var x := Exchange(env, r, GetMatrix(at));
      assert x.remote.store == r.store && x.response == Response(OK, Matrix(r.store.matrices[at]));
      assert records[..i] + [records[i]] == records[..i + 1];
      assert ReadFromSpec(env, r, ens, recordName, meta, i, records[..i])
          == ReadFromSpec(env, x.remote, ens, recordName, meta, i + 1, records[..i + 1]);
      ReadFromStored(env, x.remote, ens, recordName, meta, records, i + 1);
    } else {
      assert records[..i] == records;
    }
  }

  /** Adding to an unknown experiment raises NonExistantExperiment after the lookup alone. */
  lemma AddUnknownExperiment(env: Env, r: Remote, experimentName: string, recordName: string, records: seq<Record>)
    requires LookupSpec(env, r, experimentName).result == Success(None)
    ensures AddNumericalDataSpec(env, r, experimentName, recordName, records)
         == Run(Remote(r.store, r.log + [Call(env.endpoint, GetExperiments)]), Failure(NonExistantExperiment))
  {
  }

  /**
   * Reading a record, or listing the record names or parameters, of an
   * unknown experiment raises NonExistantExperiment after the lookup alone.
   */
  lemma GetUnknownExperiment(env: Env, r: Remote, experimentName: string, recordName: string, parameters: bool)
    requires LookupSpec(env, r, experimentName).result == Success(None)
    ensures GetNumericalDataSpec(env, r, experimentName, recordName)
         == Run(Remote(r.store, r.log + [Call(env.endpoint, GetExperiments)]), Failure(NonExistantExperiment))
    ensures EnsembleNamesSpec(env, r, experimentName, parameters)
         == Run(Remote(r.store, r.log + [Call(env.endpoint, GetExperiments)]), Failure(NonExistantExperiment))
  {
  }

  /** Records of mixed kinds raise ValueError after the lookup alone: no POST or PUT is sent. */
  lemma AddMixedKinds(env: Env, r: Remote, experimentName: string, recordName: string, records: seq<Record>)
    requires LookupSpec(env, r, experimentName).result.Success?
    requires LookupSpec(env, r, experimentName).result.value.Some?
    requires |records| > 0 && !Uniform(records, Kind(records[0]))
    ensures AddNumericalDataSpec(env, r, experimentName, recordName, records)
         == Run(Remote(r.store, r.log + [Call(env.endpoint, GetExperiments)]), Failure(ValueError(InconsistentRecordType)))
  {
  }

  /** A successful add sent the lookup and then exactly the write plan of realizations 0..n-1. */
  lemma AddTrace(env: Env, r: Remote, experimentName: string, recordName: string, records: seq<Record>)
    requires AddNumericalDataSpec(env, r, experimentName, recordName, records).result.Success?
    ensures var l := LookupSpec(env, r, experimentName);
      l.result.Success? && l.result.value.Some? && |l.result.value.value.ensembleIds| > 0 && |records| > 0 &&
      AddNumericalDataSpec(env, r, experimentName, recordName, records).remote.log ==
        r.log + [Call(env.endpoint, GetExperiments)] +
        Stamp(env.endpoint, WritePlan(l.result.value.value.ensembleIds[0], recordName, records,
                                      Metadata(|records|, Kind(records[0])), 0))
  {
    var l := LookupSpec(env, r, experimentName);
    var exp := l.result.value.value;
    WriteFromTrace(env, l.remote, exp.ensembleIds[0], recordName, records, Metadata(|records|, Kind(records[0])), 0);
  }

  /** A successful add found the experiment, checked the records' kind and ran the write loop on its first ensemble. */
  lemma AddWrites(env: Env, r: Remote, experimentName: string, recordName: string, records: seq<Record>)
    requires AddNumericalDataSpec(env, r, experimentName, recordName, records).result.Success?
    ensures var l := LookupSpec(env, r, experimentName);
      l.result.Success? && l.result.value.Some? && |l.result.value.value.ensembleIds| > 0 &&
      l.remote.store == r.store && |records| > 0 && Uniform(records, Kind(records[0])) &&
      AddNumericalDataSpec(env, r, experimentName, recordName, records)
        == WriteFromSpec(env, l.remote, l.result.value.value.ensembleIds[0], recordName, records,
                         Metadata(|records|, Kind(records[0])), 0)
  {
  }

  /** The lookup only reads the experiment list: against the same list it finds the same experiment. */
  lemma LookupSameList(env: Env, r: Remote, w: Remote, name: string)
    requires NoFaults(env)
    requires w.store.experiments == r.store.experiments
    ensures LookupSpec(env, w, name).result == LookupSpec(env, r, name).result
    ensures LookupSpec(env, w, name).remote.store == w.store
  {
    ServesAsWritten(env, r, GetExperiments);
    ServesAsWritten(env, w, GetExperiments);
  }

  /** The read of an experiment whose lookup and metadata succeed is the read loop from realization 0. */
  lemma GetReads(env: Env, w: Remote, experimentName: string, recordName: string)
    requires var l := LookupSpec(env, w, experimentName);
      l.result.Success? && l.result.value.Some? && |l.result.value.value.ensembleIds| > 0 &&
      MetadataSpec(env, l.remote, l.result.value.value.ensembleIds[0], recordName).result.Success?
    ensures var l := LookupSpec(env, w, experimentName);
      var ens := l.result.value.value.ensembleIds[0];
      var m := MetadataSpec(env, l.remote, ens, recordName);
      GetNumericalDataSpec(env, w, experimentName, recordName) == ReadFromSpec(env, m.remote, ens, recordName, m.result.value, 0, [])
  {
  }

  /** With the service answering as written, the metadata GET returns what realization 0 stores, and changes nothing. */
  lemma MetadataStored(env: Env, r: Remote, ens: Id, recordName: string)
    requires NoFaults(env)
    requires Slot(ens, recordName, 0) in r.store.userdata
    ensures MetadataSpec(env, r, ens, recordName).result == Success(r.store.userdata[Slot(ens, recordName, 0)])
    ensures MetadataSpec(env, r, ens, recordName).remote.store == r.store
  {
    ServesAsWritten(env, r, GetUserdata(Slot(ens, recordName, 0)));
  }

  /**
   * Reading back what a successful add wrote, with the service answering
   * as written, returns the same records: the ensemble size stored beside
   * realization 0 is the number of records, and each realization decodes to
   * the record encoded for it.
   */
  lemma ReadAfterWrite(env: Env, r: Remote, experimentName: string, recordName: string, records: seq<Record>)
    requires NoFaults(env)
    requires forall k :: 0 <= k < |records| ==> WellFormed(records[k])
    requires AddNumericalDataSpec(env, r, experimentName, recordName, records).result.Success?
    ensures var w := AddNumericalDataSpec(env, r, experimentName, recordName, records).remote;
      GetNumericalDataSpec(env, w, experimentName, recordName).result == Success(records)
    ensures var w := AddNumericalDataSpec(env, r, experimentName, recordName, records).remote;
      GetNumericalDataSpec(env, w, experimentName, recordName).remote.store == w.store
  {
    AddWrites(env, r, experimentName, recordName, records);
    var l := LookupSpec(env, r, experimentName);
    var ens := l.result.value.value.ensembleIds[0];
    var meta := Metadata(|records|, Kind(records[0]));
    WriteFromStore(env, l.remote, ens, recordName, records, meta, 0);
    var w := AddNumericalDataSpec(env, r, experimentName, recordName, records).remote;
    LookupSameList(env, r, w, experimentName);
    var l2 := LookupSpec(env, w, experimentName);
    MetadataStored(env, l2.remote, ens, recordName);
    GetReads(env, w, experimentName, recordName);
    var m := MetadataSpec(env, l2.remote, ens, recordName);
    forall k | 0 <= k < |records|
      ensures Decode(m.remote.store.matrices[Slot(ens, recordName, k)], meta.recordType, k) == Success(records[k])
    {
      assert Kind(records[k]) == meta.recordType;
      EncodeDecodeRoundTrip(records[k], k);
    }
    ReadFromStored(env, m.remote, ens, recordName, meta, records, 0);
    ReadFromKeepsStore(env, m.remote, ens, recordName, meta, 0, []);
  }

  /**
   * Adding the same record name to the same experiment twice, with the
   * service answering as written, fails on realization 0 with
   * ElementExistsError and changes nothing stored.
   */
  lemma WriteTwiceConflicts(env: Env, r: Remote, experimentName: string, recordName: string, records: seq<Record>)
    requires NoFaults(env)
    requires AddNumericalDataSpec(env, r, experimentName, recordName, records).result.Success?
    ensures var w := AddNumericalDataSpec(env, r, experimentName, recordName, records).remote;
      AddNumericalDataSpec(env, w, experimentName, recordName, records).result == Failure(ElementExistsError)
    ensures var w := AddNumericalDataSpec(env, r, experimentName, recordName, records).remote;
      AddNumericalDataSpec(env, w, experimentName, recordName, records).remote.store == w.store
  {
    var l := LookupSpec(env, r, experimentName);
    var exp := l.result.value.value;
    var ens := exp.ensembleIds[0];
    var meta := Metadata(|records|, Kind(records[0]));
    WriteFromStore(env, l.remote, ens, recordName, records, meta, 0);
    var w := WriteFromSpec(env, l.remote, ens, recordName, records, meta, 0).remote;
    var l2 := LookupSpec(env, w, experimentName);
    assert l2.result == l.result;
    var at := Slot(ens, recordName, 0);
    assert at in w.store.matrices && ens in w.store.ensembles;
    var p := Exchange(env, l2.remote, PostMatrix(at, Encode(records[0], 0)));
    assert p.response.status == CONFLICT;
  }

  /**
   * The metadata is read from realization 0 only: a single GET, 404
   * raising ElementMissingError and any other refusal StorageError.
   */
  lemma MetadataFromRealizationZero(env: Env, r: Remote, ens: Id, recordName: string)
    ensures MetadataSpec(env, r, ens, recordName).remote.log == r.log + [Call(env.endpoint, GetUserdata(Slot(ens, recordName, 0)))]
    ensures MetadataSpec(env, r, ens, recordName).remote.store == r.store
    ensures Exchange(env, r, GetUserdata(Slot(ens, recordName, 0))).response.status == NOT_FOUND ==>
      MetadataSpec(env, r, ens, recordName).result == Failure(ElementMissingError)
    ensures var x := Exchange(env, r, GetUserdata(Slot(ens, recordName, 0)));
      x.response.status != OK && x.response.status != NOT_FOUND ==>
        MetadataSpec(env, r, ens, recordName).result == Failure(StorageError(x.response.status))
    ensures var x := Exchange(env, r, GetUserdata(Slot(ens, recordName, 0)));
      x.response.status == OK ==>
        MetadataSpec(env, r, ens, recordName).result ==
          (if x.response.body.UserData? then Success(x.response.body.metadata) else Failure(BadResponseBody))
  {
  }

  /** A successful read sent the lookup, the metadata GET and then the matrix GETs 0..size-1, and changed nothing. */
  lemma GetTrace(env: Env, r: Remote, experimentName: string, recordName: string)
    requires GetNumericalDataSpec(env, r, experimentName, recordName).result.Success?
    ensures var l := LookupSpec(env, r, experimentName);
      l.result.Success? && l.result.value.Some? && |l.result.value.value.ensembleIds| > 0 &&
      var ens := l.result.value.value.ensembleIds[0];
      var m := MetadataSpec(env, l.remote, ens, recordName);
      var g := GetNumericalDataSpec(env, r, experimentName, recordName);
      m.result.Success? &&
      g.remote.store == r.store &&
      g.remote.log == r.log + Stamp(env.endpoint, [GetExperiments, GetUserdata(Slot(ens, recordName, 0))]
                                                  + ReadPlan(ens, recordName, 0, m.result.value.ensembleSize)) &&
      |g.result.value| == (if m.result.value.ensembleSize > 0 then m.result.value.ensembleSize else 0)
  {
    var ep := env.endpoint;
    var l := LookupSpec(env, r, experimentName);
    var ens := l.result.value.value.ensembleIds[0];
    var get0 := GetUserdata(Slot(ens, recordName, 0));
    var m := MetadataSpec(env, l.remote, ens, recordName);
    assert m.result.Success?;
    var g := ReadFromSpec(env, m.remote, ens, recordName, m.result.value, 0, []);
    assert GetNumericalDataSpec(env, r, experimentName, recordName) == g;
    assert m.remote.store == r.store;
    assert m.remote.log == r.log + [Call(ep, GetExperiments), Call(ep, get0)];
    ReadFromSuccessTrace(env, m.remote, ens, recordName, m.result.value, 0, []);
    ReadFromKeepsStore(env, m.remote, ens, recordName, m.result.value, 0, []);
    var plan := ReadPlan(ens, recordName, 0, m.result.value.ensembleSize);
    StampConcat(ep, [GetExperiments, get0], plan);
    assert Stamp(ep, [GetExperiments, get0]) == [Call(ep, GetExperiments), Call(ep, get0)];
  }

  /** init_experiment refuses a size <= 0 before sending anything. */
  lemma InitExperimentRejectsSize(env: Env, r: Remote, name: string, parameters: seq<string>, size: int)
    requires size <= 0
    ensures InitExperimentSpec(env, r, name, parameters, size) == Run(r, Failure(ValueError(BadSizeMessage)))
  {
  }

  /**
   * _init_experiment refuses an empty name before sending anything and an
   * existing name after the lookup alone: neither POST is sent.
   */
  lemma CreateExperimentRejects(env: Env, r: Remote, name: string, parameters: seq<string>, size: int)
    ensures name == "" ==> CreateExperimentSpec(env, r, name, parameters, size) == Run(r, Failure(ValueError(NoNameMessage)))
    ensures name != "" && LookupSpec(env, r, name).result.Success? && LookupSpec(env, r, name).result.value.Some? ==>
      CreateExperimentSpec(env, r, name, parameters, size)
        == Run(Remote(r.store, r.log + [Call(env.endpoint, GetExperiments)]), Failure(ElementExistsError))
  {
  }

  /** With the service answering as written, POST /experiments appends the experiment under the next id. */
  lemma PostExperimentServed(env: Env, r: Remote, name: string)
    requires NoFaults(env)
    ensures var e := Exchange(env, r, PostExperiment(name));
      e.response == Response(OK, Created(r.store.nextId)) &&
      e.remote.store == r.store.(experiments := r.store.experiments + [Experiment(r.store.nextId, name, [])],
                                 nextId := r.store.nextId + 1)
  {
    ServesAsWritten(env, r, PostExperiment(name));
  }

  /** With the service answering as written, POST /ensembles for an experiment it has attaches and stores the ensemble. */
  lemma PostEnsembleServed(env: Env, r: Remote, exp: Id, parameters: seq<string>, size: int)
    requires NoFaults(env)
    requires HasExperiment(r.store.experiments, exp)
    ensures var p := Exchange(env, r, PostEnsemble(exp, parameters, [], size));
      p.response == Response(OK, Created(r.store.nextId)) &&
      p.remote.store.experiments == Attach(r.store.experiments, exp, r.store.nextId) &&
      p.remote.store.ensembles == r.store.ensembles[r.store.nextId := Ensemble(exp, parameters, [], size, [])]
  {
    ServesAsWritten(env, r, PostEnsemble(exp, parameters, [], size));
  }

  /**
   * With the service answering as written, the two POSTs succeed: the new
   * experiment is appended under the next id and the ensemble, under the
   * id after it, is attached to it and stored.
   */
  lemma PostExperimentStore(env: Env, r: Remote, name: string, parameters: seq<string>, size: int)
    requires NoFaults(env)
    ensures PostExperimentSpec(env, r, name, parameters, size).result.Success?
    ensures var s := PostExperimentSpec(env, r, name, parameters, size).remote.store;
      var id := r.store.nextId;
      s.experiments == Attach(r.store.experiments + [Experiment(id, name, [])], id, id + 1) &&
      id + 1 in s.ensembles && s.ensembles[id + 1] == Ensemble(id, parameters, [], size, [])
  {
    var id := r.store.nextId;
    PostExperimentServed(env, r, name);
    var e := Exchange(env, r, PostExperiment(name));
    var s1 := e.remote.store;
    assert HasExperiment(s1.experiments, id) by {
      assert s1.experiments[|s1.experiments| - 1].id == id;
    }
    PostEnsembleServed(env, e.remote, id, parameters, size);
  }

  /** A successful _init_experiment found no experiment of that name and then made the two POSTs. */
  lemma CreateExperimentPosts(env: Env, r: Remote, name: string, parameters: seq<string>, size: int)
    requires NoFaults(env)
    requires CreateExperimentSpec(env, r, name, parameters, size).result.Success?
    ensures name != ""
    ensures LookupSpec(env, r, name).result == Success(None) && LookupSpec(env, r, name).remote.store == r.store
    ensures CreateExperimentSpec(env, r, name, parameters, size)
      == PostExperimentSpec(env, LookupSpec(env, r, name).remote, name, parameters, size)
  {
  }

  /** A successful _init_experiment leaves an experiment of that name in the store, with one ensemble of that size. */
  lemma CreateExperimentCreates(env: Env, r: Remote, name: string, parameters: seq<string>, size: int)
    requires NoFaults(env)
    requires CreateExperimentSpec(env, r, name, parameters, size).result.Success?
    ensures var s := CreateExperimentSpec(env, r, name, parameters, size).remote.store;
      name in NameSet(s.experiments) &&
      var e := FindByName(s.experiments, name).value;
      |e.ensembleIds| == 1 && e.ensembleIds[0] in s.ensembles &&
      s.ensembles[e.ensembleIds[0]].size == size && s.ensembles[e.ensembleIds[0]].parameterNames == parameters &&
      s.ensembles[e.ensembleIds[0]].recordNames == []
  {
    CreateExperimentPosts(env, r, name, parameters, size);
    PostExperimentStore(env, LookupSpec(env, r, name).remote, name, parameters, size);
    var s := CreateExperimentSpec(env, r, name, parameters, size).remote.store;
    var id := r.store.nextId;
    AttachedLast(r.store.experiments, id, name, id + 1);
  }

  /** The experiment appended last, with no ensembles yet, is the one found by its name and gets the new ensemble. */
  lemma AttachedLast(exps: seq<Experiment>, id: Id, name: string, ens: Id)
    ensures var a := Attach(exps + [Experiment(id, name, [])], id, ens);
      |a| == |exps| + 1 && a[|exps|] == Experiment(id, name, [ens]) &&
      a[|exps|] in a && name in NameSet(a) && FindByName(a, name) == Some(a[|exps|])
  {
    var a := Attach(exps + [Experiment(id, name, [])], id, ens);
    var x := (exps + [Experiment(id, name, [])])[|exps|];
    assert x == Experiment(id, name, []);
    assert a[|exps|].id == id && a[|exps|].name == name && a[|exps|].ensembleIds == [] + [ens];
    assert a[|exps|] in a;
  }

  /** The reserved experiment never appears among the listed names; every other name does. */
  lemma ReservedNameHidden(exps: seq<Experiment>, workspace: string)
    ensures ReservedName(workspace, EnsembleRecords) !in VisibleNames(exps, workspace)
    ensures forall n :: n in NameSet(exps) && n != ReservedName(workspace, EnsembleRecords) ==> n in VisibleNames(exps, workspace)
  {
    assert ReservedNames(workspace, SpecialKeys) == {ReservedName(workspace, EnsembleRecords)};
  }

  /** get_experiment_names lists exactly the service's names except the reserved one. */
  lemma ExperimentNamesHidesReserved(env: Env, r: Remote, workspace: string)
    requires ExperimentNamesSpec(env, r, workspace).result.Success?
    ensures forall n :: n in ExperimentNamesSpec(env, r, workspace).result.value <==>
      n in NameSet(r.store.experiments) && n != ReservedName(workspace, EnsembleRecords)
  {
    ReservedNameHidden(r.store.experiments, workspace);
  }

  /** init refuses a workspace whose reserved experiment exists, after one GET and before any POST. */
  lemma InitRejectsInitialized(env: Env, r: Remote, workspace: string)
    requires NoFaults(env)
    requires ReservedName(workspace, EnsembleRecords) in NameSet(r.store.experiments)
    ensures InitSpec(env, r, workspace)
         == Run(Remote(r.store, r.log + [Call(env.endpoint, GetExperiments)]), Failure(ValueError(InitializedMessage)))
  {
  }

  /** After a successful init, a second init of the same workspace raises ValueError. */
  lemma InitTwiceRejected(env: Env, r: Remote, workspace: string)
    requires NoFaults(env)
    requires InitSpec(env, r, workspace).result.Success?
    ensures var w := InitSpec(env, r, workspace).remote;
      InitSpec(env, w, workspace).result == Failure(ValueError(InitializedMessage))
  {
    var key := ReservedName(workspace, EnsembleRecords);
    var x := Exchange(env, r, GetExperiments);
    assert InitSpec(env, r, workspace) == CreateExperimentSpec(env, x.remote, key, [], -1);
    CreateExperimentCreates(env, x.remote, key, [], -1);
    var w := InitSpec(env, r, workspace).remote;
    InitRejectsInitialized(env, w, workspace);
  }

  /** add and get default to the workspace's reserved experiment. */
  lemma DefaultTarget(workspace: string)
    ensures TargetExperiment(workspace, None) == workspace + "." + "__ensemble_records__"
    ensures forall n :: TargetExperiment(workspace, Some(n)) == n
  {
  }

  /**
   * Deleting the only experiment of a name succeeds (service answering as
   * written) and a second delete of that name raises NonExistantExperiment.
   */
  lemma DeleteTwice(env: Env, r: Remote, name: string)
    requires NoFaults(env)
    requires exists i :: 0 <= i < |r.store.experiments| && r.store.experiments[i].name == name
    requires forall i, j ::
      (0 <= i < |r.store.experiments| && 0 <= j < |r.store.experiments| &&
       r.store.experiments[i].name == name && r.store.experiments[j].name == name) ==> i == j
    ensures DeleteExperimentSpec(env, r, name).result == Success(())
    ensures var w := DeleteExperimentSpec(env, r, name).remote;
      DeleteExperimentSpec(env, w, name).result == Failure(NonExistantExperiment)
  {
    var exps := r.store.experiments;
    ServesAsWritten(env, r, GetExperiments);
    var l := LookupSpec(env, r, name);
    var e := FindByName(exps, name).value;
    assert l.result == Success(Some(e)) && l.remote.store == r.store;
    assert HasExperiment(exps, e.id);
    ServesAsWritten(env, l.remote, DeleteById(e.id));
    var w := DeleteExperimentSpec(env, r, name).remote;
    assert w.store.experiments == Without(exps, e.id);
    ServesAsWritten(env, w, GetExperiments);
    forall k | 0 <= k < |w.store.experiments|
      ensures w.store.experiments[k].name != name
    {
      var f := w.store.experiments[k];
      assert f in exps && f.id != e.id;
    }
  }

  /**
   * With the service answering as written, the two name lists are the
   * record names and the parameter names the store keeps for the found
   * experiment's first ensemble; an ensemble the store does not have gives
   * StorageError(404).
   */
  lemma EnsembleNamesServed(env: Env, r: Remote, experimentName: string, parameters: bool)
    requires NoFaults(env)
    ensures var l := LookupSpec(env, r, experimentName);
      l.result.Success? && l.result.value.Some? && |l.result.value.value.ensembleIds| > 0 ==>
        var ens := l.result.value.value.ensembleIds[0];
        EnsembleNamesSpec(env, r, experimentName, parameters).result ==
          if ens !in r.store.ensembles then Failure(StorageError(NOT_FOUND))
          else if parameters then Success(r.store.ensembles[ens].parameterNames)
          else Success(r.store.ensembles[ens].recordNames)
    ensures EnsembleNamesSpec(env, r, experimentName, parameters).remote.store == r.store
  {
    ServesAsWritten(env, r, GetExperiments);
    var l := LookupSpec(env, r, experimentName);
    if l.result.Success? && l.result.value.Some? && |l.result.value.value.ensembleIds| > 0 {
      var ens := l.result.value.value.ensembleIds[0];
      ServesAsWritten(env, l.remote, if parameters then GetParameters(ens) else GetRecordNames(ens));
    }
  }

  /**
   * After a successful add_ensemble_record, with the service answering as
   * written, get_ensemble_record_names lists the record's name and every
   * name it listed before.
   */
  lemma RecordNameListedAfterAdd(env: Env, r: Remote, experimentName: string, recordName: string, records: seq<Record>)
    requires NoFaults(env)
    requires AddNumericalDataSpec(env, r, experimentName, recordName, records).result.Success?
    ensures var w := AddNumericalDataSpec(env, r, experimentName, recordName, records).remote;
      var x := EnsembleNamesSpec(env, w, experimentName, false);
      x.result.Success? && recordName in x.result.value
    ensures var w := AddNumericalDataSpec(env, r, experimentName, recordName, records).remote;
      var before := EnsembleNamesSpec(env, r, experimentName, false);
      var x := EnsembleNamesSpec(env, w, experimentName, false);
      before.result.Success? ==> forall n :: n in before.result.value ==> n in x.result.value
  {
    AddWrites(env, r, experimentName, recordName, records);
    var l := LookupSpec(env, r, experimentName);
    var ens := l.result.value.value.ensembleIds[0];
    var meta := Metadata(|records|, Kind(records[0]));
    WriteFromStore(env, l.remote, ens, recordName, records, meta, 0);
    WriteFromNames(env, l.remote, ens, recordName, records, meta, 0);
    var w := AddNumericalDataSpec(env, r, experimentName, recordName, records).remote;
    LookupSameList(env, r, w, experimentName);
    EnsembleNamesServed(env, r, experimentName, false);
    EnsembleNamesServed(env, w, experimentName, false);
  }

  /**
   * After a successful _init_experiment, with the service answering as
   * written, get_experiment_parameters gives back the parameters the
   * experiment was created with, and its ensemble lists no record yet.
   */
  lemma ParametersAfterCreate(env: Env, r: Remote, name: string, parameters: seq<string>, size: int)
    requires NoFaults(env)
    requires CreateExperimentSpec(env, r, name, parameters, size).result.Success?
    ensures var w := CreateExperimentSpec(env, r, name, parameters, size).remote;
      EnsembleNamesSpec(env, w, name, true).result == Success(parameters)
    ensures var w := CreateExperimentSpec(env, r, name, parameters, size).remote;
      EnsembleNamesSpec(env, w, name, false).result == Success([])
  {
    CreateExperimentCreates(env, r, name, parameters, size);
    var w := CreateExperimentSpec(env, r, name, parameters, size).remote;
    ServesAsWritten(env, w, GetExperiments);
    EnsembleNamesServed(env, w, name, true);
    EnsembleNamesServed(env, w, name, false);
  }
}
