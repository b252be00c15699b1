/**
 * The storage service the ensemble-record client talks to, as an abstract
 * store, and the client's transport (ert3/storage/_storage.py, the
 * `_assert_server_info` and `_get_from_server`/`_post_to_server`/
 * `_put_to_server`/`_delete_on_server` helpers).
 *
 * The service keeps experiments by name, ensembles by id, and one CSV
 * matrix and one metadata document per (ensemble, record, realization).
 * Every request is logged with the endpoint and token it was sent with, so
 * that the order of requests the client issues can be stated. A fault
 * oracle, keyed by the position of a request in that log, injects a status
 * code in place of the service's own answer.
 */
module Service {
  import opened Wrappers
  import opened Records

  const OK := 200
  const NOT_FOUND := 404
  const CONFLICT := 409

  type Id = nat

  datatype Experiment = Experiment(id: Id, name: string, ensembleIds: seq<Id>)

  datatype Ensemble = Ensemble(
    experiment: Id,
    parameterNames: seq<string>,
    responseNames: seq<string>,
    size: int,
    recordNames: seq<string>)

  /** Where one realization of one record of one ensemble is kept. */
  datatype Slot = Slot(ensemble: Id, record: string, realization: int)

  /** _NumericalMetaData: the userdata stored beside every realization. */
  datatype Metadata = Metadata(ensembleSize: int, recordType: RecordKind)

  datatype Store = Store(
    experiments: seq<Experiment>,
    ensembles: map<Id, Ensemble>,
    nextId: Id,
    matrices: map<Slot, Table>,
    userdata: map<Slot, Metadata>)

  datatype Request =
    | GetExperiments                                   // GET experiments
    | PostExperiment(name: string)                     // POST experiments
    | PostEnsemble(experiment: Id, parameterNames: seq<string>,
                   responseNames: seq<string>, size: int) // POST experiments/{id}/ensembles
    | DeleteById(experiment: Id)                       // DELETE experiments/{id}
    | GetRecordNames(ensemble: Id)                     // GET ensembles/{id}/records
    | GetParameters(ensemble: Id)                      // GET ensembles/{id}/parameters
    | PostMatrix(at: Slot, table: Table)               // POST ensembles/{id}/records/{name}/matrix
    | PutUserdata(at: Slot, metadata: Metadata)        // PUT ensembles/{id}/records/{name}/userdata
    | GetUserdata(at: Slot)                            // GET ensembles/{id}/records/{name}/userdata
    | GetMatrix(at: Slot)                              // GET ensembles/{id}/records/{name}

  /** The decoded JSON or CSV body of a response. */
  datatype Body =
    | NoBody
    | ExperimentList(experiments: seq<Experiment>)
    | Created(id: Id)
    | Names(names: seq<string>)
    | Matrix(table: Table)
    | UserData(metadata: Metadata)

  datatype Response = Response(status: int, body: Body)

  datatype Served = Served(store: Store, response: Response)

  function Refuse(s: Store, status: int): Served {
    Served(s, Response(status, NoBody))
  }

  predicate HasExperiment(exps: seq<Experiment>, id: Id) {
    exists i :: 0 <= i < |exps| && exps[i].id == id
  }

  /** Appends `ens` to the ensemble list of every experiment with id `id`. */
  function Attach(exps: seq<Experiment>, id: Id, ens: Id): (r: seq<Experiment>)
    ensures |r| == |exps|
    ensures forall i :: 0 <= i < |exps| ==> r[i].id == exps[i].id && r[i].name == exps[i].name
    ensures forall i :: 0 <= i < |exps| ==>
      r[i].ensembleIds == (if exps[i].id == id then exps[i].ensembleIds + [ens] else exps[i].ensembleIds)
  {
    if |exps| == 0 then []
    else
      var e := exps[0];
      [if e.id == id then e.(ensembleIds := e.ensembleIds + [ens]) else e] + Attach(exps[1..], id, ens)
  }

  /** The experiments whose id is not `id`, in their order. */
  function Without(exps: seq<Experiment>, id: Id): (r: seq<Experiment>)
    ensures forall i :: 0 <= i < |r| ==> r[i].id != id && r[i] in exps
    ensures forall e :: e in exps && e.id != id ==> e in r
  {
    if |exps| == 0 then []
    else (if exps[0].id == id then [] else [exps[0]]) + Without(exps[1..], id)
  }

  function AddName(names: seq<string>, n: string): (r: seq<string>)
    ensures n in r && forall m :: m in names ==> m in r
  {
    if n in names then names else names + [n]
  }

  /** What the service does with one request when no fault is injected. */
  function Serve(s: Store, req: Request): (r: Served)
    ensures (req.GetExperiments? || req.GetRecordNames? || req.GetParameters? ||
             req.GetUserdata? || req.GetMatrix?) ==> r.store == s
    ensures r.response.status == OK || r.store == s
    ensures req.PostMatrix? && r.response.status == OK ==>
      req.at !in s.matrices && r.store.matrices == s.matrices[req.at := req.table]
    ensures req.PostMatrix? && req.at in s.matrices ==> r.response.status != OK
    ensures req.PostMatrix? && req.at.ensemble in s.ensembles && req.at in s.matrices ==> r.response.status == CONFLICT
    ensures req.PostMatrix? && req.at.ensemble !in s.ensembles ==> r.response.status == NOT_FOUND
  {
    match req
    case GetExperiments =>
      Served(s, Response(OK, ExperimentList(s.experiments)))
    case PostExperiment(name) =>
      var e := Experiment(s.nextId, name, []);
      Served(s.(experiments := s.experiments + [e], nextId := s.nextId + 1), Response(OK, Created(e.id)))
    case PostEnsemble(exp, ps, rs, size) =>
      if !HasExperiment(s.experiments, exp) then Refuse(s, NOT_FOUND)
      else
        var id := s.nextId;
        Served(s.(experiments := Attach(s.experiments, exp, id),
                  ensembles := s.ensembles[id := Ensemble(exp, ps, rs, size, [])],
                  nextId := id + 1),
               Response(OK, Created(id)))
    case DeleteById(exp) =>
      if !HasExperiment(s.experiments, exp) then Refuse(s, NOT_FOUND)
      else Served(s.(experiments := Without(s.experiments, exp)), Response(OK, NoBody))
    case GetRecordNames(ens) =>
      if ens !in s.ensembles then Refuse(s, NOT_FOUND)
      else Served(s, Response(OK, Names(s.ensembles[ens].recordNames)))
    case GetParameters(ens) =>
      if ens !in s.ensembles then Refuse(s, NOT_FOUND)
      else Served(s, Response(OK, Names(s.ensembles[ens].parameterNames)))
    case PostMatrix(at, t) =>
      if at.ensemble !in s.ensembles then Refuse(s, NOT_FOUND)
      else if at in s.matrices then Refuse(s, CONFLICT)
      else
        var en := s.ensembles[at.ensemble];
        Served(s.(matrices := s.matrices[at := t],
                  ensembles := s.ensembles[at.ensemble := en.(recordNames := AddName(en.recordNames, at.record))]),
               Response(OK, NoBody))
    case PutUserdata(at, m) =>
      if at.ensemble !in s.ensembles then Refuse(s, NOT_FOUND)
      else Served(s.(userdata := s.userdata[at := m]), Response(OK, NoBody))
    case GetUserdata(at) =>
      if at !in s.userdata then Refuse(s, NOT_FOUND)
      else Served(s, Response(OK, UserData(s.userdata[at])))
    case GetMatrix(at) =>
      if at !in s.matrices then Refuse(s, NOT_FOUND)
      else Served(s, Response(OK, Matrix(s.matrices[at])))
  }

  /** The base url and the Token header a request goes out with. */
  datatype Endpoint = Endpoint(baseurl: string, token: Option<string>)

  datatype Call = Call(endpoint: Endpoint, request: Request)

  /** The service's store and every request it has received, oldest first. */
  datatype Remote = Remote(store: Store, log: seq<Call>)

  /** The fault oracle (status codes by log position) and the endpoint in use. */
  datatype Env = Env(faults: map<nat, int>, endpoint: Endpoint)

  datatype Reply = Reply(remote: Remote, response: Response)

  /**
   * One round trip. The request is logged; an injected status other than
   * 200 answers in place of the service and has no effect on the store.
   * The transport never raises: every outcome is a status.
   */
  function Exchange(env: Env, r: Remote, req: Request): (x: Reply)
    ensures x.remote.log == r.log + [Call(env.endpoint, req)]
    ensures x.response.status == OK || x.remote.store == r.store
    ensures |r.log| in env.faults && env.faults[|r.log|] != OK ==>
      x.remote.store == r.store && x.response == Response(env.faults[|r.log|], NoBody)
    ensures !(|r.log| in env.faults && env.faults[|r.log|] != OK) ==>
      Served(x.remote.store, x.response) == Serve(r.store, req)
  {
    var n := |r.log|;
    var log := r.log + [Call(env.endpoint, req)];
    if n in env.faults && env.faults[n] != OK then
      Reply(Remote(r.store, log), Response(env.faults[n], NoBody))
    else
      var sv := Serve(r.store, req);
      Reply(Remote(sv.store, log), sv.response)
  }

  /** ert_shared.storage.connection.get_info(): the base url and the auth token. */
  datatype ServerInfo = ServerInfo(baseurl: string, token: string)

  /**
   * The module globals _STORAGE_URL and _STORAGE_TOKEN, together with the
   * service they lead to.
   */
  class Connection {
    const info: ServerInfo
    const faults: map<nat, int>
    var url: Option<string>
    var token: Option<string>
    var remote: Remote

    constructor(info: ServerInfo, faults: map<nat, int>, remote: Remote)
      ensures this.info == info && this.faults == faults && this.remote == remote
      ensures url == None && token == None
    {
      this.info := info;
      this.faults := faults;
      this.remote := remote;
      url := None;
      token := None;
    }

    /** The endpoint the next request goes to once the globals are set. */
    function Session(): Endpoint
      reads this`url, this`token
    {
      if url.None? then Endpoint(info.baseurl, Some(info.token)) else Endpoint(url.value, token)
    }

    function Environment(): Env
      reads this`url, this`token
    {
      Env(faults, Session())
    }

    /** _assert_server_info: fetch the server info once, while the url is unset. */
    method AssertServerInfo()
      modifies this`url, this`token
      ensures url.Some? && Session() == old(Session())
      ensures old(url).None? ==> url == Some(info.baseurl) && token == Some(info.token)
      ensures old(url).Some? ==> url == old(url) && token == old(token)
    {
      if url.None? {
        url := Some(info.baseurl);
        token := Some(info.token);
      }
    }

    /** The request helpers: set the server info, attach the token, send, return the response. */
    method Send(req: Request) returns (resp: Response)
      modifies this`url, this`token, this`remote
      ensures url.Some? && Environment() == old(Environment())
      ensures Reply(remote, resp) == Exchange(old(Environment()), old(remote), req)
    {
      AssertServerInfo();
      var x := Exchange(Environment(), remote, req);
      remote := x.remote;
      resp := x.response;
    }
  }
}
