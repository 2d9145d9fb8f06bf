/** The orchestration backend as the deployment sees it through its adapter client: a
    store of remote services and their actual states, with a ghost log of every call made. */
module OrchestrationAdapter {
  import opened Wrappers
  import opened JsonValues

  /** The orchestrator's own identifier of a service. */
  type ServiceId = string

  /** The states a deployment asks for (`:started`, `:stopped`) or reports overall (also `:error`). */
  datatype State = Started | Stopped | Error

  /** The name under which a state appears in the orchestrator's `actualState` field. */
  function StateName(s: State): string
  {
    match s
    case Started => "started"
    case Stopped => "stopped"
    case Error => "error"
  }

  /** What the orchestrator answers about one service: its id and its actual state. */
  datatype RemoteService = RemoteService(id: ServiceId, actualState: string)

  datatype Request = Get | Update(desired: State) | Delete

  /** One call into the adapter, as recorded in the log. */
  datatype Call =
    | Create(definitions: seq<Json>)
    | Send(request: Request, id: ServiceId)

  datatype AdapterError =
    | CreateError
    | NotFoundError(id: ServiceId)
    | UpdateError(id: ServiceId)
    | DeleteError(id: ServiceId)

  /** One `request` call per id, in the order of `ids`. */
  ghost function Sends(request: Request, ids: seq<ServiceId>): seq<Call>
  {
    if ids == [] then [] else Sends(request, ids[..|ids| - 1]) + [Send(request, ids[|ids| - 1])]
  }

  /** The log of a fan-out holds exactly one call per id, the i-th call being about the i-th id. */
  lemma {:induction false} SendsOneCallPerId(request: Request, ids: seq<ServiceId>)
    ensures |Sends(request, ids)| == |ids|
    ensures forall j :: 0 <= j < |ids| ==> Sends(request, ids)[j] == Send(request, ids[j])
  {
    if ids != [] {
      SendsOneCallPerId(request, ids[..|ids| - 1]);
    }
  }

  /** `m` after setting every id of `ids` to `state`, one after the other. */
  function Put(m: map<ServiceId, string>, ids: seq<ServiceId>, state: string): map<ServiceId, string>
  {
    if ids == [] then m else Put(m, ids[..|ids| - 1], state)[ids[|ids| - 1] := state]
  }

  /** Setting ids one by one adds exactly those ids, gives them `state` and leaves every other
      entry as it was. */
  lemma {:induction false} PutSetsExactlyIds(m: map<ServiceId, string>, ids: seq<ServiceId>, state: string)
    ensures forall x :: x in Put(m, ids, state) <==> x in m || x in ids
    ensures forall x :: x in Put(m, ids, state) ==>
      Put(m, ids, state)[x] == if x in ids then state else m[x]
  {
    if ids != [] {
      var front := ids[..|ids| - 1];
      PutSetsExactlyIds(m, front, state);
      assert forall x :: x in ids <==> x in front || x == ids[|ids| - 1];
    }
  }

  /** `m` after removing every id of `ids`, one after the other. */
  function Without(m: map<ServiceId, string>, ids: seq<ServiceId>): map<ServiceId, string>
  {
    if ids == [] then m else Without(m, ids[..|ids| - 1]) - {ids[|ids| - 1]}
  }

  /** Removing ids one by one removes exactly those ids and keeps every other entry. */
  lemma {:induction false} WithoutRemovesExactlyIds(m: map<ServiceId, string>, ids: seq<ServiceId>)
    ensures forall x :: x in Without(m, ids) <==> x in m && x !in ids
    ensures forall x :: x in Without(m, ids) ==> Without(m, ids)[x] == m[x]
  {
    if ids != [] {
      var front := ids[..|ids| - 1];
      WithoutRemovesExactlyIds(m, front);
      assert forall x :: x in ids <==> x in front || x == ids[|ids| - 1];
    }
  }

  /** The ids of `ids` that a backend holding `services` does not know. */
  ghost function MissingIds(services: map<ServiceId, string>, ids: seq<ServiceId>): set<ServiceId>
  {
    set id | id in ids && id !in services
  }

  /** The ids of `ids` whose update is refused by a backend holding `services` that rejects
      `failing`. */
  ghost function RefusedIds(services: map<ServiceId, string>, failing: set<ServiceId>, ids: seq<ServiceId>): set<ServiceId>
  {
    set id | id in ids && (id !in services || id in failing)
  }

  function Digits(n: nat): string
  {
    var d := "0123456789"[n % 10];
    if n < 10 then [d] else Digits(n / 10) + [d]
  }

  /** The id the orchestrator hands out to the `n`-th service it creates. */
  function IdFor(n: nat): ServiceId
  {
    "svc-" + Digits(n)
  }

  function IssuedIds(first: nat, count: nat): seq<ServiceId>
  {
    seq(count, i requires 0 <= i < count => IdFor(first + i))
  }

  class Client {
    /** The services the orchestrator holds, with their actual states. */
    var services: map<ServiceId, string>
    /** Services whose update or delete the orchestrator rejects. */
    var failing: set<ServiceId>
    /** Whether the orchestrator rejects a creation request. */
    var creationFails: bool
    /** How many services the orchestrator has created so far. */
    var issued: nat
    /** Every call made through the adapter, oldest first. */
    ghost var log: seq<Call>

    constructor (services: map<ServiceId, string>, failing: set<ServiceId>, creationFails: bool)
      ensures this.services == services && this.failing == failing
      ensures this.creationFails == creationFails && issued == 0 && log == []
    {
      this.services := services;
      this.failing := failing;
      this.creationFails := creationFails;
      issued := 0;
      log := [];
    }

    /** The ids of `ids` that a get call would not find. */
    ghost function Missing(ids: seq<ServiceId>): set<ServiceId>
      reads this
    {
      MissingIds(services, ids)
    }

    /** The ids of `ids` whose update the orchestrator refuses. */
    ghost function Refusing(ids: seq<ServiceId>): set<ServiceId>
      reads this
    {
      RefusedIds(services, failing, ids)
    }

    /** Creates one service per definition, all or none; new services report "started". */
    method CreateServices(definitions: seq<Json>) returns (r: Result<seq<RemoteService>, AdapterError>)
      modifies this`services, this`issued, this`log
      ensures log == old(log) + [Create(definitions)]
      ensures creationFails ==>
        r == Failure(CreateError) && services == old(services) && issued == old(issued)
      ensures !creationFails ==>
        && r.Success?
        && |r.value| == |definitions|
        && (forall i :: 0 <= i < |definitions| ==>
              r.value[i] == RemoteService(IdFor(old(issued) + i), StateName(Started)))
        && services == Put(old(services), IssuedIds(old(issued), |definitions|), StateName(Started))
        && issued == old(issued) + |definitions|
    {
      log := log + [Create(definitions)];
      if creationFails {
        return Failure(CreateError);
      }
      var first := issued;
      var created := seq(|definitions|, i requires 0 <= i < |definitions| =>
        RemoteService(IdFor(first + i), StateName(Started)));
      services := Put(services, IssuedIds(first, |definitions|), StateName(Started));
      issued := issued + |definitions|;
      r := Success(created);
    }

    /** The status of one service; fails when the orchestrator does not know the id. */
    method GetService(id: ServiceId) returns (r: Result<RemoteService, AdapterError>)
      modifies this`log
      ensures log == old(log) + [Send(Get, id)]
      ensures id in services ==> r == Success(RemoteService(id, services[id]))
      ensures id !in services ==> r == Failure(NotFoundError(id))
    {
      log := log + [Send(Get, id)];
      if id in services {
        r := Success(RemoteService(id, services[id]));
      } else {
        r := Failure(NotFoundError(id));
      }
    }

    /** Moves one service to the desired state. */
    method UpdateService(id: ServiceId, desired: State) returns (r: Outcome<AdapterError>)
      modifies this`services, this`log
      ensures log == old(log) + [Send(Update(desired), id)]
      ensures id in old(services) && id !in failing ==>
        r == Pass && services == old(services)[id := StateName(desired)]
      ensures !(id in old(services) && id !in failing) ==>
        r == Fail(UpdateError(id)) && services == old(services)
    {
      log := log + [Send(Update(desired), id)];
      if id in services && id !in failing {
        services := services[id := StateName(desired)];
        r := Pass;
      } else {
        r := Fail(UpdateError(id));
      }
    }

    /** Deletes one service; deleting an id that is already gone succeeds. */
    method DeleteService(id: ServiceId) returns (r: Outcome<AdapterError>)
      modifies this`services, this`log
      ensures log == old(log) + [Send(Delete, id)]
      ensures id !in failing ==> r == Pass && services == old(services) - {id}
      ensures id in failing ==> r == Fail(DeleteError(id)) && services == old(services)
    {
      log := log + [Send(Delete, id)];
      if id in failing {
        r := Fail(DeleteError(id));
      } else {
        services := services - {id};
        r := Pass;
      }
    }
  }
}
