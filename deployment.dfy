/** A deployment: the ordered ids of the remote services created from one template, and the
    lifecycle operations that fan out one adapter call per id. */
module Deployments {
  import opened Wrappers
  import opened JsonValues
  import opened Sequences
  import opened OrchestrationAdapter

  datatype DeployError = TemplateFormatError | AdapterFailure(cause: AdapterError)

  /** The answer of `status`: the overall state and the per-service answers, in id order. */
  datatype StatusReport = StatusReport(overall: State, services: seq<RemoteService>)

  // ----- Status aggregation -----

  predicate InState(s: RemoteService, state: State)
  {
    s.actualState == StateName(state)
  }

  /** Ruby's `any? { |s| s['actualState'] == name }`. */
  function AnyInState(ss: seq<RemoteService>, state: State): (b: bool)
    ensures b <==> exists i :: 0 <= i < |ss| && InState(ss[i], state)
  {
    if ss == [] then false
    else
      assert forall i :: 1 <= i < |ss| ==> ss[i] == ss[1..][i - 1];
      InState(ss[0], state) || AnyInState(ss[1..], state)
  }

  /** The overall state of a deployment: error if any service is in error, else stopped if any
      is stopped, else started (also when there are no services at all). */
  function OverallStatus(ss: seq<RemoteService>): (r: State)
    ensures r == Error <==> exists i :: 0 <= i < |ss| && InState(ss[i], Error)
    ensures r == Stopped <==>
      && (forall i :: 0 <= i < |ss| ==> !InState(ss[i], Error))
      && (exists i :: 0 <= i < |ss| && InState(ss[i], Stopped))
    ensures r == Started <==>
      forall i :: 0 <= i < |ss| ==> !InState(ss[i], Error) && !InState(ss[i], Stopped)
  {
    if AnyInState(ss, Error) then Error
    else if AnyInState(ss, Stopped) then Stopped
    else Started
  }

  /** The precedence error > stopped > started, as a binary operation. */
  function Worst(a: State, b: State): State
  {
    if a == Error || b == Error then Error
    else if a == Stopped || b == Stopped then Stopped
    else Started
  }

  /** What one service contributes to the overall state on its own. */
  function Rank(s: RemoteService): State
  {
    if InState(s, Error) then Error else if InState(s, Stopped) then Stopped else Started
  }

  /** A reference definition of the aggregation: fold the precedence over the services. */
  function FoldWorst(ss: seq<RemoteService>): State
  {
    if ss == [] then Started else Worst(Rank(ss[0]), FoldWorst(ss[1..]))
  }

  lemma {:induction false} OverallIsFold(ss: seq<RemoteService>)
    ensures OverallStatus(ss) == FoldWorst(ss)
  {
    if ss != [] {
      OverallIsFold(ss[1..]);
      var tail := ss[1..];
      assert forall i :: 1 <= i < |ss| ==> ss[i] == tail[i - 1];
      if InState(ss[0], Error) {
        assert OverallStatus(ss) == Error;
      } else if OverallStatus(tail) == Error {
        var j :| 0 <= j < |tail| && InState(tail[j], Error);
        assert InState(ss[j + 1], Error);
      } else if InState(ss[0], Stopped) {
        assert OverallStatus(ss) == Stopped;
      } else if OverallStatus(tail) == Stopped {
        var j :| 0 <= j < |tail| && InState(tail[j], Stopped);
        assert InState(ss[j + 1], Stopped);
      }
    }
  }

  lemma {:induction false} FoldConcat(a: seq<RemoteService>, b: seq<RemoteService>)
    ensures FoldWorst(a + b) == Worst(FoldWorst(a), FoldWorst(b))
  {
    if a != [] {
      assert (a + b)[1..] == a[1..] + b;
      FoldConcat(a[1..], b);
    } else {
      assert a + b == b;
    }
  }

  /** The overall state of two groups of services together is the worse of their overall states. */
  lemma OverallConcat(a: seq<RemoteService>, b: seq<RemoteService>)
    ensures OverallStatus(a + b) == Worst(OverallStatus(a), OverallStatus(b))
  {
    OverallIsFold(a);
    OverallIsFold(b);
    OverallIsFold(a + b);
    FoldConcat(a, b);
  }

  /** Whether some answer is in a state depends only on which answers there are. */
  lemma AnyInStateSameAnswers(a: seq<RemoteService>, b: seq<RemoteService>, state: State)
    requires multiset(a) == multiset(b)
    ensures AnyInState(a, state) == AnyInState(b, state)
  {
    if AnyInState(a, state) {
      var i :| 0 <= i < |a| && InState(a[i], state);
      assert a[i] in multiset(b);
      var j :| 0 <= j < |b| && b[j] == a[i];
    }
    if AnyInState(b, state) {
      var j :| 0 <= j < |b| && InState(b[j], state);
      assert b[j] in multiset(a);
      var i :| 0 <= i < |a| && a[i] == b[j];
    }
  }

  /** The overall state does not depend on the order in which the answers arrive: any
      reordering of the answers gives the same overall state. */
  lemma OverallOrderIndependent(a: seq<RemoteService>, b: seq<RemoteService>)
    requires multiset(a) == multiset(b)
    ensures OverallStatus(a) == OverallStatus(b)
  {
    AnyInStateSameAnswers(a, b, Error);
    AnyInStateSameAnswers(a, b, Stopped);
  }

  /** One service in error makes the whole deployment in error, whatever the others are. */
  lemma ErrorWins(before: seq<RemoteService>, s: RemoteService, after: seq<RemoteService>)
    requires InState(s, Error)
    ensures OverallStatus(before + [s] + after) == Error
  {
    assert (before + [s] + after)[|before|] == s;
  }

  /** When every service reports the same state, so does the deployment, except that a
      deployment without services counts as started. */
  lemma UniformOverall(ss: seq<RemoteService>, state: State)
    requires forall i :: 0 <= i < |ss| ==> InState(ss[i], state)
    ensures OverallStatus(ss) == if ss == [] then Started else state
  {
    if ss != [] {
      assert InState(ss[0], state);
    }
  }

  /** Examples of the aggregation. */
  lemma StatusExamples()
    ensures OverallStatus([RemoteService("a", "started"), RemoteService("b", "error"), RemoteService("c", "stopped")]) == Error
    ensures OverallStatus([RemoteService("a", "started"), RemoteService("b", "stopped")]) == Stopped
    ensures OverallStatus([RemoteService("a", "started"), RemoteService("b", "started")]) == Started
    ensures OverallStatus([]) == Started
  {
    var mixed := [RemoteService("a", "started"), RemoteService("b", "error"), RemoteService("c", "stopped")];
    assert InState(mixed[1], Error);
    var partly := [RemoteService("a", "started"), RemoteService("b", "stopped")];
    assert InState(partly[1], Stopped);
  }

  // ----- From template to service ids -----

  /** The ids of the created services, in the order the adapter returned them. */
  function ServiceIds(services: seq<RemoteService>): (ids: seq<ServiceId>)
    ensures |ids| == |services|
    ensures forall i :: 0 <= i < |services| ==> ids[i] == services[i].id
  {
    Map((s: RemoteService) => s.id, services)
  }

  /** The template's `images` list, each image converted into a service definition; a
      document without an `images` list is a template format error. */
  function ServicesFromTemplate(template: Json, toService: Json -> Json): (r: Result<seq<Json>, DeployError>)
    ensures r.Success? <==> template.Obj? && "images" in template.fields && template.fields["images"].Arr?
    ensures r.Failure? ==> r.error == TemplateFormatError
    ensures r.Success? ==>
      var images := template.fields["images"].items;
      && |r.value| == |images|
      && forall i :: 0 <= i < |images| ==> r.value[i] == toService(images[i])
  {
    if template.Obj? && "images" in template.fields && template.fields["images"].Arr? then
      Success(Map(toService, template.fields["images"].items))
    else
      Failure(TemplateFormatError)
  }

  /** The answers of the orchestrator for `ids`, in order. */
  function StatusesOf(ids: seq<ServiceId>, services: map<ServiceId, string>): seq<RemoteService>
    requires forall i :: 0 <= i < |ids| ==> ids[i] in services
  {
    seq(|ids|, i requires 0 <= i < |ids| && ids[i] in services => RemoteService(ids[i], services[ids[i]]))
  }

  /** How many calls a loop over `n` ids makes when it stops at index `k`'s failure. */
  function Attempts(k: nat, n: nat): nat
  {
    if k < n then k + 1 else n
  }

  /** While a fan-out of updates has only met accepted ids, the next id is accepted exactly
      when it comes before the first refused one. */
  lemma UpdateAcceptedBeforeFirstRefusal(m: map<ServiceId, string>, failing: set<ServiceId>,
                                         ids: seq<ServiceId>, i: nat, state: string)
    requires i < |ids| && i <= FirstIn(ids, RefusedIds(m, failing, ids))
    ensures var now := Put(m, ids[..i], state);
      && ((ids[i] in now && ids[i] !in failing) <==> i < FirstIn(ids, RefusedIds(m, failing, ids)))
      && Put(m, ids[..i + 1], state) == now[ids[i] := state]
  {
    assert ids[..i + 1][..i] == ids[..i];
    PutSetsExactlyIds(m, ids[..i], state);
    var k := FirstIn(ids, RefusedIds(m, failing, ids));
    if ids[i] in ids[..i] {
      var j :| 0 <= j < i && ids[j] == ids[i];
      assert ids[j] !in RefusedIds(m, failing, ids);
    }
  }

  /** The id at index `i`, not past the first unknown one, is known exactly when it comes
      before the first unknown one. */
  lemma FoundBeforeFirstMissing(m: map<ServiceId, string>, ids: seq<ServiceId>, i: nat)
    requires i < |ids| && i <= FirstIn(ids, MissingIds(m, ids))
    ensures ids[i] in m <==> i < FirstIn(ids, MissingIds(m, ids))
  {
  }

  lemma StatusesOfOneMore(ids: seq<ServiceId>, m: map<ServiceId, string>, i: nat)
    requires i < |ids| && forall j :: 0 <= j <= i ==> ids[j] in m
    ensures StatusesOf(ids[..i + 1], m) == StatusesOf(ids[..i], m) + [RemoteService(ids[i], m[ids[i]])]
  {
  }

  /** When the backend holds every id of a deployment in one state, the aggregated answers
      report that state (started for a deployment without services). */
  lemma UniformBackend(ids: seq<ServiceId>, m: map<ServiceId, string>, state: State)
    requires forall id :: id in ids ==> id in m && m[id] == StateName(state)
    ensures OverallStatus(StatusesOf(ids, m)) == if ids == [] then Started else state
  {
    var ss := StatusesOf(ids, m);
    assert forall i :: 0 <= i < |ss| ==> ss[i] == RemoteService(ids[i], m[ids[i]]);
    UniformOverall(ss, state);
  }

  class Deployment {
    /** The ids of the services this deployment owns, in creation order. */
    var serviceIds: seq<ServiceId>
    /** Whether the persisted record has been removed. */
    var destroyed: bool

    constructor (serviceIds: seq<ServiceId>)
      ensures this.serviceIds == serviceIds && !destroyed
    {
      this.serviceIds := serviceIds;
      destroyed := false;
    }

    /** Converts the template's images, creates the services in one adapter call and records
        their ids, in the order the adapter returned them. */
    static method Deploy(template: Json, toService: Json -> Json, adapter: Client)
      returns (r: Result<Deployment, DeployError>)
      modifies adapter`services, adapter`issued, adapter`log
      ensures var defs := ServicesFromTemplate(template, toService);
        && (defs.Failure? ==>
              && r == Failure(TemplateFormatError)
              && adapter.log == old(adapter.log) && adapter.services == old(adapter.services)
              && adapter.issued == old(adapter.issued))
        && (defs.Success? ==> adapter.log == old(adapter.log) + [Create(defs.value)])
        && (defs.Success? && adapter.creationFails ==>
              && r == Failure(AdapterFailure(CreateError))
              && adapter.services == old(adapter.services) && adapter.issued == old(adapter.issued))
        && (defs.Success? && !adapter.creationFails ==>
              && r.Success? && fresh(r.value) && !r.value.destroyed
              && r.value.serviceIds == IssuedIds(old(adapter.issued), |defs.value|)
              && adapter.services == Put(old(adapter.services), r.value.serviceIds, StateName(Started))
              && adapter.issued == old(adapter.issued) + |defs.value|
              && forall id :: id in r.value.serviceIds ==>
                   id in adapter.services && adapter.services[id] == StateName(Started))
    {
      var defs := ServicesFromTemplate(template, toService);
      if defs.Failure? {
        return Failure(defs.error);
      }
      var created := adapter.CreateServices(defs.value);
      if created.Failure? {
        return Failure(AdapterFailure(created.error));
      }
      var ids := ServiceIds(created.value);
      assert ids == IssuedIds(old(adapter.issued), |defs.value|);
      PutSetsExactlyIds(old(adapter.services), ids, StateName(Started));
      var d := new Deployment(ids);
      r := Success(d);
    }

    method Start(adapter: Client) returns (r: Outcome<AdapterError>)
      modifies adapter`services, adapter`log
      ensures var k := FirstIn(serviceIds, old(adapter.Refusing(serviceIds)));
        && r == (if k == |serviceIds| then Pass else Fail(UpdateError(serviceIds[k])))
        && adapter.log == old(adapter.log) + Sends(Update(Started), serviceIds[..Attempts(k, |serviceIds|)])
        && adapter.services == Put(old(adapter.services), serviceIds[..k], StateName(Started))
      ensures serviceIds == old(serviceIds)
    {
      r := UpdateServiceStates(Started, adapter);
    }

    method Stop(adapter: Client) returns (r: Outcome<AdapterError>)
      modifies adapter`services, adapter`log
      ensures var k := FirstIn(serviceIds, old(adapter.Refusing(serviceIds)));
        && r == (if k == |serviceIds| then Pass else Fail(UpdateError(serviceIds[k])))
        && adapter.log == old(adapter.log) + Sends(Update(Stopped), serviceIds[..Attempts(k, |serviceIds|)])
        && adapter.services == Put(old(adapter.services), serviceIds[..k], StateName(Stopped))
      ensures serviceIds == old(serviceIds)
    {
      r := UpdateServiceStates(Stopped, adapter);
    }

    /** Asks for `desired` once per id, in order, stopping at the first refusal; the ids
        before it have been moved to `desired` and nothing else has changed. */
    method UpdateServiceStates(desired: State, adapter: Client) returns (r: Outcome<AdapterError>)
      modifies adapter`services, adapter`log
      ensures var k := FirstIn(serviceIds, old(adapter.Refusing(serviceIds)));
        && r == (if k == |serviceIds| then Pass else Fail(UpdateError(serviceIds[k])))
        && adapter.log == old(adapter.log) + Sends(Update(desired), serviceIds[..Attempts(k, |serviceIds|)])
        && adapter.services == Put(old(adapter.services), serviceIds[..k], StateName(desired))
      ensures serviceIds == old(serviceIds)
    {
      ghost var m0 := adapter.services;
      ghost var log0 := adapter.log;
      ghost var name := StateName(desired);
      ghost var k := FirstIn(serviceIds, RefusedIds(m0, adapter.failing, serviceIds));
      var i := 0;
      while i < |serviceIds|
        invariant i <= k
        invariant adapter.log == log0 + Sends(Update(desired), serviceIds[..i])
        invariant adapter.services == Put(m0, serviceIds[..i], name)
      {
        var id := serviceIds[i];
        assert serviceIds[..i + 1][..i] == serviceIds[..i];
        UpdateAcceptedBeforeFirstRefusal(m0, adapter.failing, serviceIds, i, name);
        var outcome := adapter.UpdateService(id, desired);
        if outcome.Fail? {
          assert i == k && Attempts(k, |serviceIds|) == i + 1;
          return outcome;
        }
        i := i + 1;
      }
      r := Pass;
    }

    /** Gets the status of every service, in id order, and aggregates them. */
    method Status(adapter: Client) returns (r: Result<StatusReport, AdapterError>)
      modifies adapter`log
      ensures var k := FirstIn(serviceIds, adapter.Missing(serviceIds));
        && adapter.log == old(adapter.log) + Sends(Get, serviceIds[..Attempts(k, |serviceIds|)])
        && (k < |serviceIds| ==> r == Failure(NotFoundError(serviceIds[k])))
        && (k == |serviceIds| ==>
              && r.Success?
              && r.value.services == StatusesOf(serviceIds, adapter.services)
              && r.value.overall == OverallStatus(r.value.services))
      ensures r.Success? ==>
        && |r.value.services| == |serviceIds|
        && forall i :: 0 <= i < |serviceIds| ==> r.value.services[i].id == serviceIds[i]
      ensures serviceIds == old(serviceIds)
    {
      ghost var log0 := adapter.log;
      ghost var k := FirstIn(serviceIds, adapter.Missing(serviceIds));
      var statuses: seq<RemoteService> := [];
      var i := 0;
      while i < |serviceIds|
        invariant i <= k
        invariant adapter.log == log0 + Sends(Get, serviceIds[..i])
        invariant forall j :: 0 <= j < i ==> serviceIds[j] in adapter.services
        invariant statuses == StatusesOf(serviceIds[..i], adapter.services)
      {
        var id := serviceIds[i];
        FoundBeforeFirstMissing(adapter.services, serviceIds, i);
        var reply := adapter.GetService(id);
        assert serviceIds[..i + 1][..i] == serviceIds[..i];
        if reply.Failure? {
          return Failure(reply.error);
        }
        StatusesOfOneMore(serviceIds, adapter.services, i);
        statuses := statuses + [reply.value];
        i := i + 1;
      }
      assert serviceIds[..i] == serviceIds;
      assert forall j :: 0 <= j < |statuses| ==> statuses[j].id == serviceIds[j];
      r := Success(StatusReport(OverallStatus(statuses), statuses));
    }

    /** Deletes every service, in order, stopping at the first refusal. */
    method UndeployServices(adapter: Client) returns (r: Outcome<AdapterError>)
      modifies adapter`services, adapter`log
      ensures var k := FirstIn(serviceIds, adapter.failing);
        && r == (if k == |serviceIds| then Pass else Fail(DeleteError(serviceIds[k])))
        && adapter.log == old(adapter.log) + Sends(Delete, serviceIds[..Attempts(k, |serviceIds|)])
        && adapter.services == Without(old(adapter.services), serviceIds[..k])
    {
      ghost var m0 := adapter.services;
      ghost var log0 := adapter.log;
      ghost var k := FirstIn(serviceIds, adapter.failing);
      var i := 0;
      while i < |serviceIds|
        invariant i <= k
        invariant adapter.log == log0 + Sends(Delete, serviceIds[..i])
        invariant adapter.services == Without(m0, serviceIds[..i])
      {
        var id := serviceIds[i];
        var outcome := adapter.DeleteService(id);
        assert serviceIds[..i + 1][..i] == serviceIds[..i];
        if outcome.Fail? {
          return outcome;
        }
        i := i + 1;
      }
      r := Pass;
    }

    /** Destroying the record first deletes the services; the record is removed only when
        every deletion succeeded, and then none of its services is left behind. */
    method Destroy(adapter: Client) returns (r: Outcome<AdapterError>)
      modifies this`destroyed, adapter`services, adapter`log
      ensures var k := FirstIn(serviceIds, adapter.failing);
        && r == (if k == |serviceIds| then Pass else Fail(DeleteError(serviceIds[k])))
        && adapter.log == old(adapter.log) + Sends(Delete, serviceIds[..Attempts(k, |serviceIds|)])
        && adapter.services == Without(old(adapter.services), serviceIds[..k])
      ensures destroyed == (old(destroyed) || r.Pass?)
      ensures r.Pass? ==> forall id :: id in serviceIds ==> id !in adapter.services
    {
      r := UndeployServices(adapter);
      if r.Pass? {
        assert serviceIds[..|serviceIds|] == serviceIds;
        WithoutRemovesExactlyIds(old(adapter.services), serviceIds);
        destroyed := true;
      }
    }
  }

  // ----- Lifecycle scenarios -----

  /** Right after a deployment, every service reports started, in creation order. */
  method DeployThenStatus(template: Json, toService: Json -> Json, adapter: Client)
    returns (r: Result<StatusReport, DeployError>)
    requires ServicesFromTemplate(template, toService).Success?
    requires !adapter.creationFails
    modifies adapter`services, adapter`issued, adapter`log
    ensures r.Success? && r.value.overall == Started
    ensures |r.value.services| == |ServicesFromTemplate(template, toService).value|
    ensures forall i :: 0 <= i < |r.value.services| ==>
      r.value.services[i].id == IdFor(old(adapter.issued) + i)
  {
    var deployed := Deployment.Deploy(template, toService, adapter);
    var d := deployed.value;
    ghost var ids := d.serviceIds;
    assert |ids| == |ServicesFromTemplate(template, toService).value|;
    assert forall i :: 0 <= i < |ids| ==> ids[i] == IdFor(old(adapter.issued) + i);
    assert adapter.Missing(ids) == {} by {
      forall id | id in ids
        ensures id in adapter.services
      {
      }
    }
    var report := d.Status(adapter);
    assert FirstIn(ids, {}) == |ids|;
    UniformBackend(ids, adapter.services, Started);
    r := Success(report.value);
  }

  /** After a start that succeeded, the deployment reports started. */
  method StartThenStatus(d: Deployment, adapter: Client)
    returns (started: Outcome<AdapterError>, report: Result<StatusReport, AdapterError>)
    modifies adapter`services, adapter`log
    ensures started.Pass? ==> report.Success? && report.value.overall == Started
  {
    started := d.Start(adapter);
    ghost var ids := d.serviceIds;
    if started.Pass? {
      assert ids[..|ids|] == ids;
      PutSetsExactlyIds(old(adapter.services), ids, StateName(Started));
      assert forall id :: id in ids ==> id in adapter.services && adapter.services[id] == StateName(Started);
      assert adapter.Missing(ids) == {};
    }
    report := d.Status(adapter);
    if started.Pass? {
      assert FirstIn(ids, {}) == |ids|;
      UniformBackend(ids, adapter.services, Started);
    }
  }

  /** After a stop that succeeded, the deployment reports stopped, unless it owns no service. */
  method StopThenStatus(d: Deployment, adapter: Client)
    returns (stopped: Outcome<AdapterError>, report: Result<StatusReport, AdapterError>)
    modifies adapter`services, adapter`log
    ensures stopped.Pass? ==>
      report.Success? && report.value.overall == if d.serviceIds == [] then Started else Stopped
  {
    stopped := d.Stop(adapter);
    ghost var ids := d.serviceIds;
    if stopped.Pass? {
      assert ids[..|ids|] == ids;
      PutSetsExactlyIds(old(adapter.services), ids, StateName(Stopped));
      assert forall id :: id in ids ==> id in adapter.services && adapter.services[id] == StateName(Stopped);
      assert adapter.Missing(ids) == {};
    }
    report := d.Status(adapter);
    if stopped.Pass? {
      assert FirstIn(ids, {}) == |ids|;
      UniformBackend(ids, adapter.services, Stopped);
    }
  }
}
