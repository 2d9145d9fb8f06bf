# Deployment lifecycle and image serialization, modelled in Dafny

A Panamax remote agent deploys a template as a group of services on an orchestration
backend. This project models two pieces of it:

- **The deployment** (`app/models/deployment.rb`). A deployment is an ordered list of remote
  service ids. `deploy` converts each template image into a service definition, creates all
  of them with one adapter call and records the returned ids, in order. `start` and `stop`
  send one update per id, and `status` sends one get per id. `status` then folds the answers
  into one overall state, with error taking precedence over stopped and stopped over started.
  Before the record is destroyed, one delete is sent per id.
- **The image serializer** (`spec/serializers/image_serializer_spec.rb`). It turns an image
  into a hash with exactly eleven keys. Port keys are renamed to `containerPort`, `hostPort`
  and `protocol`, and volume keys to `containerPath` and `hostPath`. `volumes_from` is passed
  through under `volumesFrom`.

Files:

- `wrappers.dfy`: `Option`, `Result`, `Outcome`. These stand for the exceptions the Ruby code raises.
- `json_values.dfy`: JSON-like values and Ruby's `Hash#[]` (`Get`).
- `sequences.dfy`: `Map` (Ruby's `map`) and `FirstIn`, the index at which a loop that stops on its first failure stops.
- `image_serializer.dfy`: the serialized shape and its inverse.
- `orchestration_adapter.dfy`: the adapter client as a class (`Client`). It holds the
  services the backend has and their `actualState`, plus a ghost log of every call made.
- `deployment.dfy`: the status fold, the template-to-services map and the `Deployment` class,
  whose loops are proved against the adapter's log and state.

How the adapter is modelled. A get call fails when the backend does not know the id. An
update call fails when the id is unknown or is in the `failing` set. A delete call fails only
for ids in `failing`: deleting a service that is already gone succeeds. Creation is all or
nothing. It fails when `creationFails` is set. Otherwise every new service gets an id
`svc-<n>` from a counter and reports `started`. As in the Ruby code, the first failing call
ends a `start`, `stop`, `status` or teardown loop. The loops' contracts state the exact call
log: one call per id, in id order, up to and including the failing one. They also state the
backend's new state and which error is returned.

The code lets the first adapter error end a `start`, `stop`, `status` or teardown loop, and so
does the model (`Sequences.FirstIn` names where it stops).

## Model

| member | source | states |
|---|---|---|
| `Sequences.FirstIn` | app/models/deployment.rb:55-59 | the first index whose call is refused: every earlier id is accepted, and the index is `|ids|` when none is refused |
| `ImageSerializer.AsJson` | spec/serializers/image_serializer_spec.rb:26-40 | the serialized image's key set is exactly the eleven keys, for every image |
| `ImageSerializer.PortsRemapped` | spec/serializers/image_serializer_spec.rb:43-52 | as many output ports as input ports; each one has exactly the keys containerPort, hostPort, protocol, carrying the input's container_port, host_port, proto |
| `ImageSerializer.VolumesRemapped` | spec/serializers/image_serializer_spec.rb:54-62 | as many output volumes as input volumes; each one has exactly the keys containerPath, hostPath, carrying the input's container_path, host_path |
| `ImageSerializer.VolumesFromPassedThrough` | spec/serializers/image_serializer_spec.rb:64-67 | `volumesFrom` equals the input's `volumes_from`, unchanged |
| `ImageSerializer.ExampleImage` | spec/serializers/image_serializer_spec.rb:5-17 | the example image (port 1111/2222/UDP, volume a/b to c/d, volumes_from svc1) serializes to exactly the expected port, volume and volumesFrom lists |
| `ImageSerializer.RoundTrip` | spec/serializers/image_serializer_spec.rb:43-67 | reading the serialized hash back gives the image with port and volume entries restricted to the keys the serializer reads: nothing else is lost, nothing is reordered |
| `ImageSerializer.NormalizedSerializesAlike` | spec/serializers/image_serializer_spec.rb:43-62 | the keys the serializer drops never affect its output |
| `ImageSerializer.ReadThenSerialize` | spec/serializers/image_serializer_spec.rb:23-67 | any hash the reader accepts is exactly the serialization of what it reads, so the reader is an inverse of `AsJson` on its domain |
| `ImageSerializer.PortsRoundTrip` | spec/serializers/image_serializer_spec.rb:43-52 | reading back a serialized port list gives the port list restricted to container_port, host_port, proto, in the same order |
| `ImageSerializer.VolumesRoundTrip` | spec/serializers/image_serializer_spec.rb:54-62 | reading back a serialized volume list gives the volume list restricted to container_path, host_path, in the same order |
| `OrchestrationAdapter.Client.constructor` | app/models/deployment.rb:29-31 | a client over a given backend state, with an empty call log |
| `OrchestrationAdapter.Client.CreateServices` | app/models/deployment.rb:11 | one logged create call; fails with nothing created, or creates one started service per definition, in order, numbered on from the counter |
| `OrchestrationAdapter.Client.GetService` | app/models/deployment.rb:44 | one logged get call; returns the service's id and actual state, or a not-found error when the backend does not know the id |
| `OrchestrationAdapter.Client.UpdateService` | app/models/deployment.rb:57 | one logged update call; either the service now has the desired state, or an update error and nothing changed |
| `OrchestrationAdapter.Client.DeleteService` | app/models/deployment.rb:63 | one logged delete call; either the service is gone (also when it was already gone), or a delete error and nothing changed |
| `OrchestrationAdapter.SendsOneCallPerId` | app/models/deployment.rb:56-57 | a fan-out's log has one call per id, the i-th call being about the i-th id |
| `OrchestrationAdapter.PutSetsExactlyIds` | app/models/deployment.rb:56-57 | updating ids one by one gives exactly those ids the new state and leaves every other service, and its state, as it was |
| `OrchestrationAdapter.WithoutRemovesExactlyIds` | app/models/deployment.rb:62-63 | deleting ids one by one removes exactly those ids and leaves every other service, and its state, as it was |
| `Deployments.AnyInState` | app/models/deployment.rb:68 | true exactly when some status has the given actualState |
| `Deployments.OverallStatus` | app/models/deployment.rb:67-75 | error iff some service is in error; stopped iff none is in error and some is stopped; started iff none is in error or stopped (so also for no services) |
| `Deployments.OverallIsFold` | app/models/deployment.rb:67-75 | the aggregation equals folding the precedence error > stopped > started over the services one by one |
| `Deployments.OverallConcat` | app/models/deployment.rb:67-75 | the overall state of two groups of services together is the worse of the two groups' overall states |
| `Deployments.AnyInStateSameAnswers` | app/models/deployment.rb:68-70 | whether some answer is in a given state is the same for any two lists holding the same answers |
| `Deployments.OverallOrderIndependent` | app/models/deployment.rb:67-75 | any two lists holding the same answers, in any order, have the same overall state |
| `Deployments.ErrorWins` | app/models/deployment.rb:68-69 | one service in error makes the deployment in error, whatever the other services are |
| `Deployments.UniformOverall` | app/models/deployment.rb:67-75 | when all services report the same state the deployment reports it too, except that no services at all means started |
| `Deployments.StatusExamples` | app/models/deployment.rb:67-75 | [started, error, stopped] is error, [started, stopped] is stopped, [started, started] and [] are started |
| `Deployments.ServiceIds` | app/models/deployment.rb:25-27 | one id per created service, the id of the service at the same position |
| `Deployments.ServicesFromTemplate` | app/models/deployment.rb:20-23 | fails with a template error exactly when the document has no `images` list; otherwise one converted service per image, in image order |
| `Deployments.UpdateAcceptedBeforeFirstRefusal` | app/models/deployment.rb:55-59 | while the updates so far were all accepted, the next id is accepted exactly when it comes before the first refused id |
| `Deployments.FoundBeforeFirstMissing` | app/models/deployment.rb:43-45 | while the gets so far all found their service, the next id is found exactly when it comes before the first unknown id |
| `Deployments.UniformBackend` | app/models/deployment.rb:42-51 | when the backend holds every id of the deployment in one state, status reports that state, or started for a deployment without services |
| `Deployments.Deployment.constructor` | app/models/deployment.rb:13 | a live record holding the given ids |
| `Deployments.Deployment.Deploy` | app/models/deployment.rb:9-14 | no adapter call on a template error; otherwise exactly one create call with all converted images; on either failure the backend and its id counter are unchanged; on success a fresh record whose ids are the created services' ids in order, one per image, each known to the backend as started, every other service left as it was and the counter advanced by one per image |
| `Deployments.Deployment.Start` | app/models/deployment.rb:38-40 | update calls with `started`, one per id in order, up to the first refusal; the ids before it are started, the rest of the backend is unchanged, and `service_ids` is unchanged |
| `Deployments.Deployment.Stop` | app/models/deployment.rb:34-36 | the same as Start, with `stopped` |
| `Deployments.Deployment.UpdateServiceStates` | app/models/deployment.rb:55-59 | one update call per id in order, up to and including the first refused one; the result names that id's update error, or passes when none is refused |
| `Deployments.Deployment.Status` | app/models/deployment.rb:42-51 | one get call per id in order, up to the first unknown id; on success the services list has one answer per id, in id order, and the overall state is the fold of that list; the backend and `service_ids` are unchanged |
| `Deployments.Deployment.UndeployServices` | app/models/deployment.rb:61-65 | one delete call per id in order, up to and including the first refused one; exactly the ids before it are removed from the backend |
| `Deployments.Deployment.Destroy` | app/models/deployment.rb:3 | the deletes come first; the record is removed only if every delete succeeded, and then none of its services remains on the backend |
| `Deployments.DeployThenStatus` | app/models/deployment.rb:9-51 | right after a successful deploy, status succeeds, reports started and lists one service per image in creation order |
| `Deployments.StartThenStatus` | app/models/deployment.rb:38-51 | after a start that passed, status succeeds and reports started |
| `Deployments.StopThenStatus` | app/models/deployment.rb:34-51 | after a stop that passed, status succeeds and reports stopped, or started when the deployment owns no services |

## Left out

- YAML parsing (`YAML.safe_load`): the model takes the parsed document. Only the `['images']` lookup is kept. A document that is not a hash, or has no array under `images`, is a template format error. In Ruby a hash under `images` would be mapped pair by pair; the model treats it as a format error too.
- `ImageConverter#image_to_service` is not part of this model. It is the parameter `toService`, and the exceptions it could raise are not modelled.
- `ImageSerializer` itself is not part of this model. Its examples only check that the renamed port and volume keys carry the input's values and that `volumesFrom` is passed through. The model goes further on these assumptions about the unseen serializer:
  - each serialized port has exactly the keys `containerPort`, `hostPort` and `protocol`, and each volume exactly `containerPath` and `hostPath` (`PortShape`, `VolumeShape`, `PortsRemapped`, `VolumesRemapped`);
  - an entry key missing from an input port or volume serializes as nil;
  - the seven scalar attributes (name, source, categories, command, environment, links, expose) and `deployment` are copied unchanged, as opaque JSON values, with nil for an absent one;
  - absent ports, volumes and volumes_from are empty lists.
- ActiveRecord persistence: `create`, `serialize :service_ids, Array`, the record's own id and the callback machinery. The model keeps only the ids and a `destroyed` flag, which `Destroy` sets after the deletes.
- The HTTP calls of `OrchestrationAdapter::Client`: the backend is the state of `Client`. Its failures are injected through `failing` and `creationFails`. Ids come from a counter, and freshness against ids already held is not modelled.
- Partial creation: the model's creation is all or nothing. A backend that creates some services and then fails, leaving them behind, is not modelled.
- Status answers carry only `id` and `actualState`; any other field of the orchestrator's answer is not modelled.
- Exceptions are modelled as `Result`/`Outcome` values; an exception from anything other than the adapter calls above is not modelled.
- Floating-point values in templates: numbers are integers only.
- Concurrency, timeouts and retries: the code has none.
- The first adapter error ends a `start`, `stop`, `status` or teardown loop, as in the code; a teardown or state change that goes on to try every id is not modelled.
- Asynchronous state changes: an accepted update is reflected in `actualState` at once. `StartThenStatus` and `StopThenStatus` hold for such a backend only; an orchestrator that moves services to the desired state later can report an older state.
