/** The cluster objects the manager works on, and what the API server does with a request. */
module ApiServer {
  import opened Wrappers
  import opened JobStatus
  import opened NodeFilter

  // ---- objects; names, uids and versions are drawn from one counter and never reused

  /** An ImageJob is owned by an ImageList or carries the collector's label. */
  datatype Owner = ByList(uid: nat) | ByCollector

  datatype Job = Job(owner: Owner, status: Status, version: nat)

  /** `manual` is the type label; it is all a pod listing selects by. `job` names the template that owns the pod. */
  datatype Pod = Pod(job: nat, manual: bool, node: string, status: PodStatus)

  datatype Counts = Counts(success: nat, failed: nat, skipped: nat)

  datatype ImageList = ImageList(uid: nat, counts: Option<Counts>, version: nat)

  // ---- history: what a job was started with, and what its final status was computed from

  /** The pods as listed, and with which ratio; were all of them the job's, and was every planned pod there? */
  datatype Tally = Tally(pods: seq<PodStatus>, own: bool, whole: bool, ratio: real)

  datatype Plan = Plan(nodes: seq<Node>, filter: Filter, chosen: seq<Node>, pods: seq<nat>, tally: Option<Tally>)

  /** `born` and `plans` are history: the owner of every job ever created, the plan of every job ever started. */
  datatype Api = Api(
    jobs: map<nat, Job>, templates: map<nat, bool>, pods: map<nat, Pod>, nodes: seq<Node>, list: Option<ImageList>,
    clock: int, next: nat, born: map<nat, Owner>, plans: map<nat, Plan>)

  // ---- requests that change something

  /** Why a job's status is written. */
  datatype Note = Starts(plan: Plan) | Ends(tally: Option<Tally>) | Stamps

  datatype Request =
    | PutJobStatus(name: nat, version: nat, status: Status, note: Note)
    | CreateJob(owner: Owner)
    | DeleteJob(name: nat)
    | CreateTemplate(name: nat, manual: bool)
    | DeleteTemplate(name: nat)
    | CreatePod(job: nat, manual: bool, node: string)
    | PutCounts(uid: nat, version: nat, counts: Counts)

  function Noted(plans: map<nat, Plan>, name: nat, note: Note): map<nat, Plan> {
    match note
    case Starts(plan) => plans[name := plan]
    case Ends(tally) => if name in plans then plans[name := plans[name].(tally := tally)] else plans
    case Stamps => plans
  }

  function WithPod(plans: map<nat, Plan>, name: nat, pod: nat): map<nat, Plan> {
    if name in plans then plans[name := plans[name].(pods := plans[name].pods + [pod])] else plans
  }

  /** The effect of a request the server accepts; `None` if it refuses: a stale version, a missing object or a name
      that exists. */
  function Effect(api: Api, request: Request): Option<Api> {
    match request
    case PutJobStatus(name, version, status, note) =>
      if name in api.jobs && api.jobs[name].version == version then
        Some(api.(jobs := api.jobs[name := Job(api.jobs[name].owner, status, api.next)],
                  plans := Noted(api.plans, name, note), next := api.next + 1))
      else None
    case CreateJob(owner) =>
      Some(api.(jobs := api.jobs[api.next := Job(owner, NO_STATUS, api.next)],
                born := api.born[api.next := owner], next := api.next + 1))
    case DeleteJob(name) => if name in api.jobs then Some(api.(jobs := api.jobs - {name})) else None
    case CreateTemplate(name, manual) =>
      if name in api.templates then None else Some(api.(templates := api.templates[name := manual]))
    case DeleteTemplate(name) =>
      if name in api.templates then Some(api.(templates := api.templates - {name})) else None
    case CreatePod(job, manual, node) =>
      Some(api.(pods := api.pods[api.next := Pod(job, manual, node, PodStatus(PodPending, []))],
                plans := WithPod(api.plans, job, api.next), next := api.next + 1))
    case PutCounts(uid, version, counts) =>
      if api.list.Some? && api.list.value.uid == uid && api.list.value.version == version then
        Some(api.(list := Some(ImageList(uid, Some(counts), api.next)), next := api.next + 1))
      else None
  }

  /** A request may get lost, and so may its reply. */
  datatype Fate = Done | Dropped | ReplyLost

  function Sent(api: Api, request: Request, fate: Fate): Api {
    match Effect(api, request)
    case None => api
    case Some(after) => if fate == Dropped then api else after
  }

  predicate Succeeds(api: Api, request: Request, fate: Fate) {
    fate == Done && Effect(api, request).Some?
  }

  // ---- listings

  predicate Enumerates(names: seq<nat>, wanted: set<nat>) {
    && (forall i, j :: 0 <= i < j < |names| ==> names[i] != names[j])
    && (forall name :: name in names ==> name in wanted)
    && (forall name :: name in wanted ==> name in names)
  }

  function PodsOfType(api: Api, manual: bool): set<nat> {
    set id | id in api.pods && api.pods[id].manual == manual
  }

  function JobsOf(api: Api, owner: Owner): set<nat> {
    set name | name in api.jobs && api.jobs[name].owner == owner
  }

  function PodStatuses(api: Api, names: seq<nat>): seq<PodStatus>
    requires forall name :: name in names ==> name in api.pods
  {
    seq(|names|, i requires 0 <= i < |names| => assert names[i] in names; api.pods[names[i]].status)
  }

  // ---- changes nobody asked the manager for

  datatype Happening =
    | PodChanges(pod: nat, status: PodStatus)
    | PodVanishes(pod: nat)
    | TemplateVanishes(name: nat)
    | NodesChange(nodes: seq<Node>)
    | TimePasses(nanoseconds: nat)
    | ListCreated
    | ListEdited
    | ListDeleted
    | JobCollected(name: nat)

  /** A job owned by an ImageList that is gone is garbage. */
  predicate Orphan(api: Api, name: nat) {
    && name in api.jobs
    && api.jobs[name].owner.ByList?
    && (api.list.Some? ==> api.list.value.uid != api.jobs[name].owner.uid)
  }

  function Happens(api: Api, h: Happening): Api {
    match h
    case PodChanges(pod, status) =>
      if pod in api.pods then api.(pods := api.pods[pod := api.pods[pod].(status := status)]) else api
    case PodVanishes(pod) => api.(pods := api.pods - {pod})
    case TemplateVanishes(name) => api.(templates := api.templates - {name})
    case NodesChange(nodes) => if DistinctNames(nodes) then api.(nodes := nodes) else api
    case TimePasses(nanoseconds) => api.(clock := api.clock + nanoseconds)
    case ListCreated =>
      if api.list.None? then api.(list := Some(ImageList(api.next, None, api.next)), next := api.next + 1) else api
    case ListEdited =>
      if api.list.Some? then api.(list := Some(api.list.value.(version := api.next)), next := api.next + 1) else api
    case ListDeleted => api.(list := None)
    case JobCollected(name) => if Orphan(api, name) then api.(jobs := api.jobs - {name}) else api
  }
}
