/** The manager's three controllers as processes over the API server. Each runs one reconcile at a time, request by
    request, and the controllers, the cluster and the clock may move in between. */
module Manager {
  import opened Wrappers
  import opened JobStatus
  import opened NodeFilter
  import opened ApiServer

  // ---- where each reconcile stands; the fields are its local variables

  datatype JobPc =
    | JIdle
    | JListNodes(name: nat, job: Job)
    | JNewTemplate(name: nat, job: Job, nodes: seq<Node>)
    | JStart(name: nat, job: Job, plan: Plan, manual: bool)
    | JCreatePods(name: nat, manual: bool, chosen: seq<Node>, i: nat)
    | JGetTemplate(name: nat, job: Job)
    | JListPods(name: nat, job: Job, manual: bool)
    | JFinish(name: nat, job: Job, status: Status, tally: Option<Tally>)

  datatype ListPc =
    | LIdle
    | LListJobs(list: ImageList)
    | LPrepare(uid: nat)
    | LCreate(uid: nat)
    | LManagers(name: nat)
    | LTemplate(name: nat)
    | LReport(list: ImageList, name: nat, job: Job)
    | LJudge(uid: nat, name: nat, job: Job)
    | LStamp(name: nat, job: Job, deleteAfter: int)
    | LDelete(uid: nat, name: nat, job: Job)
    | LDropTemplate(name: nat)

  datatype CollectorPc =
    | KIdle
    | KSweep(rest: seq<nat>)
    | KPrepare(first: bool)
    | KCreate(first: bool)
    | KManagers(name: nat, first: bool)
    | KTemplate(name: nat, first: bool)
    | KJudge(name: nat, job: Job)
    | KStamp(name: nat, job: Job, deleteAfter: int)
    | KDelete(name: nat, job: Job)
    | KDropTemplate(name: nat)

  /** `firstDue`: the request queued when the process started has not succeeded yet. `multiple` is history: the
      imagelist controller has reported multiple child jobs. */
  datatype State = State(api: Api, j: JobPc, l: ListPc, k: CollectorPc, firstDue: bool, multiple: bool)

  ghost predicate Initial(st: State) {
    && st.api.jobs == map[] && st.api.templates == map[] && st.api.pods == map[] && st.api.list.None?
    && st.api.born == map[] && st.api.plans == map[] && DistinctNames(st.api.nodes)
    && st.j.JIdle? && st.l.LIdle? && st.k.KIdle? && st.firstDue && !st.multiple
  }

  /** A panic or a restart takes all three controllers down. */
  function Restarted(st: State): State {
    st.(j := JIdle, l := LIdle, k := KIdle, firstDue := true)
  }

  /** What a step depends on besides the state: the name and kind of the request being reconciled, how the call to the
      API server goes, the order of a listing, and the configuration at that moment. */
  datatype Move = Move(
    name: nat, first: bool, fate: Fate, listing: seq<nat>,
    filter: Filter, ratio: real, delayOnSuccess: int, delayOnFailure: int)

  // ---- the imagejob controller

  function JobRequest(pc: JobPc): Option<Request> {
    match pc
    case JStart(name, job, plan, _) => Some(PutJobStatus(name, job.version, StartStatus(plan), Starts(plan)))
    case JCreatePods(name, manual, chosen, i) =>
      if i < |chosen| then Some(CreatePod(name, manual, chosen[i].name)) else None
    case JFinish(name, job, status, tally) => Some(PutJobStatus(name, job.version, status, Ends(tally)))
    case _ => None
  }

  function StartStatus(plan: Plan): Status {
    var skipped := if |plan.chosen| <= |plan.nodes| then |plan.nodes| - |plan.chosen| else 0;
    Status(|plan.nodes|, 0, skipped, 0, Running, None)
  }

  function NextPod(name: nat, manual: bool, chosen: seq<Node>, i: nat): JobPc {
    if i < |chosen| then JCreatePods(name, manual, chosen, i) else JIdle
  }

  function JobAfterRequest(pc: JobPc): JobPc {
    match pc
    case JStart(name, _, plan, manual) => NextPod(name, manual, plan.chosen, 0)
    case JCreatePods(name, manual, chosen, i) => NextPod(name, manual, chosen, i + 1)
    case _ => JIdle
  }

  function TallyOf(api: Api, name: nat, listing: seq<nat>, pods: seq<PodStatus>, ratio: real): Tally {
    Tally(pods,
          forall id :: id in listing ==> id in api.pods && api.pods[id].job == name,
          name in api.plans && |api.plans[name].pods| == |api.plans[name].chosen| &&
          forall id :: id in api.plans[name].pods ==> id in api.pods,
          ratio)
  }

  /** A missing template, or any error reading it, fails the job at once and with zero counts. */
  function LostTemplateStatus(now: int): Status {
    Status(0, 0, 0, 0, Failed, Some(now + SECOND))
  }

  function JobCounts(st: State, name: nat, job: Job, pods: seq<PodStatus>, m: Move): State {
    var succeeded := Succeeded(pods);
    if !Over(pods) then st.(j := JIdle)
    else if job.status.desired == 0 then Restarted(st)
    else
      st.(j := JFinish(name, job, FinalStatus(job.status, succeeded, |pods| - succeeded, m.ratio),
                       Some(TallyOf(st.api, name, m.listing, pods, m.ratio))))
  }

  function JobListsPods(st: State, name: nat, job: Job, manual: bool, m: Move): State {
    if Enumerates(m.listing, PodsOfType(st.api, manual)) then
      JobCounts(st, name, job, PodStatuses(st.api, m.listing), m)
    else st
  }

  function JobReads(parse: Parser, st: State, m: Move): State {
    match st.j
    case JIdle =>
      if m.fate != Done || m.name !in st.api.jobs then st
      else
        var job := st.api.jobs[m.name];
        if job.status.phase == New then st.(j := JListNodes(m.name, job))
        else if job.status.phase == Running then st.(j := JGetTemplate(m.name, job))
        else st
    case JListNodes(name, job) => st.(j := if m.fate == Done then JNewTemplate(name, job, st.api.nodes) else JIdle)
    case JNewTemplate(name, job, nodes) =>
      var choice := Choice(parse, m.filter, nodes);
      if m.fate == Done && name in st.api.templates && choice.Some? then
        st.(j := JStart(name, job, Plan(nodes, m.filter, choice.value.nodeList, [], None), st.api.templates[name]))
      else st.(j := JIdle)
    case JGetTemplate(name, job) =>
      if m.fate == Done && name in st.api.templates then st.(j := JListPods(name, job, st.api.templates[name]))
      else st.(j := JFinish(name, job, LostTemplateStatus(st.api.clock), None))
    case JListPods(name, job, manual) =>
      if m.fate == Done then JobListsPods(st, name, job, manual, m) else st.(j := JIdle)
    case _ => st.(j := JIdle)
  }

  function JobMoves(parse: Parser, st: State, m: Move): State {
    match JobRequest(st.j)
    case None => JobReads(parse, st, m)
    case Some(request) =>
      st.(api := Sent(st.api, request, m.fate),
          j := if Succeeds(st.api, request, m.fate) then JobAfterRequest(st.j) else JIdle)
  }

  // ---- the two owning controllers

  function Stamp(job: Job, now: int, m: Move): int {
    After(now, if job.status.phase == Completed then m.delayOnSuccess else m.delayOnFailure)
  }

  function Stamped(job: Job, deleteAfter: int): Status {
    job.status.(deleteAfter := Some(deleteAfter))
  }

  function CountsOf(status: Status): Counts {
    Counts(status.succeeded, status.failed, status.skipped)
  }

  function ListRequest(pc: ListPc): Option<Request> {
    match pc
    case LCreate(uid) => Some(CreateJob(ByList(uid)))
    case LTemplate(name) => Some(CreateTemplate(name, true))
    case LReport(list, _, job) => Some(PutCounts(list.uid, list.version, CountsOf(job.status)))
    case LStamp(name, job, deleteAfter) =>
      Some(PutJobStatus(name, job.version, Stamped(job, deleteAfter), Stamps))
    case LDelete(_, name, _) => Some(DeleteJob(name))
    case LDropTemplate(name) => Some(DeleteTemplate(name))
    case _ => None
  }

  /** `name` is the name a job just created has been given. */
  function ListAfterRequest(pc: ListPc, name: nat): ListPc {
    match pc
    case LCreate(_) => LManagers(name)
    case LReport(list, name, job) => LJudge(list.uid, name, job)
    case LDelete(_, name, _) => LDropTemplate(name)
    case _ => LIdle
  }

  function ListFindsJobs(st: State, list: ImageList, m: Move): State {
    var owned := JobsOf(st.api, ByList(list.uid));
    if m.fate != Done then st.(l := LIdle)
    else if owned == {} then st.(l := LPrepare(list.uid))
    else if owned == {m.name} then
      if Terminal(st.api.jobs[m.name].status.phase) then st.(l := LReport(list, m.name, st.api.jobs[m.name]))
      else st.(l := LIdle)
    else if |owned| > 1 then st.(l := LIdle, multiple := true)
    else st
  }

  /** A template is owned by the manager's pod: if listing that pod yields none, indexing the list panics. */
  function ListReads(st: State, m: Move): State {
    match st.l
    case LIdle => if m.fate == Done && st.api.list.Some? then st.(l := LListJobs(st.api.list.value)) else st
    case LListJobs(list) => ListFindsJobs(st, list, m)
    case LPrepare(uid) => st.(l := if m.fate == Done then LCreate(uid) else LIdle)
    case LManagers(name) => if m.fate == Done then st.(l := LTemplate(name)) else Restarted(st)
    case LJudge(uid, name, job) =>
      if m.fate != Done then st.(l := LIdle)
      else if job.status.deleteAfter.None? then st.(l := LStamp(name, job, Stamp(job, st.api.clock, m)))
      else if st.api.clock < job.status.deleteAfter.value then st.(l := LIdle)
      else st.(l := LDelete(uid, name, job))
    case _ => st.(l := LIdle)
  }

  function ListMoves(st: State, m: Move): State {
    match ListRequest(st.l)
    case None => ListReads(st, m)
    case Some(request) =>
      st.(api := Sent(st.api, request, m.fate),
          l := if Succeeds(st.api, request, m.fate) then ListAfterRequest(st.l, st.api.next) else LIdle)
  }

  function CollectorRequest(pc: CollectorPc): Option<Request> {
    match pc
    case KSweep(rest) => if rest == [] then None else Some(DeleteJob(rest[0]))
    case KCreate(_) => Some(CreateJob(ByCollector))
    case KTemplate(name, _) => Some(CreateTemplate(name, false))
    case KStamp(name, job, deleteAfter) =>
      Some(PutJobStatus(name, job.version, Stamped(job, deleteAfter), Stamps))
    case KDelete(name, _) => Some(DeleteJob(name))
    case KDropTemplate(name) => Some(DeleteTemplate(name))
    case _ => None
  }

  function NextToSweep(rest: seq<nat>): CollectorPc {
    if rest == [] then KPrepare(true) else KSweep(rest)
  }

  function CollectorAfterRequest(pc: CollectorPc, name: nat): CollectorPc {
    match pc
    case KSweep(rest) => NextToSweep(if rest == [] then [] else rest[1..])
    case KCreate(first) => KManagers(name, first)
    case KDelete(name, _) => KDropTemplate(name)
    case _ => KIdle
  }

  /** Every job is listed, whoever owns it. */
  function CollectorFindsJobs(st: State, m: Move): State {
    if m.first then
      if st.firstDue && Enumerates(m.listing, st.api.jobs.Keys) then st.(k := NextToSweep(m.listing)) else st
    else if st.api.jobs == map[] then st.(k := KPrepare(false))
    else if st.api.jobs.Keys == {m.name} && Terminal(st.api.jobs[m.name].status.phase) then
      st.(k := KJudge(m.name, st.api.jobs[m.name]))
    else st
  }

  function CollectorReads(st: State, m: Move): State {
    match st.k
    case KIdle => if m.fate == Done then CollectorFindsJobs(st, m) else st
    case KPrepare(first) => st.(k := if m.fate == Done then KCreate(first) else KIdle)
    case KManagers(name, first) => if m.fate == Done then st.(k := KTemplate(name, first)) else Restarted(st)
    case KJudge(name, job) =>
      if m.fate != Done then st.(k := KIdle)
      else if job.status.deleteAfter.None? then st.(k := KStamp(name, job, Stamp(job, st.api.clock, m)))
      else if st.api.clock < job.status.deleteAfter.value then st.(k := KIdle)
      else st.(k := KDelete(name, job))
    case _ => st.(k := KIdle)
  }

  function CollectorMoves(st: State, m: Move): State {
    match CollectorRequest(st.k)
    case None => CollectorReads(st, m)
    case Some(request) =>
      var ok := Succeeds(st.api, request, m.fate);
      st.(api := Sent(st.api, request, m.fate),
          k := if ok then CollectorAfterRequest(st.k, st.api.next) else KIdle,
          firstDue := st.firstDue && !(ok && st.k.KTemplate? && st.k.first))
  }

  // ---- runs

  datatype Event =
    | JobReconciles(m: Move)
    | ListReconciles(m: Move)
    | CollectorReconciles(m: Move)
    | Elsewhere(h: Happening)
    | Restart

  function Apply(parse: Parser, st: State, e: Event): State {
    match e
    case JobReconciles(m) => JobMoves(parse, st, m)
    case ListReconciles(m) => ListMoves(st, m)
    case CollectorReconciles(m) => CollectorMoves(st, m)
    case Elsewhere(h) => st.(api := Happens(st.api, h))
    case Restart => Restarted(st)
  }

  /** The state after any interleaving of the controllers' steps, restarts and changes in the cluster. */
  function Run(parse: Parser, st: State, events: seq<Event>): State {
    if events == [] then st
    else Apply(parse, Run(parse, st, events[..|events| - 1]), events[|events| - 1])
  }
}
