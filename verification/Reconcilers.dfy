/** The three `Reconcile` functions as the manager executes them, statement by statement, against a server whose every
    answer may be an error, other than NotFound for a listing, and while everybody else moves. Each execution follows
    the state machine, so what is proved of its runs holds of any sequence of executions. */
module Reconcilers {
  import opened Wrappers
  import opened JobOwners
  import opened JobStatus
  import opened NodeFilter
  import opened ApiServer
  import opened Manager
  import opened ApiInvariant
  import opened ManagerInvariant
  import opened ManagerProperties
  import opened Execution
  import opened Outcomes

  // ---- the imagejob controller

  /** While the controller is reading, nothing changes on the server by it. */
  method AskForJob(server: Server, task: Task, ghost init: State) returns (ok: bool, ghost asked: State)
    requires server.At(task, init) && task.c == Jobs
    requires JobRequest(server.st.j).None? && !server.st.j.JListPods? && (server.answers == [] || !server.st.j.JIdle?)
    modifies server
    ensures server.At(task, init) && server.answers != []
    ensures asked.j == old(server.st).j && server.st.api == asked.api
    ensures server.st == JobReads(server.parse, asked, MoveFor(task, Answer(ok)))
  {
    ok, asked := server.Ask(task, init);
    JobReadsOnlyRead(server.parse, asked, MoveFor(task, Answer(ok)));
  }

  method SendForJob(server: Server, task: Task, request: Request, ghost init: State) returns (ok: bool)
    requires server.At(task, init) && task.c == Jobs
    requires JobRequest(server.st.j) == Some(request)
    modifies server
    ensures server.At(task, init) && server.answers != []
    ensures server.st.j == if ok then JobAfterRequest(old(server.st).j) else JIdle
  {
    var name;
    ghost var asked;
    ok, name, asked := server.Send(task, request, init);
  }

  /** The new status is persisted before the first pod is created. */
  method StartJob(server: Server, task: Task, imageJob: Job, nodes: seq<Node>, selection: Selection, manual: bool,
                  ghost init: State)
    requires server.At(task, init) && task.c == Jobs
    requires |selection.nodeList| + selection.skipped == |nodes|
    requires server.st.j ==
             JStart(task.name, imageJob, Plan(nodes, task.cfg.filter, selection.nodeList, [], None), manual)
    modifies server
    ensures server.Reconciled(task, init)
  {
    hide Underway;
    var status := Status(|nodes|, 0, 0, 0, Running, None);
    status := status.(skipped := selection.skipped);
    var chosen := selection.nodeList;
    var plan := Plan(nodes, task.cfg.filter, chosen, [], None);
    var ok := SendForJob(server, task, PutJobStatus(task.name, imageJob.version, status, Starts(plan)), init);
    if !ok {
      return;
    }
    for i := 0 to |chosen|
      invariant server.At(task, init)
      invariant server.answers != [] && server.st.j == NextPod(task.name, manual, chosen, i)
    {
      ok := SendForJob(server, task, CreatePod(task.name, manual, chosen[i].name), init);
      if !ok {
        return;
      }
    }
  }

  method HandleNewJob(server: Server, task: Task, imageJob: Job, ghost init: State)
    requires server.At(task, init) && task.c == Jobs
    requires server.st.j == JListNodes(task.name, imageJob)
    modifies server
    ensures server.Reconciled(task, init)
  {
    hide Underway;
    hide JobListsPods;
    hide Choice;
    ghost var asked;
    var ok;
    ok, asked := AskForJob(server, task, init);
    if !ok {
      return;
    }
    var nodes := server.st.api.nodes;
    ok, asked := AskForJob(server, task, init);
    if !ok || task.name !in server.st.api.templates {
      return;
    }
    var selection := ChooseNodes(server.parse, task.cfg.filter, nodes);
    if selection.None? {
      return;
    }
    ChoiceMeaning(server.parse, task.cfg.filter, nodes);
    StartJob(server, task, imageJob, nodes, selection.value, server.st.api.templates[task.name], init);
  }

  method CountPods(server: Server, task: Task, imageJob: Job, manual: bool, ghost init: State)
    requires server.At(task, init) && task.c == Jobs
    requires server.st.j == JListPods(task.name, imageJob, manual)
    modifies server
    ensures server.Reconciled(task, init)
  {
    hide Underway;
    hide Over;
    hide Succeeded;
    hide TallyOf;
    var ok := server.Await(task, init);
    if !ok {
      server.Step(task, MoveFor(task, Dropped), init);
      return;
    }
    ghost var asked := server.st;
    var names := Enumerate(PodsOfType(server.st.api, manual));
    var podList := PodStatuses(server.st.api, names);
    var step := HandleRunningJob(imageJob.status, podList, task.cfg.ratio);
    var tally := Some(TallyOf(server.st.api, task.name, names, podList, task.cfg.ratio));
    var m := MoveFor(task, Done).(listing := names);
    server.Step(task, m, init);
    assert server.st == JobCounts(asked, task.name, imageJob, podList, m) by {
      hide JobCounts;
    }
    hide JobMoves;
    if step.Finish? {
      var request := PutJobStatus(task.name, imageJob.version, step.status, Ends(tally));
      ok := SendForJob(server, task, request, init);
    }
  }

  method HandleRunning(server: Server, task: Task, imageJob: Job, ghost init: State)
    requires server.At(task, init) && task.c == Jobs
    requires server.st.j == JGetTemplate(task.name, imageJob)
    modifies server
    ensures server.Reconciled(task, init)
  {
    hide Underway;
    hide JobListsPods;
    hide Choice;
    ghost var asked;
    var ok;
    ok, asked := AskForJob(server, task, init);
    if !ok || task.name !in server.st.api.templates {
      var status := Status(0, 0, 0, 0, Failed, Some(server.st.api.clock + SECOND));
      ok := SendForJob(server, task, PutJobStatus(task.name, imageJob.version, status, Ends(None)), init);
      return;
    }
    CountPods(server, task, imageJob, server.st.api.templates[task.name], init);
  }

  method HandleJob(server: Server, task: Task, ghost init: State)
    requires server.At(task, init) && server.answers == [] && task.c == Jobs && server.st.j.JIdle?
    modifies server
    ensures server.Reconciled(task, init)
  {
    hide Underway;
    hide JobListsPods;
    hide Choice;
    ghost var asked;
    var ok;
    ok, asked := AskForJob(server, task, init);
    if !ok || task.name !in server.st.api.jobs {
      return;
    }
    var imageJob := server.st.api.jobs[task.name];
    match imageJob.status.phase {
      case New => HandleNewJob(server, task, imageJob, init);
      case Running => HandleRunning(server, task, imageJob, init);
      case Completed =>
      case Failed =>
    }
  }

  /** If every call is answered and the job gets its plan in this execution, each chosen node has had its pod. */
  method ReconcileImageJob(server: Server, cfg: Config, name: nat)
    requires server.st.j.JIdle? && server.pending.None?
    modifies server
    ensures server.pending.None?
    ensures Reconciles(server.parse, Task(Jobs, name, false, cfg), old(server.st), server.answers, server.st)
    ensures Inv(server.parse, old(server.st)) && AllAnswered(server.answers)
            && name !in old(server.st).api.plans && name in server.st.api.plans ==>
              |server.st.api.plans[name].pods| == |server.st.api.plans[name].chosen|
  {
    hide Underway;
    hide Inv;
    var task := Task(Jobs, name, false, cfg);
    ghost var init := server.st;
    Begin(server.parse, task, init);
    server.answers := [];
    HandleJob(server, task, init);
    if && Inv(server.parse, init) && AllAnswered(server.answers)
       && name !in init.api.plans && name in server.st.api.plans {
      EveryChosenNodeGetsAPod(server.parse, task, init, server.answers, server.st);
    }
  }

  // ---- the imagelist controller

  method AskForList(server: Server, task: Task, ghost init: State) returns (ok: bool, ghost asked: State)
    requires server.At(task, init) && task.c == Lists
    requires ListRequest(server.st.l).None? && !server.st.l.LListJobs? && (server.answers == [] || !server.st.l.LIdle?)
    modifies server
    ensures server.At(task, init) && server.answers != []
    ensures asked.l == old(server.st).l && server.st.api == asked.api
    ensures server.st == ListReads(asked, MoveFor(task, Answer(ok)))
  {
    ok, asked := server.Ask(task, init);
    ListReadsOnlyRead(asked, MoveFor(task, Answer(ok)));
  }

  method SendForList(server: Server, task: Task, request: Request, ghost init: State) returns (ok: bool, name: nat)
    requires server.At(task, init) && task.c == Lists
    requires ListRequest(server.st.l) == Some(request)
    modifies server
    ensures server.At(task, init) && server.answers != []
    ensures server.st.l == if ok then ListAfterRequest(old(server.st).l, name) else LIdle
  {
    ghost var asked;
    ok, name, asked := server.Send(task, request, init);
  }

  /** A template is owned by the manager's pod: if listing that pod yields none, indexing the list panics. */
  method CreateListTemplate(server: Server, task: Task, name: nat, ghost init: State)
    requires server.At(task, init) && task.c == Lists
    requires server.st.l == LManagers(name)
    modifies server
    ensures server.Reconciled(task, init)
  {
    hide Underway;
    hide ListFindsJobs;
    ghost var asked;
    var ok, none;
    ok, asked := AskForList(server, task, init);
    if ok {
      ok, none := SendForList(server, task, CreateTemplate(name, true), init);
    }
  }

  method HandleImageListEvent(server: Server, task: Task, uid: nat, ghost init: State)
    requires server.At(task, init) && task.c == Lists
    requires server.st.l == LPrepare(uid)
    modifies server
    ensures server.Reconciled(task, init)
  {
    hide Underway;
    hide ListFindsJobs;
    ghost var asked;
    var ok, name;
    ok, asked := AskForList(server, task, init);
    if !ok {
      return;
    }
    ok, name := SendForList(server, task, CreateJob(ByList(uid)), init);
    if ok {
      CreateListTemplate(server, task, name, init);
    }
  }

  /** Report, then stamp or delete. */
  method HandleJobListEvent(server: Server, task: Task, imageList: ImageList, name: nat, job: Job, ghost init: State)
    requires server.At(task, init) && task.c == Lists
    requires server.st.l == LReport(imageList, name, job) && Terminal(job.status.phase)
    modifies server
    ensures server.Reconciled(task, init)
  {
    hide Underway;
    hide ListFindsJobs;
    ghost var asked;
    var ok, none;
    var counts := Counts(job.status.succeeded, job.status.failed, job.status.skipped);
    ok, none := SendForList(server, task, PutCounts(imageList.uid, imageList.version, counts), init);
    if !ok {
      return;
    }
    ok, asked := AskForList(server, task, init);
    if !ok {
      return;
    }
    var now, cfg := server.st.api.clock, task.cfg;
    if job.status.deleteAfter.None? {
      var stamp := After(now, if job.status.phase == Completed then cfg.delayOnSuccess else cfg.delayOnFailure);
      var status := job.status.(deleteAfter := Some(stamp));
      ok, none := SendForList(server, task, PutJobStatus(name, job.version, status, Stamps), init);
    } else if job.status.deleteAfter.value - now <= 0 {
      ok, none := SendForList(server, task, DeleteJob(name), init);
      if ok {
        ok, none := SendForList(server, task, DeleteTemplate(name), init);
      }
    }
  }

  lemma NeverMultiple(parse: Parser, task: Task, init: State, answers: seq<Fate>, st: State, owner: Owner)
    requires Underway(parse, task, init, answers, st) && Inv(parse, init)
    ensures |JobsOf(st.api, owner)| <= 1
  {
    UnderwayKeeps(parse, task, init, answers, st);
    OneJobAtMost(st.api, owner);
  }

  lemma FoundByCount(st: State, list: ImageList, items: seq<nat>, m: Move)
    requires Enumerates(items, JobsOf(st.api, ByList(list.uid))) && m.fate == Done
    requires |items| == 1 ==> m.name == items[0]
    ensures var after := ListFindsJobs(st, list, m);
            && after.api == st.api
            && (|items| == 0 ==> after.l == LPrepare(list.uid))
            && (|items| == 1 ==> items[0] in st.api.jobs)
            && (|items| == 1 ==>
                  var job := st.api.jobs[items[0]];
                  after.l == if Terminal(job.status.phase) then LReport(list, items[0], job) else LIdle)
            && (|items| > 1 ==> after.l == LIdle)
  {
    SizeOfListing(items, JobsOf(st.api, ByList(list.uid)));
    if |items| == 1 {
      assert items[0] in JobsOf(st.api, ByList(list.uid));
    }
  }

  method SwitchOnJobs(server: Server, task: Task, imageList: ImageList, items: seq<nat>, ghost init: State)
    returns (multiple: bool)
    requires Underway(server.parse, task, init, server.answers, server.st) && task.c == Lists
    requires server.pending == Some(true) && server.st.l == LListJobs(imageList)
    requires Enumerates(items, JobsOf(server.st.api, ByList(imageList.uid)))
    modifies server
    ensures server.Reconciled(task, init)
    ensures Inv(server.parse, init) ==> !multiple
  {
    hide Underway;
    hide Inv;
    multiple := |items| > 1;
    ghost var asked := server.st;
    if Inv(server.parse, init) {
      NeverMultiple(server.parse, task, init, server.answers, asked, ByList(imageList.uid));
      SizeOfListing(items, JobsOf(asked.api, ByList(imageList.uid)));
    }
    hide JobsOf;
    var m := MoveFor(task, Done).(name := if |items| == 1 then items[0] else 0);
    FoundByCount(asked, imageList, items, m);
    server.Step(task, m, init);
    assert server.st == ListFindsJobs(asked, imageList, m);
    hide ListFindsJobs;
    hide Enumerates;
    if |items| == 0 {
      HandleImageListEvent(server, task, imageList.uid, init);
    } else if |items| == 1 {
      var job := server.st.api.jobs[items[0]];
      if Terminal(job.status.phase) {
        HandleJobListEvent(server, task, imageList, items[0], job, init);
      }
    }
  }

  /** The uids of a job's owner references. */
  function OwnerUids(owner: Owner): seq<nat> {
    match owner
    case ByList(uid) => [uid]
    case ByCollector => []
  }

  function Listed(api: Api, names: seq<nat>): seq<ListedJob>
    requires forall name :: name in names ==> name in api.jobs
  {
    seq(|names|, i requires 0 <= i < |names| =>
      assert names[i] in names; ListedJob(names[i], OwnerUids(api.jobs[names[i]].owner)))
  }

  function NamesOf(jobs: seq<ListedJob>): seq<nat> {
    seq(|jobs|, i requires 0 <= i < |jobs| => jobs[i].name)
  }

  /** What the filter leaves of a whole listing are the owner's jobs. */
  lemma OwnedAreJobsOf(api: Api, names: seq<nat>, uid: nat)
    requires Enumerates(names, api.jobs.Keys)
    ensures Enumerates(NamesOf(OwnedBy(Listed(api, names), uid)), JobsOf(api, ByList(uid)))
  {
    var listed := Listed(api, names);
    var owned := OwnedBy(listed, uid);
    var positions := OwnedByMeaning(listed, uid);
    forall k | 0 <= k < |owned|
      ensures owned[k].name == names[positions[k]] && owned[k].name in JobsOf(api, ByList(uid))
    {
      assert owned[k] in owned && names[positions[k]] in names;
    }
    forall name | name in JobsOf(api, ByList(uid)) ensures name in NamesOf(owned) {
      var i :| 0 <= i < |names| && names[i] == name;
      assert listed[i] in listed && listed[i] in owned;
      var k :| 0 <= k < |owned| && owned[k] == listed[i];
      assert NamesOf(owned)[k] == name;
    }
  }

  method ListChildJobs(server: Server, task: Task, imageList: ImageList, ghost init: State) returns (multiple: bool)
    requires server.At(task, init) && task.c == Lists
    requires server.st.l == LListJobs(imageList)
    modifies server
    ensures server.Reconciled(task, init)
    ensures Inv(server.parse, init) ==> !multiple
  {
    hide Underway;
    hide Inv;
    var ok := server.Await(task, init);
    if !ok {
      server.Step(task, MoveFor(task, Dropped), init);
      return false;
    }
    var names := Enumerate(server.st.api.jobs.Keys);
    var items := FilterJobListByOwner(Listed(server.st.api, names), imageList.uid);
    OwnedAreJobsOf(server.st.api, names, imageList.uid);
    multiple := SwitchOnJobs(server, task, imageList, NamesOf(items), init);
  }

  /** `multiple` is the error for several child jobs; from a state that a run can reach it is never returned. */
  method ReconcileImageList(server: Server, cfg: Config) returns (multiple: bool)
    requires server.st.l.LIdle? && server.pending.None?
    modifies server
    ensures server.pending.None?
    ensures Reconciles(server.parse, Task(Lists, 0, false, cfg), old(server.st), server.answers, server.st)
    ensures Inv(server.parse, old(server.st)) ==> !multiple
  {
    var task := Task(Lists, 0, false, cfg);
    ghost var init := server.st;
    multiple := false;
    Begin(server.parse, task, init);
    server.answers := [];
    ghost var asked;
    var ok;
    ok, asked := AskForList(server, task, init);
    if !ok || server.st.api.list.None? {
      return;
    }
    multiple := ListChildJobs(server, task, server.st.api.list.value, init);
  }

  // ---- the imagecollector controller

  method AskForCollector(server: Server, task: Task, ghost init: State) returns (ok: bool, ghost asked: State)
    requires server.At(task, init) && task.c == Collector
    requires CollectorRequest(server.st.k).None? && !server.st.k.KIdle?
    modifies server
    ensures server.At(task, init) && server.answers != []
    ensures asked.k == old(server.st).k && server.st.api == asked.api
    ensures server.st == CollectorReads(asked, MoveFor(task, Answer(ok)))
  {
    ok, asked := server.Ask(task, init);
    CollectorReadsOnlyRead(asked, MoveFor(task, Answer(ok)));
  }

  method SendForCollector(server: Server, task: Task, request: Request, ghost init: State) returns (ok: bool, name: nat)
    requires server.At(task, init) && task.c == Collector
    requires CollectorRequest(server.st.k) == Some(request)
    modifies server
    ensures server.At(task, init) && server.answers != []
    ensures server.st.k == if ok then CollectorAfterRequest(old(server.st).k, name) else KIdle
  {
    ghost var asked;
    ok, name, asked := server.Send(task, request, init);
  }

  method CreateCollectorTemplate(server: Server, task: Task, name: nat, ghost init: State)
    requires server.At(task, init)
    requires task.c == Collector && server.st.k == KManagers(name, task.first)
    modifies server
    ensures server.Reconciled(task, init)
  {
    hide Underway;
    hide CollectorFindsJobs;
    ghost var asked;
    var ok, none;
    ok, asked := AskForCollector(server, task, init);
    if ok {
      ok, none := SendForCollector(server, task, CreateTemplate(name, false), init);
    }
  }

  method CreateCollectorJob(server: Server, task: Task, ghost init: State)
    requires server.At(task, init)
    requires task.c == Collector && server.st.k == KPrepare(task.first)
    modifies server
    ensures server.Reconciled(task, init)
  {
    hide Underway;
    hide CollectorFindsJobs;
    ghost var asked;
    var ok, name;
    ok, asked := AskForCollector(server, task, init);
    if !ok {
      return;
    }
    ok, name := SendForCollector(server, task, CreateJob(ByCollector), init);
    if ok {
      CreateCollectorTemplate(server, task, name, init);
    }
  }

  method Sweep(server: Server, task: Task, items: seq<nat>, ghost init: State)
    requires server.At(task, init) && server.answers != []
    requires task.c == Collector && task.first && server.st.k == NextToSweep(items)
    modifies server
    ensures server.Reconciled(task, init)
  {
    hide Underway;
    var ok, none;
    for i := 0 to |items|
      invariant server.At(task, init)
      invariant server.answers != [] && server.st.k == NextToSweep(items[i..])
    {
      assert items[i..][1..] == items[i + 1..];
      ok, none := SendForCollector(server, task, DeleteJob(items[i]), init);
      if !ok {
        return;
      }
    }
    CreateCollectorJob(server, task, init);
  }

  method HandleCompleted(server: Server, task: Task, name: nat, job: Job, ghost init: State)
    requires server.At(task, init) && task.c == Collector
    requires server.st.k == KJudge(name, job) && Terminal(job.status.phase)
    modifies server
    ensures server.Reconciled(task, init)
  {
    hide Underway;
    hide CollectorFindsJobs;
    ghost var asked;
    var ok, none;
    ok, asked := AskForCollector(server, task, init);
    if !ok {
      return;
    }
    var now, cfg := server.st.api.clock, task.cfg;
    if job.status.deleteAfter.None? {
      var stamp := After(now, if job.status.phase == Completed then cfg.delayOnSuccess else cfg.delayOnFailure);
      var status := job.status.(deleteAfter := Some(stamp));
      ok, none := SendForCollector(server, task, PutJobStatus(name, job.version, status, Stamps), init);
    } else if job.status.deleteAfter.value - now <= 0 {
      ok, none := SendForCollector(server, task, DeleteJob(name), init);
      if ok {
        ok, none := SendForCollector(server, task, DeleteTemplate(name), init);
      }
    }
  }

  method SwitchOnItems(server: Server, task: Task, items: seq<nat>, ghost init: State)
    requires Underway(server.parse, task, init, server.answers, server.st) && server.answers == []
    requires server.pending == Some(true)
    requires task.c == Collector && server.st.k.KIdle? && (task.first ==> server.st.firstDue)
    requires Enumerates(items, server.st.api.jobs.Keys)
    modifies server
    ensures server.Reconciled(task, init)
  {
    hide Underway;
    ghost var asked := server.st;
    SizeOfListing(items, asked.api.jobs.Keys);
    assert |items| == 0 ==> asked.api.jobs == map[];
    var m := MoveFor(task, Done).(name := if |items| == 1 then items[0] else 0, listing := items);
    server.Step(task, m, init);
    assert server.st == CollectorFindsJobs(asked, m);
    if task.first {
      Sweep(server, task, items, init);
    } else if |items| == 0 {
      CreateCollectorJob(server, task, init);
    } else if |items| == 1 {
      assert items[0] in asked.api.jobs.Keys;
      var job := server.st.api.jobs[items[0]];
      if Terminal(job.status.phase) {
        HandleCompleted(server, task, items[0], job, init);
      }
    }
  }

  /** `first` marks the request queued when the manager starts: it deletes whatever jobs it finds. If the request is
      no longer due when the listing arrives, nothing happens. */
  method ReconcileCollector(server: Server, cfg: Config, first: bool)
    requires server.st.k.KIdle? && server.pending.None?
    modifies server
    ensures server.pending.None?
    ensures Reconciles(server.parse, Task(Collector, 0, first, cfg), old(server.st), server.answers, server.st)
  {
    hide Underway;
    var task := Task(Collector, 0, first, cfg);
    ghost var init := server.st;
    Begin(server.parse, task, init);
    server.answers := [];
    var ok := server.Await(task, init);
    if !ok {
      server.Step(task, MoveFor(task, Dropped), init);
      return;
    }
    var items := Enumerate(server.st.api.jobs.Keys);
    if first && !server.st.firstDue {
      server.Step(task, MoveFor(task, Done).(listing := items), init);
    } else {
      SwitchOnItems(server, task, items, init);
    }
  }

  // ---- the manager at work

  ghost predicate OnePodEach(api: Api) {
    forall a, b :: a in api.pods && b in api.pods && a != b && api.pods[a].job == api.pods[b].job ==>
      api.pods[a].node != api.pods[b].node
  }

  lemma PodsOnPlanAreOneEach(parse: Parser, api: Api)
    requires ApiOk(parse, api)
    ensures OnePodEach(api)
  {
    forall a, b | a in api.pods && b in api.pods && a != b && api.pods[a].job == api.pods[b].job
      ensures api.pods[a].node != api.pods[b].node
    {
      PodsOfOnePlan(parse, api, api, a, b);
    }
  }

  lemma InvMeansOneEach(parse: Parser, st: State)
    requires Inv(parse, st)
    ensures Single(st.api.jobs) && OnePodEach(st.api)
  {
    PodsOnPlanAreOneEach(parse, st.api);
  }

  method RunSome(server: Server) returns (multiple: bool)
    requires Inv(server.parse, server.st) && server.pending.None?
    modifies server
    ensures Inv(server.parse, server.st) && server.pending.None? && !multiple
  {
    hide Inv;
    hide Underway;
    hide Apply;
    var cfg: Config := *;
    var name: nat := *;
    var first: bool := *;
    var e: Event := *;
    ghost var init := server.st;
    multiple := false;
    var next: Controller := *;
    if next == Jobs && server.st.j.JIdle? {
      ReconcileImageJob(server, cfg, name);
      UnderwayKeeps(server.parse, Task(Jobs, name, false, cfg), init, server.answers, server.st);
    } else if next == Lists && server.st.l.LIdle? {
      multiple := ReconcileImageList(server, cfg);
      UnderwayKeeps(server.parse, Task(Lists, 0, false, cfg), init, server.answers, server.st);
    } else if next == Collector && server.st.k.KIdle? {
      ReconcileCollector(server, cfg, first);
      UnderwayKeeps(server.parse, Task(Collector, 0, first, cfg), init, server.answers, server.st);
    }
    ApplyKeeps(server.parse, server.st, e);
    server.st := Apply(server.parse, server.st, e);
  }

  /** The manager from its first start on: any number of reconciles of the three controllers as coded above, in any
      order, with anything happening in between and meanwhile, including restarts. There is never more than one job for
      an owner or one pod of a job on a node, and the error for several child jobs is never returned. */
  method RunManager(server: Server) returns (multiple: bool)
    requires Initial(server.st) && server.pending.None?
    modifies server
    ensures Single(server.st.api.jobs) && OnePodEach(server.st.api) && !multiple
    ensures Inv(server.parse, server.st)
  {
    multiple := false;
    InvInit(server.parse, server.st);
    var n: int := *;
    while n > 0
      invariant Inv(server.parse, server.st) && server.pending.None? && !multiple
    {
      multiple := RunSome(server);
      n := n - 1;
    }
    InvMeansOneEach(server.parse, server.st);
  }
}
