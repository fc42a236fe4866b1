/** What each controller knows at each point of a reconcile, and why nothing that happens elsewhere invalidates it. */
module ManagerInvariant {
  import opened Wrappers
  import opened Images
  import opened JobStatus
  import opened NodeFilter
  import opened ApiServer
  import opened Manager
  import opened ApiInvariant

  // ---- knowledge

  /** A job as it was once read: it may have evolved since, but not behind its version, or be gone. */
  ghost predicate Known(api: Api, name: nat, job: Job) {
    && name in api.born && api.born[name] == job.owner && name < api.next
    && StatusOk(job.status) && job.version < api.next
    && (name in api.jobs ==>
          && Evolves(job.status, api.jobs[name].status)
          && (api.jobs[name].version == job.version ==> api.jobs[name].status == job.status))
  }

  ghost predicate RunsAsPlanned(api: Api, name: nat, job: Job) {
    && Known(api, name, job) && job.status.phase == Running
    && name in api.plans && StatusFits(job.status, api.plans[name])
  }

  ghost predicate CanStart(parse: Parser, api: Api, name: nat, plan: Plan, manual: bool) {
    && PlanOk(parse, plan) && plan.pods == [] && plan.tally.None?
    && name in api.born && manual == api.born[name].ByList?
  }

  ghost predicate CreatesPods(api: Api, name: nat, manual: bool, chosen: seq<Node>, i: nat) {
    && name in api.plans && api.plans[name].chosen == chosen && |api.plans[name].pods| == i < |chosen|
    && name in api.born && manual == api.born[name].ByList?
  }

  ghost predicate JobPcOk(parse: Parser, api: Api, pc: JobPc) {
    match pc
    case JIdle => true
    case JListNodes(name, job) => Known(api, name, job) && job.status.phase == New
    case JNewTemplate(name, job, nodes) => Known(api, name, job) && job.status.phase == New && DistinctNames(nodes)
    case JStart(name, job, plan, manual) =>
      Known(api, name, job) && job.status.phase == New && CanStart(parse, api, name, plan, manual)
    case JCreatePods(name, manual, chosen, i) => CreatesPods(api, name, manual, chosen, i)
    case JGetTemplate(name, job) => RunsAsPlanned(api, name, job)
    case JListPods(name, job, manual) => RunsAsPlanned(api, name, job) && manual == api.born[name].ByList?
    case JFinish(name, job, status, tally) =>
      && RunsAsPlanned(api, name, job) && StatusOk(status) && Terminal(status.phase)
      && CountsFit(status, api.plans[name].(tally := tally))
  }

  ghost predicate Ended(api: Api, name: nat, job: Job) {
    Known(api, name, job) && Terminal(job.status.phase)
  }

  /** The time to delete it has come. */
  ghost predicate Due(api: Api, job: Job) {
    job.status.deleteAfter.Some? && job.status.deleteAfter.value <= api.clock
  }

  /** The ImageList, unless it has been replaced, carries the counts. */
  ghost predicate Reported(api: Api, uid: nat, status: Status) {
    api.list.Some? && api.list.value.uid == uid ==> api.list.value.counts == Some(CountsOf(status))
  }

  ghost predicate Childless(api: Api, owner: Owner) {
    forall n :: n in api.jobs ==> api.jobs[n].owner != owner
  }

  ghost predicate ListPcOk(api: Api, pc: ListPc) {
    match pc
    case LIdle => true
    case LListJobs(list) => list.uid < api.next
    case LPrepare(uid) => uid < api.next && Childless(api, ByList(uid))
    case LCreate(uid) => uid < api.next && Childless(api, ByList(uid))
    case LManagers(name) => name in api.born && api.born[name].ByList?
    case LTemplate(name) => name in api.born && api.born[name].ByList?
    case LReport(list, name, job) => Ended(api, name, job) && job.owner == ByList(list.uid) && list.uid < api.next
    case LJudge(uid, name, job) =>
      Ended(api, name, job) && job.owner == ByList(uid) && uid < api.next && Reported(api, uid, job.status)
    case LStamp(name, job, _) => Ended(api, name, job) && job.status.deleteAfter.None?
    case LDelete(uid, name, job) =>
      && Ended(api, name, job) && job.owner == ByList(uid) && uid < api.next && Reported(api, uid, job.status)
      && Due(api, job)
    case LDropTemplate(_) => true
  }

  ghost predicate CollectorPcOk(api: Api, pc: CollectorPc) {
    match pc
    case KIdle => true
    case KSweep(rest) => forall n :: n in api.jobs && api.jobs[n].owner == ByCollector ==> n in rest
    case KPrepare(_) => Childless(api, ByCollector)
    case KCreate(_) => Childless(api, ByCollector)
    case KManagers(name, _) => name in api.born && api.born[name] == ByCollector
    case KTemplate(name, _) => name in api.born && api.born[name] == ByCollector
    case KJudge(name, job) => Ended(api, name, job)
    case KStamp(name, job, _) => Ended(api, name, job) && job.status.deleteAfter.None?
    case KDelete(name, job) => Ended(api, name, job) && Due(api, job)
    case KDropTemplate(_) => true
  }

  ghost predicate Inv(parse: Parser, st: State) {
    && ApiOk(parse, st.api) && JobPcOk(parse, st.api, st.j) && ListPcOk(st.api, st.l) && CollectorPcOk(st.api, st.k)
    && !st.multiple
  }

  lemma InvInit(parse: Parser, st: State)
    requires Initial(st)
    ensures Inv(parse, st)
  {}

  // ---- nobody else's step takes the knowledge away

  /** Only the imagejob controller touches plans, only the imagelist controller creates its jobs and writes counts, and
      only the collector's creates the collector's jobs. */
  ghost predicate QuietForJobs(api: Api, after: Api) {
    after.plans == api.plans
  }

  ghost predicate QuietForLists(api: Api, after: Api) {
    && (forall n :: n in after.jobs && n !in api.jobs ==> !after.jobs[n].owner.ByList?)
    && (after.list.Some? && api.list.Some? && after.list.value.uid == api.list.value.uid ==>
          after.list.value.counts == api.list.value.counts)
  }

  ghost predicate QuietForCollector(api: Api, after: Api) {
    forall n :: n in after.jobs && n !in api.jobs ==> after.jobs[n].owner != ByCollector
  }

  lemma KnownStays(api: Api, after: Api, name: nat, job: Job)
    requires Known(api, name, job) && ApiStep(api, after)
    ensures Known(after, name, job)
  {
    if name in after.jobs {
      assert name in api.jobs;
      EvolvesOn(job.status, api.jobs[name].status, after.jobs[name].status);
    }
  }

  lemma JobPcStays(parse: Parser, api: Api, after: Api, pc: JobPc)
    requires JobPcOk(parse, api, pc) && ApiStep(api, after) && QuietForJobs(api, after)
    ensures JobPcOk(parse, after, pc)
  {
    if !pc.JIdle? && !pc.JCreatePods? {
      KnownStays(api, after, pc.name, pc.job);
    }
  }

  lemma ChildlessStays(api: Api, after: Api, owner: Owner)
    requires Childless(api, owner) && ApiStep(api, after)
    requires forall n :: n in after.jobs && n !in api.jobs ==> after.jobs[n].owner != owner
    ensures Childless(after, owner)
  {}

  lemma ListPcStays(api: Api, after: Api, pc: ListPc)
    requires ListPcOk(api, pc) && ApiStep(api, after) && QuietForLists(api, after)
    ensures ListPcOk(after, pc)
  {
    if pc.LReport? || pc.LJudge? || pc.LStamp? || pc.LDelete? {
      KnownStays(api, after, pc.name, pc.job);
    }
    if pc.LPrepare? || pc.LCreate? {
      ChildlessStays(api, after, ByList(pc.uid));
    }
  }

  lemma CollectorPcStays(api: Api, after: Api, pc: CollectorPc)
    requires CollectorPcOk(api, pc) && ApiStep(api, after) && QuietForCollector(api, after)
    ensures CollectorPcOk(after, pc)
  {
    if pc.KJudge? || pc.KStamp? || pc.KDelete? {
      KnownStays(api, after, pc.name, pc.job);
    }
    if pc.KPrepare? || pc.KCreate? {
      ChildlessStays(api, after, ByCollector);
    }
  }

  // ---- a job read now

  lemma ReadIsKnown(parse: Parser, api: Api, name: nat)
    requires ApiOk(parse, api) && name in api.jobs
    ensures Known(api, name, api.jobs[name])
    ensures api.jobs[name].status.phase == Running ==> RunsAsPlanned(api, name, api.jobs[name])
  {
  }

  // ---- the imagejob controller

  lemma JobRequestJustified(parse: Parser, api: Api, pc: JobPc)
    requires ApiOk(parse, api) && JobPcOk(parse, api, pc) && JobRequest(pc).Some?
    ensures Justified(parse, api, JobRequest(pc).value)
  {
  }

  lemma JobRequestLeads(parse: Parser, api: Api, pc: JobPc)
    requires ApiOk(parse, api) && JobPcOk(parse, api, pc)
    requires JobRequest(pc).Some? && Effect(api, JobRequest(pc).value).Some?
    ensures JobPcOk(parse, Effect(api, JobRequest(pc).value).value, JobAfterRequest(pc))
  {
    hide ApiOk;
    hide CountsFit;
    hide StatusFits;
    hide PlanOk;
    hide Known;
  }

  lemma JobRequestIsQuiet(api: Api, pc: JobPc, fate: Fate)
    requires JobRequest(pc).Some?
    ensures var after := Sent(api, JobRequest(pc).value, fate);
            QuietForLists(api, after) && QuietForCollector(api, after)
  {}

  function Members(s: seq<nat>): set<nat> {
    set x | x in s
  }

  lemma {:induction false} DistinctSize(s: seq<nat>)
    requires NoDuplicates(s)
    ensures |Members(s)| == |s|
  {
    if s != [] {
      var n := |s| - 1;
      DistinctSize(s[..n]);
      assert s == s[..n] + [s[n]];
      assert s[n] !in Members(s[..n]);
      assert Members(s) == Members(s[..n]) + {s[n]};
    }
  }

  lemma SubsetSize(a: set<nat>, b: set<nat>)
    requires a <= b
    ensures |a| <= |b|
  {
    assert b == a + (b - a);
  }

  lemma OwnPodsPlanned(api: Api, name: nat, listing: seq<nat>)
    requires PodsOnPlan(api.pods, api.plans) && name in api.plans
    requires forall id :: id in listing ==> id in api.pods && api.pods[id].job == name
    ensures Members(listing) <= Members(api.plans[name].pods)
  {
    var plan := api.plans[name];
    forall id | id in listing ensures id in plan.pods {
      assert OnPlan(plan, id, api.pods[id]);
    }
  }

  lemma PlannedPodsListed(api: Api, name: nat, manual: bool, listing: seq<nat>)
    requires PodsOnPlan(api.pods, api.plans) && PodsLabelled(api.pods, api.born)
    requires name in api.plans && name in api.born && manual == api.born[name].ByList?
    requires forall id :: id in listing <==> id in PodsOfType(api, manual)
    requires forall id :: id in api.plans[name].pods ==> id in api.pods
    ensures Members(api.plans[name].pods) <= Members(listing)
  {
  }

  /** If the listing holds only this job's pods, there are no more of them than planned; and if none is missing, there
      is one for every chosen node. */
  lemma ListingCounts(parse: Parser, api: Api, name: nat, manual: bool, listing: seq<nat>,
                      pods: seq<PodStatus>, ratio: real)
    requires ApiOk(parse, api) && name in api.plans && name in api.born && manual == api.born[name].ByList?
    requires Enumerates(listing, PodsOfType(api, manual)) && |pods| == |listing|
    ensures var t := TallyOf(api, name, listing, pods, ratio);
            && t.pods == pods && t.ratio == ratio
            && (t.own ==> |t.pods| <= |api.plans[name].pods|)
            && (t.own && t.whole ==> |t.pods| == |api.plans[name].chosen|)
  {
    var t := TallyOf(api, name, listing, pods, ratio);
    var planned := api.plans[name].pods;
    assert NoDuplicates(planned) by {
      assert PlanOk(parse, api.plans[name]);
    }
    DistinctSize(listing);
    DistinctSize(planned);
    if t.own {
      OwnPodsPlanned(api, name, listing);
      SubsetSize(Members(listing), Members(planned));
      if t.whole {
        PlannedPodsListed(api, name, manual, listing);
        SubsetSize(Members(planned), Members(listing));
      }
    }
  }

  lemma FinalFits(s: Status, plan: Plan, t: Tally)
    requires StatusFits(s, plan) && s.phase == Running && s.desired > 0 && Over(t.pods)
    requires t.own ==> |t.pods| <= |plan.pods|
    requires t.own && t.whole ==> |t.pods| == |plan.chosen|
    ensures var after := FinalStatus(s, Succeeded(t.pods), |t.pods| - Succeeded(t.pods), t.ratio);
            StatusOk(after) && Terminal(after.phase) && CountsFit(after, plan.(tally := Some(t)))
  {}

  lemma TalliedFits(parse: Parser, api: Api, name: nat, s: Status, manual: bool, pods: seq<PodStatus>, m: Move)
    requires ApiOk(parse, api) && name in api.born && manual == api.born[name].ByList?
    requires name in api.plans && StatusFits(s, api.plans[name]) && s.phase == Running && s.desired > 0
    requires Enumerates(m.listing, PodsOfType(api, manual)) && |pods| == |m.listing| && Over(pods)
    ensures var status := FinalStatus(s, Succeeded(pods), |pods| - Succeeded(pods), m.ratio);
            && StatusOk(status) && Terminal(status.phase)
            && CountsFit(status, api.plans[name].(tally := Some(TallyOf(api, name, m.listing, pods, m.ratio))))
  {
    hide *;
    ListingCounts(parse, api, name, manual, m.listing, pods, m.ratio);
    FinalFits(s, api.plans[name], TallyOf(api, name, m.listing, pods, m.ratio));
  }

  lemma JobCountsKeeps(parse: Parser, st: State, name: nat, job: Job, manual: bool, pods: seq<PodStatus>, m: Move)
    requires ApiOk(parse, st.api) && RunsAsPlanned(st.api, name, job) && manual == st.api.born[name].ByList?
    requires Enumerates(m.listing, PodsOfType(st.api, manual)) && |pods| == |m.listing|
    ensures JobPcOk(parse, st.api, JobCounts(st, name, job, pods, m).j)
  {
    hide ApiOk;
    assert name in st.api.born && job.status.phase == Running;
    hide Known;
    hide Enumerates;
    hide PodsOfType;
    hide StatusFits;
    hide Over;
    hide Succeeded;
    hide TallyOf;
    hide CountsFit;
    hide StatusOk;
    hide FinalStatus;
    if Over(pods) && job.status.desired > 0 {
      TalliedFits(parse, st.api, name, job.status, manual, pods, m);
    }
  }

  lemma JobListsPodsKeeps(parse: Parser, st: State, m: Move)
    requires ApiOk(parse, st.api) && JobPcOk(parse, st.api, st.j) && st.j.JListPods?
    ensures var after := JobListsPods(st, st.j.name, st.j.job, st.j.manual, m); JobPcOk(parse, st.api, after.j)
  {
    if Enumerates(m.listing, PodsOfType(st.api, st.j.manual)) {
      var pods := PodStatuses(st.api, m.listing);
      assert |pods| == |m.listing|;
      JobCountsKeeps(parse, st, st.j.name, st.j.job, st.j.manual, pods, m);
    }
  }

  lemma JobBegins(parse: Parser, st: State, m: Move)
    requires ApiOk(parse, st.api) && st.j.JIdle?
    ensures JobPcOk(parse, st.api, JobReads(parse, st, m).j)
  {
    if m.name in st.api.jobs {
      ReadIsKnown(parse, st.api, m.name);
    }
  }

  lemma JobLosesTemplate(parse: Parser, api: Api, name: nat, job: Job)
    requires RunsAsPlanned(api, name, job)
    ensures JobPcOk(parse, api, JFinish(name, job, LostTemplateStatus(api.clock), None))
  {
  }

  lemma JobReadsKeep(parse: Parser, st: State, m: Move)
    requires ApiOk(parse, st.api) && JobPcOk(parse, st.api, st.j) && JobRequest(st.j).None?
    ensures JobPcOk(parse, st.api, JobReads(parse, st, m).j)
  {
    hide Known;
    hide PlanOk;
    hide StatusFits;
    hide CountsFit;
    hide JobsFit;
    hide PlansOk;
    hide JobListsPods;
    hide Choice;
    hide PodsOnPlan;
    hide PodsLabelled;
    hide Enumerates;
    match st.j {
      case JIdle => JobBegins(parse, st, m);
      case JListNodes(_, _) =>
      case JNewTemplate(_, _, nodes) => if Choice(parse, m.filter, nodes).Some? { ChosenIsOk(parse, m.filter, nodes); }
      case JGetTemplate(name, job) => JobLosesTemplate(parse, st.api, name, job);
      case JListPods(_, _, _) => JobListsPodsKeeps(parse, st, m);
      case JCreatePods(_, _, _, _) =>
    }
  }

  lemma ChosenIsOk(parse: Parser, filter: Filter, nodes: seq<Node>)
    requires DistinctNames(nodes) && Choice(parse, filter, nodes).Some?
    ensures PlanOk(parse, Plan(nodes, filter, Choice(parse, filter, nodes).value.nodeList, [], None))
  {}

  // ---- the imagelist controller

  lemma ListRequestJustified(parse: Parser, api: Api, pc: ListPc)
    requires ApiOk(parse, api) && ListPcOk(api, pc) && ListRequest(pc).Some?
    ensures Justified(parse, api, ListRequest(pc).value)
  {
  }

  lemma ListRequestLeads(api: Api, pc: ListPc)
    requires ListPcOk(api, pc) && ListRequest(pc).Some? && Effect(api, ListRequest(pc).value).Some?
    requires ApiStep(api, Effect(api, ListRequest(pc).value).value)
    ensures ListPcOk(Effect(api, ListRequest(pc).value).value, ListAfterRequest(pc, api.next))
  {
    if pc.LReport? {
      KnownStays(api, Effect(api, ListRequest(pc).value).value, pc.name, pc.job);
    }
  }

  lemma ListRequestIsQuiet(api: Api, pc: ListPc, fate: Fate)
    requires ListRequest(pc).Some?
    ensures var after := Sent(api, ListRequest(pc).value, fate);
            QuietForJobs(api, after) && QuietForCollector(api, after)
  {}

  lemma OneJobAtMost(api: Api, owner: Owner)
    requires Single(api.jobs)
    ensures |JobsOf(api, owner)| <= 1
  {
    var owned := JobsOf(api, owner);
    if a :| a in owned {
      assert owned == {a};
    }
  }

  lemma NoJobsMeansChildless(api: Api, owner: Owner)
    requires JobsOf(api, owner) == {}
    ensures Childless(api, owner)
  {
    forall n | n in api.jobs ensures api.jobs[n].owner != owner {
      assert n !in JobsOf(api, owner);
    }
  }

  lemma ListFindsJobsKeeps(parse: Parser, st: State, list: ImageList, m: Move)
    requires ApiOk(parse, st.api) && list.uid < st.api.next && !st.multiple
    ensures var after := ListFindsJobs(st, list, m); ListPcOk(st.api, after.l) || after.l == st.l
    ensures !ListFindsJobs(st, list, m).multiple
  {
    var owner := ByList(list.uid);
    var owned := JobsOf(st.api, owner);
    OneJobAtMost(st.api, owner);
    if owned == {} {
      NoJobsMeansChildless(st.api, owner);
    }
    if owned == {m.name} {
      assert m.name in owned;
      ReadIsKnown(parse, st.api, m.name);
    }
  }

  lemma ListReadsKeep(parse: Parser, st: State, m: Move)
    requires ApiOk(parse, st.api) && ListPcOk(st.api, st.l) && ListRequest(st.l).None? && !st.multiple
    ensures ListPcOk(st.api, ListReads(st, m).l) && !ListReads(st, m).multiple
  {
    if st.l.LListJobs? {
      ListFindsJobsKeeps(parse, st, st.l.list, m);
    }
    assert ListNumbered(st.api.list, st.api.next);
  }

  // ---- the imagecollector controller

  lemma CollectorRequestJustified(parse: Parser, api: Api, pc: CollectorPc)
    requires ApiOk(parse, api) && CollectorPcOk(api, pc) && CollectorRequest(pc).Some?
    ensures Justified(parse, api, CollectorRequest(pc).value)
  {
  }

  lemma CollectorRequestLeads(api: Api, pc: CollectorPc)
    requires CollectorPcOk(api, pc) && CollectorRequest(pc).Some? && Effect(api, CollectorRequest(pc).value).Some?
    ensures CollectorPcOk(Effect(api, CollectorRequest(pc).value).value, CollectorAfterRequest(pc, api.next))
  {
  }

  lemma CollectorRequestIsQuiet(api: Api, pc: CollectorPc, fate: Fate)
    requires CollectorRequest(pc).Some?
    ensures var after := Sent(api, CollectorRequest(pc).value, fate);
            QuietForJobs(api, after) && QuietForLists(api, after)
  {}

  lemma CollectorFindsJobsKeeps(parse: Parser, st: State, m: Move)
    requires ApiOk(parse, st.api) && st.k.KIdle?
    ensures CollectorPcOk(st.api, CollectorFindsJobs(st, m).k)
  {
    if st.api.jobs.Keys == {m.name} {
      assert m.name in st.api.jobs;
      ReadIsKnown(parse, st.api, m.name);
    }
  }

  lemma CollectorReadsKeep(parse: Parser, st: State, m: Move)
    requires ApiOk(parse, st.api) && CollectorPcOk(st.api, st.k) && CollectorRequest(st.k).None?
    ensures CollectorPcOk(st.api, CollectorReads(st, m).k)
  {
    if st.k.KIdle? {
      CollectorFindsJobsKeeps(parse, st, m);
    }
  }

  // ---- every step keeps the invariant

  lemma JobMovesKeep(parse: Parser, st: State, m: Move)
    requires Inv(parse, st)
    ensures Inv(parse, JobMoves(parse, st, m)) && ApiStep(st.api, JobMoves(parse, st, m).api)
  {
    hide ApiOk;
    hide ApiStep;
    hide JobReads;
    hide Effect;
    hide JobAfterRequest;
    hide JobRequest;
    StepToSelf(st.api);
    if JobRequest(st.j).None? {
      JobReadsKeep(parse, st, m);
      JobReadsOnlyRead(parse, st, m);
    } else {
      var request := JobRequest(st.j).value;
      var after := Sent(st.api, request, m.fate);
      JobRequestJustified(parse, st.api, st.j);
      SentKeeps(parse, st.api, request, m.fate);
      JobRequestIsQuiet(st.api, st.j, m.fate);
      ListPcStays(st.api, after, st.l);
      CollectorPcStays(st.api, after, st.k);
      if Effect(st.api, request).Some? {
        JobRequestLeads(parse, st.api, st.j);
      }
    }
  }

  lemma JobReadsOnlyRead(parse: Parser, st: State, m: Move)
    ensures var after := JobReads(parse, st, m);
            after == st.(j := after.j) || after == Restarted(st)
  {
  }

  lemma ListMovesKeep(parse: Parser, st: State, m: Move)
    requires Inv(parse, st)
    ensures Inv(parse, ListMoves(st, m)) && ApiStep(st.api, ListMoves(st, m).api)
  {
    hide ApiOk;
    hide ApiStep;
    hide ListReads;
    hide Effect;
    hide ListAfterRequest;
    hide ListRequest;
    StepToSelf(st.api);
    if ListRequest(st.l).None? {
      ListReadsKeep(parse, st, m);
      ListReadsOnlyRead(st, m);
    } else {
      var request := ListRequest(st.l).value;
      var after := Sent(st.api, request, m.fate);
      ListRequestJustified(parse, st.api, st.l);
      SentKeeps(parse, st.api, request, m.fate);
      ListRequestIsQuiet(st.api, st.l, m.fate);
      JobPcStays(parse, st.api, after, st.j);
      CollectorPcStays(st.api, after, st.k);
      if Succeeds(st.api, request, m.fate) {
        ListRequestLeads(st.api, st.l);
      }
    }
  }

  lemma ListReadsOnlyRead(st: State, m: Move)
    ensures var after := ListReads(st, m);
            after == st.(l := after.l, multiple := after.multiple) || after == Restarted(st)
  {
  }

  lemma CollectorMovesKeep(parse: Parser, st: State, m: Move)
    requires Inv(parse, st)
    ensures Inv(parse, CollectorMoves(st, m)) && ApiStep(st.api, CollectorMoves(st, m).api)
  {
    hide ApiOk;
    hide ApiStep;
    hide CollectorReads;
    hide Effect;
    hide CollectorAfterRequest;
    hide CollectorRequest;
    StepToSelf(st.api);
    if CollectorRequest(st.k).None? {
      CollectorReadsKeep(parse, st, m);
      CollectorReadsOnlyRead(st, m);
    } else {
      var request := CollectorRequest(st.k).value;
      var after := Sent(st.api, request, m.fate);
      CollectorRequestJustified(parse, st.api, st.k);
      SentKeeps(parse, st.api, request, m.fate);
      CollectorRequestIsQuiet(st.api, st.k, m.fate);
      JobPcStays(parse, st.api, after, st.j);
      ListPcStays(st.api, after, st.l);
      if Succeeds(st.api, request, m.fate) {
        CollectorRequestLeads(st.api, st.k);
      }
    }
  }

  lemma CollectorReadsOnlyRead(st: State, m: Move)
    ensures var after := CollectorReads(st, m); after == st.(k := after.k) || after == Restarted(st)
  {
  }

  lemma ElsewhereKeeps(parse: Parser, st: State, h: Happening)
    requires Inv(parse, st)
    ensures Inv(parse, st.(api := Happens(st.api, h))) && ApiStep(st.api, Happens(st.api, h))
  {
    var after := Happens(st.api, h);
    HappensKeeps(parse, st.api, h);
    HappensIsQuiet(parse, st.api, h);
    JobPcStays(parse, st.api, after, st.j);
    ListPcStays(st.api, after, st.l);
    CollectorPcStays(st.api, after, st.k);
  }

  lemma HappensIsQuiet(parse: Parser, api: Api, h: Happening)
    requires ApiOk(parse, api)
    ensures var after := Happens(api, h);
            QuietForJobs(api, after) && QuietForLists(api, after) && QuietForCollector(api, after)
  {
    hide ApiOk;
    hide DistinctNames;
  }

  lemma ApplyKeeps(parse: Parser, st: State, e: Event)
    requires Inv(parse, st)
    ensures Inv(parse, Apply(parse, st, e)) && ApiStep(st.api, Apply(parse, st, e).api)
  {
    hide ApiOk;
    hide ApiStep;
    hide JobMoves;
    hide ListMoves;
    hide CollectorMoves;
    hide Happens;
    match e {
      case JobReconciles(m) => JobMovesKeep(parse, st, m);
      case ListReconciles(m) => ListMovesKeep(parse, st, m);
      case CollectorReconciles(m) => CollectorMovesKeep(parse, st, m);
      case Elsewhere(h) => ElsewhereKeeps(parse, st, h);
      case Restart => StepToSelf(st.api);
    }
  }

  lemma {:induction false} RunKeeps(parse: Parser, init: State, events: seq<Event>)
    requires Initial(init)
    ensures Inv(parse, Run(parse, init, events))
  {
    if events == [] {
      InvInit(parse, init);
    } else {
      RunKeeps(parse, init, events[..|events| - 1]);
      ApplyKeeps(parse, Run(parse, init, events[..|events| - 1]), events[|events| - 1]);
    }
  }
}
