/** What holds in every reachable state of the manager, whatever the interleaving, the failures and the restarts. */
module ManagerProperties {
  import opened Wrappers
  import opened JobStatus
  import opened NodeFilter
  import opened ApiServer
  import opened Manager
  import opened ApiInvariant
  import opened ManagerInvariant

  // ---- the life of a job

  ghost predicate JobsEvolve(api: Api, after: Api) {
    && (forall n :: n in api.born ==> n in after.born && after.born[n] == api.born[n])
    && (forall n :: n in api.jobs && n in after.jobs ==> Evolves(api.jobs[n].status, after.jobs[n].status))
    && (forall n :: n in api.born && n in after.jobs ==> n in api.jobs)
  }

  lemma JobsEvolveOn(start: Api, api: Api, after: Api)
    requires JobsEvolve(start, api) && ApiStep(api, after) && JobsNumbered(api.jobs, api.born, api.next)
    requires JobsNumbered(start.jobs, start.born, start.next)
    ensures JobsEvolve(start, after)
  {
    forall n | n in start.jobs && n in after.jobs
      ensures n in api.jobs && Evolves(start.jobs[n].status, after.jobs[n].status)
    {
      assert n in start.born && n in api.born;
      EvolvesOn(start.jobs[n].status, api.jobs[n].status, after.jobs[n].status);
    }
  }

  /** Between any two moments of any run: a job keeps its owner, its phase only moves forward, a final status is final
      but for the deletion time, a deletion time is set once, and a job that is gone does not come back. */
  lemma {:induction false} LifeCycle(parse: Parser, init: State, events: seq<Event>, more: seq<Event>)
    requires Initial(init)
    ensures JobsEvolve(Run(parse, init, events).api, Run(parse, init, events + more).api)
  {
    hide ApiStep;
    hide Run;
    hide Apply;
    hide JobPcOk;
    hide ListPcOk;
    hide CollectorPcOk;
    var start := Run(parse, init, events);
    RunKeeps(parse, init, events);
    if more == [] {
      assert events + more == events;
      assert ApiOk(parse, start.api);
    } else {
      var n := |more| - 1;
      LifeCycle(parse, init, events, more[..n]);
      RunKeeps(parse, init, events + more[..n]);
      RunExtends(parse, init, events, more);
      var st := Run(parse, init, events + more[..n]);
      ApplyKeeps(parse, st, more[n]);
      JobsEvolveOn(start.api, st.api, Apply(parse, st, more[n]).api);
    }
  }

  lemma RunExtends(parse: Parser, init: State, events: seq<Event>, more: seq<Event>)
    requires more != []
    ensures var n := |more| - 1;
            Run(parse, init, events + more) == Apply(parse, Run(parse, init, events + more[..n]), more[n])
  {
    hide Apply;
    assert (events + more)[..|events + more| - 1] == events + more[..|more| - 1];
  }

  /** Deletion times belong to jobs that have ended, and only a job that has started has a plan, hence pods. */
  lemma StatusOfEveryJob(parse: Parser, init: State, events: seq<Event>, name: nat)
    requires Initial(init) && name in Run(parse, init, events).api.jobs
    ensures var api := Run(parse, init, events).api;
            var status := api.jobs[name].status;
            && (status.deleteAfter.Some? ==> Terminal(status.phase))
            && (status.phase == New <==> name !in api.plans)
            && (status.phase == New ==> status == NO_STATUS && forall id :: id in api.pods ==> api.pods[id].job != name)
  {
    RunKeeps(parse, init, events);
  }

  /** Outside the first reconcile, and unless its ImageList is gone, a job is deleted only when it has ended and its
      deletion time has come. */
  lemma DeletedOnlyWhenDue(parse: Parser, init: State, events: seq<Event>, e: Event, name: nat)
    requires Initial(init)
    requires name in Run(parse, init, events).api.jobs
    requires name !in Apply(parse, Run(parse, init, events), e).api.jobs
    ensures var st := Run(parse, init, events);
            || (e.CollectorReconciles? && st.k.KSweep?)
            || (e == Elsewhere(JobCollected(name)) && Orphan(st.api, name))
            || (Terminal(st.api.jobs[name].status.phase) && Due(st.api, st.api.jobs[name]))
  {
    RunKeeps(parse, init, events);
    DeletesDue(parse, Run(parse, init, events), e, name);
  }

  lemma DeletesDue(parse: Parser, st: State, e: Event, name: nat)
    requires Inv(parse, st) && name in st.api.jobs && name !in Apply(parse, st, e).api.jobs
    ensures || (e.CollectorReconciles? && st.k.KSweep?)
            || (e == Elsewhere(JobCollected(name)) && Orphan(st.api, name))
            || (Terminal(st.api.jobs[name].status.phase) && Due(st.api, st.api.jobs[name]))
  {
    hide Inv;
    hide JobMoves;
    hide ListMoves;
    hide CollectorMoves;
    hide Happens;
    match e {
      case JobReconciles(m) => JobDeletesNothing(parse, st, m);
      case ListReconciles(m) => ListDeletesDue(parse, st, m, name);
      case CollectorReconciles(m) => if !st.k.KSweep? { CollectorDeletesDue(parse, st, m, name); }
      case Elsewhere(h) => OnlyOrphansAreCollected(st.api, h, name);
      case Restart =>
    }
  }

  lemma OnlyOrphansAreCollected(api: Api, h: Happening, name: nat)
    requires name in api.jobs && name !in Happens(api, h).jobs
    ensures h == JobCollected(name) && Orphan(api, name)
  {
  }

  lemma JobDeletesNothing(parse: Parser, st: State, m: Move)
    ensures forall n :: n in st.api.jobs ==> n in JobMoves(parse, st, m).api.jobs
  {
    hide JobReads;
    hide StartStatus;
    JobReadsOnlyRead(parse, st, m);
  }

  lemma OnlyDeletionsDelete(api: Api, r: Request, fate: Fate, name: nat)
    requires name in api.jobs
    ensures name !in Sent(api, r, fate).jobs ==> r == DeleteJob(name)
  {}

  lemma ListDeletesOne(st: State, m: Move, name: nat)
    requires name in st.api.jobs && name !in ListMoves(st, m).api.jobs
    ensures st.l.LDelete? && st.l.name == name
  {
    if ListRequest(st.l).None? {
      ListReadsOnlyRead(st, m);
    } else {
      OnlyDeletionsDelete(st.api, ListRequest(st.l).value, m.fate, name);
    }
  }

  lemma ListDeletesDue(parse: Parser, st: State, m: Move, name: nat)
    requires Inv(parse, st) && name in st.api.jobs && name !in ListMoves(st, m).api.jobs
    ensures st.l.LDelete? && st.l.name == name
    ensures Terminal(st.api.jobs[name].status.phase) && Due(st.api, st.api.jobs[name])
    ensures Reported(st.api, st.l.uid, st.api.jobs[name].status) && st.api.jobs[name].owner == ByList(st.l.uid)
  {
    ListDeletesOne(st, m, name);
    assert JobsNumbered(st.api.jobs, st.api.born, st.api.next);
    assert Evolves(st.l.job.status, st.api.jobs[name].status);
  }

  lemma CollectorDeletesOne(st: State, m: Move, name: nat)
    requires !st.k.KSweep? && name in st.api.jobs && name !in CollectorMoves(st, m).api.jobs
    ensures st.k.KDelete? && st.k.name == name
  {
    if CollectorRequest(st.k).None? {
      CollectorReadsOnlyRead(st, m);
    } else {
      OnlyDeletionsDelete(st.api, CollectorRequest(st.k).value, m.fate, name);
    }
  }

  lemma CollectorDeletesDue(parse: Parser, st: State, m: Move, name: nat)
    requires Inv(parse, st) && !st.k.KSweep? && name in st.api.jobs && name !in CollectorMoves(st, m).api.jobs
    ensures Terminal(st.api.jobs[name].status.phase) && Due(st.api, st.api.jobs[name])
  {
    CollectorDeletesOne(st, m, name);
    assert Evolves(st.k.job.status, st.api.jobs[name].status);
  }

  // ---- one job at a time

  /** Every ImageList has at most one job and so has the collector, and the branch for several is never taken. */
  lemma OneJobPerOwner(parse: Parser, init: State, events: seq<Event>, owner: Owner)
    requires Initial(init)
    ensures |JobsOf(Run(parse, init, events).api, owner)| <= 1
    ensures !Run(parse, init, events).multiple
  {
    RunKeeps(parse, init, events);
    OneJobAtMost(Run(parse, init, events).api, owner);
  }

  // ---- one pod per node

  ghost predicate PlansGrow(plans: map<nat, Plan>, after: map<nat, Plan>) {
    forall n :: n in plans ==>
      && n in after && after[n].nodes == plans[n].nodes && after[n].filter == plans[n].filter
      && after[n].chosen == plans[n].chosen && plans[n].pods <= after[n].pods
  }

  lemma PlansGrowOn(a: map<nat, Plan>, b: map<nat, Plan>, c: map<nat, Plan>)
    requires PlansGrow(a, b) && PlansGrow(b, c)
    ensures PlansGrow(a, c)
  {}

  lemma ApplyGrowsPlans(parse: Parser, st: State, e: Event)
    requires Inv(parse, st)
    ensures PlansGrow(st.api.plans, Apply(parse, st, e).api.plans)
  {
    hide ApiOk;
    hide JobPcOk;
    hide ListPcOk;
    hide CollectorPcOk;
    hide JobReads;
    hide ListReads;
    hide CollectorReads;
    hide JobRequest;
    hide ListRequest;
    hide CollectorRequest;
    hide Sent;
    hide Happens;
    hide QuietForLists;
    hide QuietForCollector;
    match e {
      case JobReconciles(m) =>
        if JobRequest(st.j).None? {
          JobReadsOnlyRead(parse, st, m);
        } else {
          JobRequestGrowsPlans(parse, st.api, st.j, m.fate);
        }
      case ListReconciles(m) =>
        if ListRequest(st.l).None? {
          ListReadsOnlyRead(st, m);
        } else {
          ListRequestIsQuiet(st.api, st.l, m.fate);
        }
      case CollectorReconciles(m) =>
        if CollectorRequest(st.k).None? {
          CollectorReadsOnlyRead(st, m);
        } else {
          CollectorRequestIsQuiet(st.api, st.k, m.fate);
        }
      case Elsewhere(h) => HappensIsQuiet(parse, st.api, h);
      case Restart =>
    }
  }

  lemma NotedGrows(plans: map<nat, Plan>, name: nat, note: Note)
    requires note.Starts? ==> name !in plans
    ensures PlansGrow(plans, Noted(plans, name, note))
  {}

  lemma WithPodGrows(plans: map<nat, Plan>, name: nat, pod: nat)
    ensures PlansGrow(plans, WithPod(plans, name, pod))
  {}

  lemma JobRequestGrowsPlans(parse: Parser, api: Api, pc: JobPc, fate: Fate)
    requires ApiOk(parse, api) && JobPcOk(parse, api, pc) && JobRequest(pc).Some?
    ensures PlansGrow(api.plans, Sent(api, JobRequest(pc).value, fate).plans)
  {
    hide ApiOk;
    hide CountsFit;
    hide RunsAsPlanned;
    hide CanStart;
    hide CreatesPods;
    hide StartStatus;
    if pc.JCreatePods? {
      WithPodGrows(api.plans, pc.name, api.next);
    } else if pc.name in api.jobs && api.jobs[pc.name].version == pc.job.version {
      NewHasNoPlan(parse, api, pc.name);
      NotedGrows(api.plans, pc.name, JobRequest(pc).value.note);
    }
    NotedGrows(api.plans, 0, Stamps);
    hide Noted;
    hide WithPod;
    hide PlansGrow;
  }

  lemma NewHasNoPlan(parse: Parser, api: Api, name: nat)
    requires ApiOk(parse, api) && name in api.jobs
    ensures api.jobs[name].status.phase == New <==> name !in api.plans
  {
    assert JobsFit(api.jobs, api.plans);
  }

  lemma {:induction false} PlansOnlyGrow(parse: Parser, init: State, events: seq<Event>, more: seq<Event>)
    requires Initial(init)
    ensures PlansGrow(Run(parse, init, events).api.plans, Run(parse, init, events + more).api.plans)
  {
    if more == [] {
      assert events + more == events;
    } else {
      var n := |more| - 1;
      PlansOnlyGrow(parse, init, events, more[..n]);
      RunKeeps(parse, init, events + more[..n]);
      RunExtends(parse, init, events, more);
      var st := Run(parse, init, events + more[..n]);
      ApplyGrowsPlans(parse, st, more[n]);
      PlansGrowOn(Run(parse, init, events).api.plans, st.api.plans, Apply(parse, st, more[n]).api.plans);
    }
  }

  /** Two different pods of one job, even if they exist at different moments of the run, are for different nodes. */
  lemma OnePodPerNode(parse: Parser, init: State, events: seq<Event>, more: seq<Event>, a: nat, b: nat)
    requires Initial(init) && a != b
    requires a in Run(parse, init, events).api.pods && b in Run(parse, init, events + more).api.pods
    ensures var earlier, later := Run(parse, init, events).api.pods[a], Run(parse, init, events + more).api.pods[b];
            earlier.job == later.job ==> earlier.node != later.node
  {
    hide ApiOk;
    hide Run;
    RunKeeps(parse, init, events);
    RunKeeps(parse, init, events + more);
    PlansOnlyGrow(parse, init, events, more);
    hide PlansGrow;
    var api, after := Run(parse, init, events).api, Run(parse, init, events + more).api;
    assert ApiOk(parse, api) && ApiOk(parse, after) by {
      hide ApiOk;
    }
    hide Inv;
    if api.pods[a].job == after.pods[b].job {
      PodsOfOnePlan(parse, api, after, a, b);
    }
  }

  lemma PodsOfOnePlan(parse: Parser, api: Api, after: Api, a: nat, b: nat)
    requires ApiOk(parse, api) && ApiOk(parse, after) && PlansGrow(api.plans, after.plans)
    requires a in api.pods && b in after.pods && a != b && api.pods[a].job == after.pods[b].job
    ensures api.pods[a].node != after.pods[b].node
  {
    var job := api.pods[a].job;
    var before, plan := api.plans[job], after.plans[job];
    assert OnPlan(before, a, api.pods[a]) && OnPlan(plan, b, after.pods[b]) && PlanOk(parse, plan);
    assert before.chosen == plan.chosen && before.pods <= plan.pods;
    TwoPodsOfOnePlan(parse, before, plan, a, api.pods[a], b, after.pods[b]);
  }

  lemma TwoPodsOfOnePlan(parse: Parser, before: Plan, plan: Plan, a: nat, earlier: Pod, b: nat, later: Pod)
    requires PlanOk(parse, plan) && OnPlan(before, a, earlier) && OnPlan(plan, b, later) && a != b
    requires before.chosen == plan.chosen && before.pods <= plan.pods
    ensures earlier.node != later.node
  {
    ChoiceMeaning(parse, plan.filter, plan.nodes);
    assert DistinctNames(plan.chosen);
    var i :| 0 <= i < |before.pods| && i < |before.chosen| && before.pods[i] == a
             && before.chosen[i].name == earlier.node;
    var j :| 0 <= j < |plan.pods| && j < |plan.chosen| && plan.pods[j] == b && plan.chosen[j].name == later.node;
    assert plan.pods[i] == a;
  }

  /** Every pod runs on a node that was listed when its job started and that the filter of that moment let through. */
  lemma NoPodOnFilteredNode(parse: Parser, init: State, events: seq<Event>, id: nat)
    requires Initial(init) && id in Run(parse, init, events).api.pods
    ensures var api := Run(parse, init, events).api;
            var pod := api.pods[id];
            && pod.job in api.plans
            && exists node :: node in api.plans[pod.job].nodes && node.name == pod.node
                 && (Unmatched(parse, WithDefault(api.plans[pod.job].filter.selectors), node)
                     <==> api.plans[pod.job].filter.kind == "exclude")
  {
    RunKeeps(parse, init, events);
    var api := Run(parse, init, events).api;
    var plan := api.plans[api.pods[id].job];
    assert OnPlan(plan, id, api.pods[id]) && PlanOk(parse, plan);
    var i :| 0 <= i < |plan.pods| && i < |plan.chosen| && plan.pods[i] == id
             && plan.chosen[i].name == api.pods[id].node;
    ChoiceMeaning(parse, plan.filter, plan.nodes);
    assert plan.chosen[i] in plan.chosen;
  }

  // ---- node accounting

  /** The final status of every job. Either its template was missing and nothing was counted; or pods were listed, and
      then nodes add up exactly if as many pods were listed as nodes were chosen: which is at most what was chosen if
      only the job's own pods were listed, and equal to it if none of them was missing either. */
  lemma NodeAccounting(parse: Parser, init: State, events: seq<Event>, name: nat)
    requires Initial(init)
    requires name in Run(parse, init, events).api.jobs
    requires Terminal(Run(parse, init, events).api.jobs[name].status.phase)
    ensures var api := Run(parse, init, events).api;
            name in api.plans && Accounted(api.jobs[name].status, api.plans[name])
  {
    RunKeeps(parse, init, events);
    var api := Run(parse, init, events).api;
    EndedCountsFit(parse, api, name);
    AccountedFromCounts(parse, api.jobs[name].status, api.plans[name]);
  }

  ghost predicate Accounted(s: Status, plan: Plan) {
    var sum := s.succeeded + s.failed + s.skipped;
    match plan.tally
    case None => s.phase == Failed && s.desired == 0 && sum == 0
    case Some(t) =>
      && s.desired == |plan.nodes|
      && s.skipped + |plan.chosen| == s.desired
      && (sum <= s.desired <==> |t.pods| <= |plan.chosen|)
      && (sum == s.desired <==> |t.pods| == |plan.chosen|)
      && (t.own ==> sum <= s.desired)
      && (t.own && t.whole ==> sum == s.desired)
  }

  lemma AccountedFromCounts(parse: Parser, s: Status, plan: Plan)
    requires CountsFit(s, plan) && PlanOk(parse, plan)
    ensures Accounted(s, plan)
  {
    ChoiceMeaning(parse, plan.filter, plan.nodes);
  }

  /** The counts are those of the pods as they were listed; a pod that was still active among them was counted as
      failed, and there was one exactly if some active pod had a failed container. */
  lemma CountedPods(parse: Parser, init: State, events: seq<Event>, name: nat)
    requires Initial(init)
    requires name in Run(parse, init, events).api.jobs
    requires Terminal(Run(parse, init, events).api.jobs[name].status.phase)
    ensures var api := Run(parse, init, events).api;
            var s := api.jobs[name].status;
            name in api.plans && (api.plans[name].tally.Some? ==>
              var pods := api.plans[name].tally.value.pods;
              && s.succeeded == |PodsThat(true, pods)| && s.failed == |PodsThat(false, pods)|
              && ((exists pod :: pod in pods && Active(pod)) ==> s.failed > 0)
              && ((exists pod :: pod in pods && Active(pod)) <==>
                    exists pod :: pod in pods && Active(pod) && SomeContainerFailed(pod)))
  {
    RunKeeps(parse, init, events);
    var api := Run(parse, init, events).api;
    EndedCountsFit(parse, api, name);
    if api.plans[name].tally.Some? {
      SucceededMeaning(api.plans[name].tally.value.pods);
      ActiveAndOver(api.plans[name].tally.value.pods);
    }
  }

  lemma ActiveAndOver(pods: seq<PodStatus>)
    requires Over(pods)
    ensures (exists pod :: pod in pods && Active(pod)) ==>
              |PodsThat(false, pods)| > 0 && exists pod :: pod in pods && Active(pod) && SomeContainerFailed(pod)
  {
    hide SomeContainerFailed;
    if pod :| pod in pods && Active(pod) {
      var i :| 0 <= i < |pods| && pods[i] == pod;
      assert i in PodsThat(false, pods);
      FirstActive(pods, i);
      var k :| 0 <= k < |pods| && Active(pods[k]) && forall j :: 0 <= j < k ==> !Active(pods[j]);
      assert pods[k] in pods;
    }
  }

  /** A completed job has met the success ratio that was configured when its pods were counted. */
  lemma CompletedJobsMeetTheRatio(parse: Parser, init: State, events: seq<Event>, name: nat)
    requires Initial(init)
    requires name in Run(parse, init, events).api.jobs
    requires Run(parse, init, events).api.jobs[name].status.phase == Completed
    ensures var api := Run(parse, init, events).api;
            var s := api.jobs[name].status;
            && name in api.plans && api.plans[name].tally.Some?
            && RatioMet(s.succeeded + s.skipped, s.desired, api.plans[name].tally.value.ratio)
  {
    RunKeeps(parse, init, events);
    CompletedMeets(parse, Run(parse, init, events).api, name);
  }

  lemma CompletedMeets(parse: Parser, api: Api, name: nat)
    requires ApiOk(parse, api) && name in api.jobs && api.jobs[name].status.phase == Completed
    ensures var s := api.jobs[name].status;
            && name in api.plans && api.plans[name].tally.Some?
            && RatioMet(s.succeeded + s.skipped, s.desired, api.plans[name].tally.value.ratio)
  {
    EndedCountsFit(parse, api, name);
    CountsMeet(api.jobs[name].status, api.plans[name]);
  }

  lemma CountsMeet(s: Status, plan: Plan)
    requires CountsFit(s, plan) && s.phase == Completed
    ensures plan.tally.Some? && RatioMet(s.succeeded + s.skipped, s.desired, plan.tally.value.ratio)
  {
    CompletedMeetsRatio(s.succeeded + s.skipped, s.desired, plan.tally.value.ratio);
  }

  lemma EndedCountsFit(parse: Parser, api: Api, name: nat)
    requires ApiOk(parse, api) && name in api.jobs && Terminal(api.jobs[name].status.phase)
    ensures name in api.plans && CountsFit(api.jobs[name].status, api.plans[name]) && PlanOk(parse, api.plans[name])
  {
  }

  /** When the imagelist controller deletes a job, the ImageList it belongs to carries that job's final counts. */
  lemma ReportedBeforeDeleted(parse: Parser, init: State, events: seq<Event>, m: Move, name: nat)
    requires Initial(init)
    requires name in Run(parse, init, events).api.jobs
    requires name !in Apply(parse, Run(parse, init, events), ListReconciles(m)).api.jobs
    ensures var api := Run(parse, init, events).api;
            && Terminal(api.jobs[name].status.phase) && api.jobs[name].owner.ByList?
            && (api.list.Some? && api.list.value.uid == api.jobs[name].owner.uid ==>
                  api.list.value.counts == Some(CountsOf(api.jobs[name].status)))
  {
    RunKeeps(parse, init, events);
    ListDeletesDue(parse, Run(parse, init, events), m, name);
  }
}
