/** What the API server's contents satisfy as long as requests are justified, and how its objects may evolve. */
module ApiInvariant {
  import opened Wrappers
  import opened Images
  import opened JobStatus
  import opened NodeFilter
  import opened ApiServer
  import opened Manager

  // ---- the life of a job

  ghost predicate StatusOk(s: Status) {
    && (s.phase == New ==> s == NO_STATUS)
    && (s.deleteAfter.Some? ==> Terminal(s.phase))
  }

  /** One write: a new job starts running, a running job ends, a job that has ended gets its deletion time. */
  ghost predicate Advances(before: Status, after: Status) {
    || (before.phase == New && after.phase == Running)
    || (before.phase == Running && Terminal(after.phase))
    || (Terminal(before.phase) && before.deleteAfter.None? && after.deleteAfter.Some?
        && after == before.(deleteAfter := after.deleteAfter))
  }

  /** Any number of writes, one included or none. */
  ghost predicate Evolves(before: Status, after: Status) {
    || before == after
    || (before.phase == New && after.phase != New)
    || (before.phase == Running && Terminal(after.phase))
    || (Terminal(before.phase) && before.deleteAfter.None? && after.deleteAfter.Some?
        && after == before.(deleteAfter := after.deleteAfter))
  }

  lemma EvolvesOn(a: Status, b: Status, c: Status)
    requires Evolves(a, b) && (b == c || Advances(b, c))
    ensures Evolves(a, c)
  {}

  // ---- plans

  ghost predicate PlanOk(parse: Parser, plan: Plan) {
    && DistinctNames(plan.nodes)
    && Choice(parse, plan.filter, plan.nodes).Some?
    && plan.chosen == Choice(parse, plan.filter, plan.nodes).value.nodeList
    && |plan.pods| <= |plan.chosen|
    && NoDuplicates(plan.pods)
  }

  ghost predicate OnPlan(plan: Plan, id: nat, pod: Pod) {
    exists i :: 0 <= i < |plan.pods| && i < |plan.chosen| && plan.pods[i] == id && plan.chosen[i].name == pod.node
  }

  /** The final counts against the plan. Without a tally the template was missing, and nothing was counted. */
  ghost predicate CountsFit(s: Status, plan: Plan) {
    match plan.tally
    case None => s.desired == s.succeeded == s.skipped == s.failed == 0 && s.phase == Failed
    case Some(t) =>
      && s.desired == |plan.nodes| && s.desired > 0
      && s.skipped == StartStatus(plan).skipped
      && Over(t.pods) && s.succeeded == Succeeded(t.pods) && s.failed == |t.pods| - s.succeeded
      && (t.own ==> |t.pods| <= |plan.pods|)
      && (t.own && t.whole ==> |t.pods| == |plan.chosen|)
      && s.phase == FinalPhase(s.succeeded + s.skipped, s.desired, t.ratio)
  }

  ghost predicate StatusFits(s: Status, plan: Plan) {
    && (s.phase == Running ==> s == StartStatus(plan) && plan.tally.None?)
    && (Terminal(s.phase) ==> CountsFit(s, plan))
  }

  // ---- the invariant, in parts

  ghost predicate JobsNumbered(jobs: map<nat, Job>, born: map<nat, Owner>, next: nat) {
    && (forall n :: n in jobs ==> n in born && born[n] == jobs[n].owner && jobs[n].version < next)
    && (forall n :: n in born ==> n < next)
  }

  ghost predicate PodsNumbered(pods: map<nat, Pod>, plans: map<nat, Plan>, born: map<nat, Owner>, next: nat) {
    && (forall id :: id in pods ==> id < next)
    && (forall n :: n in plans ==> n in born)
    && (forall n, id :: n in plans && id in plans[n].pods ==> id < next)
  }

  ghost predicate ListNumbered(list: Option<ImageList>, next: nat) {
    list.Some? ==> list.value.uid < next && list.value.version < next
  }

  ghost predicate JobsFit(jobs: map<nat, Job>, plans: map<nat, Plan>) {
    forall n :: n in jobs ==>
      && StatusOk(jobs[n].status)
      && (jobs[n].status.phase == New <==> n !in plans)
      && (n in plans ==> StatusFits(jobs[n].status, plans[n]))
  }

  ghost predicate Single(jobs: map<nat, Job>) {
    forall a, b :: a in jobs && b in jobs && jobs[a].owner == jobs[b].owner ==> a == b
  }

  ghost predicate PlansOk(parse: Parser, plans: map<nat, Plan>) {
    forall n :: n in plans ==> PlanOk(parse, plans[n])
  }

  ghost predicate PodsOnPlan(pods: map<nat, Pod>, plans: map<nat, Plan>) {
    && (forall id :: id in pods ==> pods[id].job in plans && OnPlan(plans[pods[id].job], id, pods[id]))
    && (forall n, id :: n in plans && id in plans[n].pods && id in pods ==> pods[id].job == n)
  }

  /** Type labels follow from who created the job. */
  ghost predicate TemplatesLabelled(templates: map<nat, bool>, born: map<nat, Owner>) {
    forall n :: n in templates ==> n in born && templates[n] == born[n].ByList?
  }

  ghost predicate PodsLabelled(pods: map<nat, Pod>, born: map<nat, Owner>) {
    forall id :: id in pods ==> pods[id].job in born && pods[id].manual == born[pods[id].job].ByList?
  }

  ghost predicate ApiOk(parse: Parser, api: Api) {
    && JobsNumbered(api.jobs, api.born, api.next)
    && PodsNumbered(api.pods, api.plans, api.born, api.next)
    && ListNumbered(api.list, api.next)
    && JobsFit(api.jobs, api.plans)
    && Single(api.jobs)
    && PlansOk(parse, api.plans)
    && PodsOnPlan(api.pods, api.plans)
    && TemplatesLabelled(api.templates, api.born)
    && PodsLabelled(api.pods, api.born)
    && DistinctNames(api.nodes)
  }

  function Put(api: Api, name: nat, status: Status, note: Note): Api
    requires name in api.jobs
  {
    api.(jobs := api.jobs[name := Job(api.jobs[name].owner, status, api.next)],
         plans := Noted(api.plans, name, note), next := api.next + 1)
  }

  // ---- what a controller must know to send a request

  ghost predicate StatusJustified(parse: Parser, api: Api, name: nat, status: Status, note: Note)
    requires name in api.jobs
  {
    var before := api.jobs[name].status;
    StatusOk(status) &&
    match note
    case Starts(plan) =>
      && before.phase == New && PlanOk(parse, plan) && plan.pods == [] && plan.tally.None?
      && status == StartStatus(plan)
    case Ends(tally) =>
      && before.phase == Running && Terminal(status.phase)
      && (name in api.plans ==> CountsFit(status, api.plans[name].(tally := tally)))
    case Stamps =>
      && Terminal(before.phase) && before.deleteAfter.None? && status.deleteAfter.Some?
      && status == before.(deleteAfter := status.deleteAfter)
  }

  ghost predicate Justified(parse: Parser, api: Api, request: Request) {
    match request
    case PutJobStatus(name, version, status, note) =>
      name in api.jobs && api.jobs[name].version == version ==> StatusJustified(parse, api, name, status, note)
    case CreateJob(owner) => JobsOf(api, owner) == {} && (owner.ByList? ==> owner.uid < api.next)
    case CreateTemplate(name, manual) => name in api.born && manual == api.born[name].ByList?
    case CreatePod(job, manual, node) =>
      && job in api.plans && job in api.born && manual == api.born[job].ByList?
      && |api.plans[job].pods| < |api.plans[job].chosen|
      && api.plans[job].chosen[|api.plans[job].pods|].name == node
    case _ => true
  }

  // ---- one step of the server's contents

  ghost predicate JobsStep(api: Api, after: Api) {
    && (forall n :: n in api.jobs && n in after.jobs ==>
          && after.jobs[n].owner == api.jobs[n].owner
          && (after.jobs[n] == api.jobs[n]
              || (after.jobs[n].version >= api.next && Advances(api.jobs[n].status, after.jobs[n].status))))
    && (forall n :: n in after.jobs && n !in api.jobs ==> n >= api.next)
  }

  ghost predicate RestStep(api: Api, after: Api) {
    && api.next <= after.next && api.clock <= after.clock
    && (forall n :: n in api.born ==> n in after.born && after.born[n] == api.born[n])
    && (api.list.Some? && after.list.Some? && after.list.value.uid != api.list.value.uid ==>
          after.list.value.uid >= api.next)
    && (api.list.None? && after.list.Some? ==> after.list.value.uid >= api.next)
  }

  ghost predicate ApiStep(api: Api, after: Api) {
    JobsStep(api, after) && RestStep(api, after)
  }

  // ---- each request, if justified, keeps the invariant and is a step

  lemma TallyKeepsPlans(parse: Parser, plans: map<nat, Plan>, pods: map<nat, Pod>, name: nat, tally: Option<Tally>)
    requires PlansOk(parse, plans) && PodsOnPlan(pods, plans) && name in plans
    ensures var after := plans[name := plans[name].(tally := tally)]; PlansOk(parse, after) && PodsOnPlan(pods, after)
  {
    var plan := plans[name];
    var after := plan.(tally := tally);
    assert PlanOk(parse, plan) ==> PlanOk(parse, after);
    forall id, pod ensures OnPlan(plan, id, pod) ==> OnPlan(after, id, pod) {
      if OnPlan(plan, id, pod) {
        var i :| 0 <= i < |plan.pods| && i < |plan.chosen| && plan.pods[i] == id && plan.chosen[i].name == pod.node;
        assert after.pods[i] == id;
      }
    }
  }

  lemma PutIsStep(parse: Parser, api: Api, name: nat, status: Status, note: Note)
    requires ApiOk(parse, api) && name in api.jobs && StatusJustified(parse, api, name, status, note)
    ensures ApiStep(api, Put(api, name, status, note))
    ensures var after := Put(api, name, status, note);
            && JobsNumbered(after.jobs, after.born, after.next)
            && ListNumbered(after.list, after.next) && Single(after.jobs)
  {
    hide JobsFit;
    hide PlansOk;
    hide PodsOnPlan;
    hide PodsLabelled;
    hide TemplatesLabelled;
    hide DistinctNames;
    hide CountsFit;
    hide PlanOk;
    assert Advances(api.jobs[name].status, status);
    hide StatusJustified;
    hide Advances;
  }

  lemma StartFits(jobs: map<nat, Job>, plans: map<nat, Plan>, name: nat, started: Job, plan: Plan)
    requires JobsFit(jobs, plans)
    requires StatusOk(started.status) && started.status == StartStatus(plan) && plan.tally.None?
    ensures JobsFit(jobs[name := started], plans[name := plan])
  {
  }

  lemma StartPlans(parse: Parser, plans: map<nat, Plan>, pods: map<nat, Pod>, name: nat, plan: Plan)
    requires PlansOk(parse, plans) && PodsOnPlan(pods, plans)
    requires PlanOk(parse, plan) && plan.pods == [] && name !in plans
    ensures PlansOk(parse, plans[name := plan]) && PodsOnPlan(pods, plans[name := plan])
  {
  }

  lemma StartKeeps(parse: Parser, api: Api, name: nat, status: Status, plan: Plan)
    requires ApiOk(parse, api) && name in api.jobs && StatusJustified(parse, api, name, status, Starts(plan))
    ensures var after := Put(api, name, status, Starts(plan)); ApiOk(parse, after) && ApiStep(api, after)
  {
    PutIsStep(parse, api, name, status, Starts(plan));
    StartFits(api.jobs, api.plans, name, Job(api.jobs[name].owner, status, api.next), plan);
    StartPlans(parse, api.plans, api.pods, name, plan);
    assert name in api.born;
  }

  lemma EndFits(jobs: map<nat, Job>, plans: map<nat, Plan>, name: nat, ended: Job, tally: Option<Tally>)
    requires JobsFit(jobs, plans) && name in plans && StatusOk(ended.status) && Terminal(ended.status.phase)
    requires CountsFit(ended.status, plans[name].(tally := tally))
    ensures JobsFit(jobs[name := ended], plans[name := plans[name].(tally := tally)])
  {
  }

  lemma EndKeeps(parse: Parser, api: Api, name: nat, status: Status, tally: Option<Tally>)
    requires ApiOk(parse, api) && name in api.jobs && StatusJustified(parse, api, name, status, Ends(tally))
    ensures var after := Put(api, name, status, Ends(tally)); ApiOk(parse, after) && ApiStep(api, after)
  {
    PutIsStep(parse, api, name, status, Ends(tally));
    assert name in api.plans;
    EndFits(api.jobs, api.plans, name, Job(api.jobs[name].owner, status, api.next), tally);
    TallyKeepsPlans(parse, api.plans, api.pods, name, tally);
  }

  lemma StampFits(jobs: map<nat, Job>, plans: map<nat, Plan>, name: nat, stamped: Job)
    requires JobsFit(jobs, plans) && name in jobs && Terminal(jobs[name].status.phase)
    requires stamped.status == jobs[name].status.(deleteAfter := stamped.status.deleteAfter)
    ensures JobsFit(jobs[name := stamped], plans)
  {}

  lemma StampKeeps(parse: Parser, api: Api, name: nat, status: Status)
    requires ApiOk(parse, api) && name in api.jobs && StatusJustified(parse, api, name, status, Stamps)
    ensures var after := Put(api, name, status, Stamps); ApiOk(parse, after) && ApiStep(api, after)
  {
    PutIsStep(parse, api, name, status, Stamps);
    StampFits(api.jobs, api.plans, name, Job(api.jobs[name].owner, status, api.next));
  }

  lemma CreateIsSingle(api: Api, owner: Owner)
    requires Single(api.jobs) && JobsOf(api, owner) == {}
    ensures Single(Effect(api, CreateJob(owner)).value.jobs)
  {
    forall a | a in api.jobs ensures api.jobs[a].owner != owner {
      assert a !in JobsOf(api, owner);
    }
  }

  lemma CreateFits(jobs: map<nat, Job>, plans: map<nat, Plan>, name: nat, job: Job)
    requires JobsFit(jobs, plans) && name !in plans && job.status == NO_STATUS
    ensures JobsFit(jobs[name := job], plans)
  {
  }

  lemma CreateLabels(templates: map<nat, bool>, pods: map<nat, Pod>, born: map<nat, Owner>, name: nat, owner: Owner)
    requires TemplatesLabelled(templates, born) && PodsLabelled(pods, born) && name !in born
    ensures TemplatesLabelled(templates, born[name := owner]) && PodsLabelled(pods, born[name := owner])
  {}

  lemma CreateNumbers(api: Api, owner: Owner)
    requires JobsNumbered(api.jobs, api.born, api.next) && PodsNumbered(api.pods, api.plans, api.born, api.next)
    requires ListNumbered(api.list, api.next)
    ensures var after := Effect(api, CreateJob(owner)).value;
            && JobsNumbered(after.jobs, after.born, after.next)
            && PodsNumbered(after.pods, after.plans, after.born, after.next)
            && ListNumbered(after.list, after.next) && ApiStep(api, after)
  {
  }

  lemma CreateKeeps(parse: Parser, api: Api, owner: Owner)
    requires ApiOk(parse, api) && Justified(parse, api, CreateJob(owner))
    ensures var after := Effect(api, CreateJob(owner)).value; ApiOk(parse, after) && ApiStep(api, after)
  {
    CreateIsSingle(api, owner);
    assert api.next !in api.born && api.next !in api.plans;
    CreateFits(api.jobs, api.plans, api.next, Job(owner, NO_STATUS, api.next));
    CreateLabels(api.templates, api.pods, api.born, api.next, owner);
    CreateNumbers(api, owner);
  }

  lemma DeleteKeeps(parse: Parser, api: Api, name: nat)
    requires ApiOk(parse, api)
    ensures var after := api.(jobs := api.jobs - {name}); ApiOk(parse, after) && ApiStep(api, after)
  {
  }

  lemma TemplateKeeps(parse: Parser, api: Api, name: nat, manual: bool)
    requires ApiOk(parse, api) && Justified(parse, api, CreateTemplate(name, manual))
    ensures var after := api.(templates := api.templates[name := manual]); ApiOk(parse, after) && ApiStep(api, after)
  {
  }

  lemma TemplateGoes(parse: Parser, api: Api, name: nat)
    requires ApiOk(parse, api)
    ensures var after := api.(templates := api.templates - {name}); ApiOk(parse, after) && ApiStep(api, after)
  {
  }

  /** A pod for the next node of its plan. */
  lemma PodKeepsPlan(parse: Parser, plan: Plan, pod: Pod, id: nat)
    requires PlanOk(parse, plan) && id !in plan.pods
    requires |plan.pods| < |plan.chosen| && plan.chosen[|plan.pods|].name == pod.node
    ensures var after := plan.(pods := plan.pods + [id]); PlanOk(parse, after) && OnPlan(after, id, pod)
    ensures forall other, p :: OnPlan(plan, other, p) ==> OnPlan(plan.(pods := plan.pods + [id]), other, p)
  {
    var after := plan.(pods := plan.pods + [id]);
    assert after.pods[|plan.pods|] == id;
    forall other, p ensures OnPlan(plan, other, p) ==> OnPlan(after, other, p) {
      if OnPlan(plan, other, p) {
        var i :| 0 <= i < |plan.pods| && i < |plan.chosen| && plan.pods[i] == other && plan.chosen[i].name == p.node;
        assert after.pods[i] == other;
      }
    }
  }

  lemma PodKeepsPlans(parse: Parser, plans: map<nat, Plan>, pods: map<nat, Pod>, job: nat, pod: Pod, id: nat)
    requires PlansOk(parse, plans) && PodsOnPlan(pods, plans) && job in plans && pod.job == job
    requires id !in pods && forall n :: n in plans ==> id !in plans[n].pods
    requires |plans[job].pods| < |plans[job].chosen| && plans[job].chosen[|plans[job].pods|].name == pod.node
    ensures PlansOk(parse, WithPod(plans, job, id)) && PodsOnPlan(pods[id := pod], WithPod(plans, job, id))
  {
    hide PlanOk;
    hide OnPlan;
    PodKeepsPlan(parse, plans[job], pod, id);
  }

  lemma PodFits(jobs: map<nat, Job>, plans: map<nat, Plan>, job: nat, id: nat)
    requires JobsFit(jobs, plans)
    ensures JobsFit(jobs, WithPod(plans, job, id))
  {
    forall n | n in jobs && n in plans ensures StatusFits(jobs[n].status, WithPod(plans, job, id)[n]) {
      assert StatusFits(jobs[n].status, plans[n]);
    }
  }

  lemma PodNumbers(api: Api, r: Request)
    requires r.CreatePod? && JobsNumbered(api.jobs, api.born, api.next) && ListNumbered(api.list, api.next)
    requires PodsNumbered(api.pods, api.plans, api.born, api.next)
    ensures var after := Effect(api, r).value;
            && JobsNumbered(after.jobs, after.born, after.next) && ListNumbered(after.list, after.next)
            && PodsNumbered(after.pods, after.plans, after.born, after.next) && ApiStep(api, after)
  {
  }

  lemma PodLabels(pods: map<nat, Pod>, born: map<nat, Owner>, id: nat, pod: Pod)
    requires PodsLabelled(pods, born) && pod.job in born && pod.manual == born[pod.job].ByList?
    ensures PodsLabelled(pods[id := pod], born)
  {}

  lemma NextIsNew(parse: Parser, api: Api)
    requires ApiOk(parse, api)
    ensures api.next !in api.pods && forall n :: n in api.plans ==> api.next !in api.plans[n].pods
  {
  }

  lemma PodKeeps(parse: Parser, api: Api, job: nat, manual: bool, node: string)
    requires ApiOk(parse, api) && Justified(parse, api, CreatePod(job, manual, node))
    ensures var after := Effect(api, CreatePod(job, manual, node)).value; ApiOk(parse, after) && ApiStep(api, after)
  {
    var pod := Pod(job, manual, node, PodStatus(PodPending, []));
    NextIsNew(parse, api);
    PodKeepsPlans(parse, api.plans, api.pods, job, pod, api.next);
    PodFits(api.jobs, api.plans, job, api.next);
    PodLabels(api.pods, api.born, api.next, pod);
    PodNumbers(api, CreatePod(job, manual, node));
  }

  /** Every justified request, whatever becomes of it and of its reply. */
  lemma SentKeeps(parse: Parser, api: Api, r: Request, fate: Fate)
    requires ApiOk(parse, api) && Justified(parse, api, r)
    ensures ApiOk(parse, Sent(api, r, fate)) && ApiStep(api, Sent(api, r, fate))
  {
    hide ApiStep;
    hide StatusJustified;
    hide ApiOk;
    match r {
      case PutJobStatus(name, version, status, note) =>
        if Effect(api, r).Some? {
          match note {
            case Starts(plan) => StartKeeps(parse, api, name, status, plan);
            case Ends(tally) => EndKeeps(parse, api, name, status, tally);
            case Stamps => StampKeeps(parse, api, name, status);
          }
        }
      case CreateJob(owner) => CreateKeeps(parse, api, owner);
      case DeleteJob(name) => DeleteKeeps(parse, api, name);
      case CreateTemplate(name, manual) => TemplateKeeps(parse, api, name, manual);
      case DeleteTemplate(name) => TemplateGoes(parse, api, name);
      case CreatePod(job, manual, node) => PodKeeps(parse, api, job, manual, node);
      case PutCounts(_, _, _) => CountsKeep(parse, api, r);
    }
    StepToSelf(api);
  }

  lemma StepToSelf(api: Api)
    ensures ApiStep(api, api)
  {}

  lemma CountsKeep(parse: Parser, api: Api, r: Request)
    requires ApiOk(parse, api) && r.PutCounts?
    ensures var after := Sent(api, r, Done); ApiOk(parse, after) && ApiStep(api, after)
  {
    hide PlansOk;
    hide PodsOnPlan;
    hide DistinctNames;
    hide JobsFit;
  }

  // ---- and so does whatever else happens in the cluster

  lemma PodVanishesKeeps(parse: Parser, api: Api, pod: nat)
    requires ApiOk(parse, api)
    ensures ApiOk(parse, api.(pods := api.pods - {pod})) && ApiStep(api, api.(pods := api.pods - {pod}))
  {
  }

  lemma ChangedPodOnPlan(pods: map<nat, Pod>, plans: map<nat, Plan>, id: nat, status: PodStatus)
    requires PodsOnPlan(pods, plans) && id in pods
    ensures PodsOnPlan(pods[id := pods[id].(status := status)], plans)
  {
    forall plan: Plan ensures OnPlan(plan, id, pods[id]) ==> OnPlan(plan, id, pods[id].(status := status)) {
      if OnPlan(plan, id, pods[id]) {
        var i :| 0 <= i < |plan.pods| && i < |plan.chosen| && plan.pods[i] == id
                 && plan.chosen[i].name == pods[id].node;
        assert plan.pods[i] == id;
      }
    }
  }

  lemma PodChangesKeeps(parse: Parser, api: Api, pod: nat, status: PodStatus)
    requires ApiOk(parse, api) && pod in api.pods
    ensures var after := api.(pods := api.pods[pod := api.pods[pod].(status := status)]);
            ApiOk(parse, after) && ApiStep(api, after)
  {
    StepIfOnlyPodsChange(api, api.pods[pod := api.pods[pod].(status := status)]);
    ChangedPodOnPlan(api.pods, api.plans, pod, status);
  }

  lemma StepIfOnlyPodsChange(api: Api, pods: map<nat, Pod>)
    ensures ApiStep(api, api.(pods := pods))
  {}

  lemma ListChangesKeep(parse: Parser, api: Api, h: Happening)
    requires ApiOk(parse, api) && (h.ListCreated? || h.ListEdited? || h.ListDeleted?)
    ensures ApiOk(parse, Happens(api, h)) && ApiStep(api, Happens(api, h))
  {
    hide PlansOk;
    hide PodsOnPlan;
    hide PodsLabelled;
    hide TemplatesLabelled;
    hide Single;
    hide DistinctNames;
    hide JobsFit;
    hide Advances;
  }

  lemma NodesOrClockKeep(parse: Parser, api: Api, h: Happening)
    requires ApiOk(parse, api) && (h.TimePasses? || h.NodesChange?)
    ensures ApiOk(parse, Happens(api, h)) && ApiStep(api, Happens(api, h))
  {
    hide PlansOk;
    hide PodsOnPlan;
    hide DistinctNames;
    hide JobsFit;
    hide Advances;
  }

  lemma HappensKeeps(parse: Parser, api: Api, h: Happening)
    requires ApiOk(parse, api)
    ensures ApiOk(parse, Happens(api, h)) && ApiStep(api, Happens(api, h))
  {
    hide ApiOk;
    hide ApiStep;
    StepToSelf(api);
    match h {
      case PodChanges(pod, status) => if pod in api.pods { PodChangesKeeps(parse, api, pod, status); }
      case PodVanishes(pod) => PodVanishesKeeps(parse, api, pod);
      case TemplateVanishes(name) => TemplateGoes(parse, api, name);
      case JobCollected(name) => DeleteKeeps(parse, api, name);
      case TimePasses(_) => NodesOrClockKeep(parse, api, h);
      case NodesChange(_) => NodesOrClockKeep(parse, api, h);
      case _ => ListChangesKeep(parse, api, h);
    }
  }
}
