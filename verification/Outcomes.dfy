/** What a reconcile achieves: left alone and with every call answered, exactly its purpose; and whatever others do
    meanwhile, a pod for every chosen node. */
module Outcomes {
  import opened Wrappers
  import opened JobStatus
  import opened NodeFilter
  import opened ApiServer
  import opened Manager
  import opened ApiInvariant
  import opened ManagerInvariant
  import opened Execution

  // ---- a reconcile left alone, every call of which is answered

  ghost predicate Answered(task: Task, st: State, m: Move) {
    Fits(m, task, Done) && Heard(task.c, st, m)
  }

  /** From the middle of a reconcile to its end. */
  ghost predicate Finishes(parse: Parser, task: Task, st: State, moves: seq<Move>, after: State)
    decreases |moves|
  {
    if moves == [] then Idle(task.c, st) && after == st
    else
      && !Idle(task.c, st) && Answered(task, st, moves[0])
      && Finishes(parse, task, Apply(parse, st, Turn(task.c, moves[0])), moves[1..], after)
  }

  ghost predicate Alone(parse: Parser, task: Task, st: State, moves: seq<Move>, after: State) {
    && moves != [] && Idle(task.c, st) && Answered(task, st, moves[0])
    && Finishes(parse, task, Apply(parse, st, Turn(task.c, moves[0])), moves[1..], after)
  }

  lemma {:induction false} FinishingReconciles(parse: Parser, task: Task, init: State, answers: seq<Fate>, st: State,
                                               moves: seq<Move>, after: State)
    requires Underway(parse, task, init, answers, st) && answers != [] && Finishes(parse, task, st, moves, after)
    ensures Reconciles(parse, task, init, answers + seq(|moves|, _ => Done), after)
    decreases |moves|
  {
    hide Underway;
    hide Apply;
    if moves == [] {
      assert answers + seq(|moves|, _ => Done) == answers;
    } else {
      OwnMove(parse, task, init, answers, st, moves[0]);
      FinishingReconciles(parse, task, init, answers + [Done], Apply(parse, st, Turn(task.c, moves[0])), moves[1..],
                          after);
      assert answers + [Done] + seq(|moves[1..]|, _ => Done) == answers + seq(|moves|, _ => Done);
    }
  }

  /** It is one of the executions that the code may take. */
  lemma AloneReconciles(parse: Parser, task: Task, st: State, moves: seq<Move>, after: State)
    requires Alone(parse, task, st, moves, after)
    ensures Reconciles(parse, task, st, seq(|moves|, _ => Done), after)
  {
    hide Underway;
    hide Apply;
    Begin(parse, task, st);
    OwnMove(parse, task, st, [], st, moves[0]);
    assert [] + [Done] == [Done];
    FinishingReconciles(parse, task, st, [Done], Apply(parse, st, Turn(task.c, moves[0])), moves[1..], after);
    assert [Done] + seq(|moves[1..]|, _ => Done) == seq(|moves|, _ => Done);
  }

  lemma FinishesOn(parse: Parser, task: Task, st: State, moves: seq<Move>, after: State) returns (next: State)
    requires Finishes(parse, task, st, moves, after) && !Idle(task.c, st)
    ensures moves != [] && Answered(task, st, moves[0]) && next == Apply(parse, st, Turn(task.c, moves[0]))
    ensures Finishes(parse, task, next, moves[1..], after)
  {
    hide Apply;
    next := Apply(parse, st, Turn(task.c, moves[0]));
  }

  lemma FinishesIdle(parse: Parser, task: Task, st: State, moves: seq<Move>, after: State)
    requires Finishes(parse, task, st, moves, after) && Idle(task.c, st)
    ensures after == st
  {
    hide Apply;
  }

  // ---- the imagelist controller alone

  function Deleted(api: Api, name: nat): Api {
    api.(jobs := api.jobs - {name}, templates := api.templates - {name})
  }

  /** A job and its template, with the next free name. */
  function Created(api: Api, owner: Owner): Api {
    api.(jobs := api.jobs[api.next := Job(owner, NO_STATUS, api.next)], born := api.born[api.next := owner],
         templates := api.templates[api.next := owner.ByList?], next := api.next + 1)
  }

  function Restamped(api: Api, name: nat, deleteAfter: int): Api
    requires name in api.jobs
  {
    var job := api.jobs[name];
    api.(jobs := api.jobs[name := Job(job.owner, job.status.(deleteAfter := Some(deleteAfter)), api.next)],
         next := api.next + 1)
  }

  /** A job that has ended is stamped, kept until its time, or deleted. */
  function Settled(api: Api, cfg: Config, name: nat): Api
    requires name in api.jobs
  {
    var status := api.jobs[name].status;
    if status.deleteAfter.None? then
      var delay := if status.phase == Completed then cfg.delayOnSuccess else cfg.delayOnFailure;
      Restamped(api, name, After(api.clock, delay))
    else if api.clock < status.deleteAfter.value then api
    else Deleted(api, name)
  }

  function WithCounts(api: Api, uid: nat, status: Status): Api {
    api.(list := Some(ImageList(uid, Some(Counts(status.succeeded, status.failed, status.skipped)), api.next)),
         next := api.next + 1)
  }

  lemma ListDropsTemplate(parse: Parser, task: Task, st: State, moves: seq<Move>, after: State)
    requires task.c == Lists && st.l.LDropTemplate? && Finishes(parse, task, st, moves, after)
    ensures after.api == st.api.(templates := st.api.templates - {st.l.name})
  {}

  lemma ListDeletes(parse: Parser, task: Task, st: State, moves: seq<Move>, after: State)
    requires task.c == Lists && st.l.LDelete? && st.l.name in st.api.jobs && Finishes(parse, task, st, moves, after)
    ensures after.api == Deleted(st.api, st.l.name)
  {
    ListDropsTemplate(parse, task, ListMoves(st, moves[0]), moves[1..], after);
  }

  lemma ListStamps(parse: Parser, task: Task, st: State, moves: seq<Move>, after: State)
    requires task.c == Lists && st.l.LStamp? && Finishes(parse, task, st, moves, after)
    requires st.l.name in st.api.jobs && st.api.jobs[st.l.name] == st.l.job
    ensures after.api == Restamped(st.api, st.l.name, st.l.deleteAfter)
  {}

  lemma ListJudges(parse: Parser, task: Task, st: State, moves: seq<Move>, after: State)
    requires task.c == Lists && st.l.LJudge? && Finishes(parse, task, st, moves, after)
    requires st.l.name in st.api.jobs && st.api.jobs[st.l.name] == st.l.job
    ensures after.api == Settled(st.api, task.cfg, st.l.name)
  {
    hide Finishes;
    var next := FinishesOn(parse, task, st, moves, after);
    var status := st.l.job.status;
    if status.deleteAfter.None? {
      ListStamps(parse, task, next, moves[1..], after);
    } else if status.deleteAfter.value <= st.api.clock {
      ListDeletes(parse, task, next, moves[1..], after);
    } else {
      FinishesIdle(parse, task, next, moves[1..], after);
    }
  }

  lemma ListReports(parse: Parser, task: Task, st: State, moves: seq<Move>, after: State)
    requires task.c == Lists && st.l.LReport? && Finishes(parse, task, st, moves, after)
    requires st.l.name in st.api.jobs && st.api.jobs[st.l.name] == st.l.job && st.api.list == Some(st.l.list)
    ensures after.api == Settled(WithCounts(st.api, st.l.list.uid, st.l.job.status), task.cfg, st.l.name)
  {
    hide Finishes;
    var next := FinishesOn(parse, task, st, moves, after);
    ListJudges(parse, task, next, moves[1..], after);
  }

  lemma ListCreates(parse: Parser, task: Task, st: State, moves: seq<Move>, after: State)
    requires task.c == Lists && st.l.LPrepare? && Finishes(parse, task, st, moves, after)
    requires st.api.next !in st.api.templates
    ensures after.api == Created(st.api, ByList(st.l.uid))
  {
    hide Finishes;
    var create := FinishesOn(parse, task, st, moves, after);
    var managers := FinishesOn(parse, task, create, moves[1..], after);
    var template := FinishesOn(parse, task, managers, moves[1..][1..], after);
    var end := FinishesOn(parse, task, template, moves[1..][1..][1..], after);
    FinishesIdle(parse, task, end, moves[1..][1..][1..][1..], after);
  }

  lemma NextIsFree(parse: Parser, api: Api)
    requires ApiOk(parse, api)
    ensures api.next !in api.templates && api.next !in api.born && api.next !in api.jobs
  {}

  lemma OnlyChild(parse: Parser, api: Api, uid: nat)
    requires ApiOk(parse, api)
    ensures forall n :: n in JobsOf(api, ByList(uid)) ==> JobsOf(api, ByList(uid)) == {n}
  {}

  lemma ListFinds(parse: Parser, task: Task, st: State, moves: seq<Move>, after: State)
    requires task.c == Lists && ApiOk(parse, st.api) && Finishes(parse, task, st, moves, after)
    requires st.api.list.Some? && st.l == LListJobs(st.api.list.value)
    ensures var uid := st.api.list.value.uid;
            var owned := JobsOf(st.api, ByList(uid));
            && (owned == {} ==> after.api == Created(st.api, ByList(uid)))
            && forall n :: n in owned ==>
                 var status := st.api.jobs[n].status;
                 after.api == if Terminal(status.phase) then Settled(WithCounts(st.api, uid, status), task.cfg, n)
                              else st.api
  {
    hide Finishes;
    hide ApiOk;
    var uid := st.api.list.value.uid;
    var owned := JobsOf(st.api, ByList(uid));
    var next := FinishesOn(parse, task, st, moves, after);
    if owned == {} {
      assert st.api.next !in st.api.templates by { NextIsFree(parse, st.api); }
      ListCreates(parse, task, next, moves[1..], after);
    } else {
      OnlyChild(parse, st.api, uid);
      var n :| n in owned;
      assert owned == {n};
      if Terminal(st.api.jobs[n].status.phase) {
        ListReports(parse, task, next, moves[1..], after);
      } else {
        FinishesIdle(parse, task, next, moves[1..], after);
      }
    }
  }

  /** Without a list nothing happens. A list without a job gets one, with its template. A job that has not ended is left
      alone; the counts of one that has are reported, and it is stamped, kept until its time, or deleted. */
  lemma ImageListAlone(parse: Parser, task: Task, st: State, moves: seq<Move>, after: State)
    requires task.c == Lists && ApiOk(parse, st.api) && Alone(parse, task, st, moves, after)
    ensures st.api.list.None? ==> after.api == st.api
    ensures st.api.list.Some? ==>
              var uid := st.api.list.value.uid;
              var owned := JobsOf(st.api, ByList(uid));
              && (owned == {} ==> after.api == Created(st.api, ByList(uid)))
              && forall n :: n in owned ==>
                   var status := st.api.jobs[n].status;
                   after.api == if Terminal(status.phase) then Settled(WithCounts(st.api, uid, status), task.cfg, n)
                                else st.api
  {
    hide Finishes;
    var next := Apply(parse, st, Turn(task.c, moves[0]));
    if st.api.list.None? {
      FinishesIdle(parse, task, next, moves[1..], after);
    } else {
      assert next == st.(l := LListJobs(st.api.list.value));
      ListFinds(parse, task, next, moves[1..], after);
    }
  }

  // ---- the imagecollector controller alone

  lemma CollectorDropsTemplate(parse: Parser, task: Task, st: State, moves: seq<Move>, after: State)
    requires task.c == Collector && st.k.KDropTemplate? && Finishes(parse, task, st, moves, after)
    ensures after.api == st.api.(templates := st.api.templates - {st.k.name})
  {}

  lemma CollectorDeletes(parse: Parser, task: Task, st: State, moves: seq<Move>, after: State)
    requires task.c == Collector && st.k.KDelete? && st.k.name in st.api.jobs
    requires Finishes(parse, task, st, moves, after)
    ensures after.api == Deleted(st.api, st.k.name)
  {
    CollectorDropsTemplate(parse, task, CollectorMoves(st, moves[0]), moves[1..], after);
  }

  lemma CollectorStamps(parse: Parser, task: Task, st: State, moves: seq<Move>, after: State)
    requires task.c == Collector && st.k.KStamp? && Finishes(parse, task, st, moves, after)
    requires st.k.name in st.api.jobs && st.api.jobs[st.k.name] == st.k.job
    ensures after.api == Restamped(st.api, st.k.name, st.k.deleteAfter)
  {}

  lemma CollectorJudges(parse: Parser, task: Task, st: State, moves: seq<Move>, after: State)
    requires task.c == Collector && st.k.KJudge? && Finishes(parse, task, st, moves, after)
    requires st.k.name in st.api.jobs && st.api.jobs[st.k.name] == st.k.job
    ensures after.api == Settled(st.api, task.cfg, st.k.name)
  {
    hide Finishes;
    var next := FinishesOn(parse, task, st, moves, after);
    var status := st.k.job.status;
    if status.deleteAfter.None? {
      CollectorStamps(parse, task, next, moves[1..], after);
    } else if status.deleteAfter.value <= st.api.clock {
      CollectorDeletes(parse, task, next, moves[1..], after);
    } else {
      FinishesIdle(parse, task, next, moves[1..], after);
    }
  }

  lemma CollectorCreates(parse: Parser, task: Task, st: State, moves: seq<Move>, after: State)
    requires task.c == Collector && st.k.KPrepare? && Finishes(parse, task, st, moves, after)
    requires st.api.next !in st.api.templates
    ensures after.api == Created(st.api, ByCollector)
    ensures after.firstDue == (st.firstDue && !st.k.first)
  {
    hide Finishes;
    var create := FinishesOn(parse, task, st, moves, after);
    var managers := FinishesOn(parse, task, create, moves[1..], after);
    var template := FinishesOn(parse, task, managers, moves[1..][1..], after);
    var end := FinishesOn(parse, task, template, moves[1..][1..][1..], after);
    FinishesIdle(parse, task, end, moves[1..][1..][1..][1..], after);
  }

  /** The first reconcile deletes every job it has listed. */
  lemma {:induction false} CollectorSweeps(parse: Parser, task: Task, st: State, moves: seq<Move>, after: State,
                                           rest: seq<nat>)
    requires task.c == Collector && st.k == NextToSweep(rest) && Finishes(parse, task, st, moves, after)
    requires Enumerates(rest, st.api.jobs.Keys) && st.api.next !in st.api.templates
    ensures after.api == Created(st.api.(jobs := map[]), ByCollector) && !after.firstDue
    decreases |rest|
  {
    hide Finishes;
    if rest == [] {
      assert st.api.jobs == map[];
      CollectorCreates(parse, task, st, moves, after);
    } else {
      assert rest[0] in st.api.jobs.Keys;
      var next := FinishesOn(parse, task, st, moves, after);
      assert Enumerates(rest[1..], next.api.jobs.Keys);
      CollectorSweeps(parse, task, next, moves[1..], after, rest[1..]);
    }
  }

  /** The first reconcile after a start leaves one new job for the collector and no other. Later ones create a job if
      there is none, and stamp, keep or delete a single one that has ended; otherwise they change nothing. */
  lemma CollectorAlone(parse: Parser, task: Task, st: State, moves: seq<Move>, after: State)
    requires task.c == Collector && ApiOk(parse, st.api) && Alone(parse, task, st, moves, after)
    ensures task.first && st.firstDue ==>
              after.api == Created(st.api.(jobs := map[]), ByCollector) && !after.firstDue
    ensures task.first && !st.firstDue ==> after.api == st.api
    ensures !task.first && st.api.jobs == map[] ==> after.api == Created(st.api, ByCollector)
    ensures !task.first ==> forall n :: st.api.jobs.Keys == {n} ==>
              after.api == if Terminal(st.api.jobs[n].status.phase) then Settled(st.api, task.cfg, n) else st.api
    ensures !task.first && |st.api.jobs.Keys| > 1 ==> after.api == st.api
  {
    hide Finishes;
    var next := Apply(parse, st, Turn(task.c, moves[0]));
    NextIsFree(parse, st.api);
    hide ApiOk;
    assert next == CollectorFindsJobs(st, moves[0]);
    if task.first && st.firstDue {
      CollectorSweeps(parse, task, next, moves[1..], after, moves[0].listing);
    } else if !task.first && st.api.jobs == map[] {
      CollectorCreates(parse, task, next, moves[1..], after);
    } else if next.k.KJudge? {
      CollectorJudges(parse, task, next, moves[1..], after);
    } else {
      FinishesIdle(parse, task, next, moves[1..], after);
    }
  }

  // ---- the imagejob controller alone

  /** A pod for each of the nodes, in order. */
  function WithPods(api: Api, name: nat, manual: bool, nodes: seq<Node>): Api
    decreases |nodes|
  {
    if nodes == [] then api
    else WithPods(Effect(api, CreatePod(name, manual, nodes[0].name)).value, name, manual, nodes[1..])
  }

  ghost predicate HasPod(api: Api, id: nat, name: nat, manual: bool, node: Node) {
    id in api.pods && api.pods[id] == Pod(name, manual, node.name, PodStatus(PodPending, []))
  }

  /** One new pod for each node, pending on it; nothing else on the server changes. */
  lemma {:induction false} WithPodsMeaning(api: Api, name: nat, manual: bool, nodes: seq<Node>)
    requires forall id :: id in api.pods ==> id < api.next
    ensures var after := WithPods(api, name, manual, nodes);
            && after == api.(pods := after.pods, plans := after.plans, next := api.next + |nodes|)
            && (forall i :: 0 <= i < |nodes| ==> HasPod(after, api.next + i, name, manual, nodes[i]))
            && (forall id :: id in after.pods && id < api.next ==> id in api.pods && after.pods[id] == api.pods[id])
            && (forall id :: id in api.pods ==> id in after.pods)
            && (forall id :: id in after.pods ==> id < after.next)
    decreases |nodes|
  {
    if nodes != [] {
      var first := Effect(api, CreatePod(name, manual, nodes[0].name)).value;
      WithPodsMeaning(first, name, manual, nodes[1..]);
      var after := WithPods(api, name, manual, nodes);
      forall i | 0 <= i < |nodes| ensures HasPod(after, api.next + i, name, manual, nodes[i]) {
        if i == 0 {
          assert HasPod(first, api.next, name, manual, nodes[0]);
        } else {
          assert nodes[1..][i - 1] == nodes[i] && HasPod(after, first.next + (i - 1), name, manual, nodes[1..][i - 1]);
        }
      }
    }
  }

  lemma {:induction false} JobCreatesPods(parse: Parser, task: Task, st: State, moves: seq<Move>, after: State,
                                          name: nat, manual: bool, chosen: seq<Node>, i: nat)
    requires task.c == Jobs && i <= |chosen| && st.j == NextPod(name, manual, chosen, i)
    requires Finishes(parse, task, st, moves, after)
    ensures after.api == WithPods(st.api, name, manual, chosen[i..])
    decreases |chosen| - i
  {
    hide Finishes;
    if i == |chosen| {
      FinishesIdle(parse, task, st, moves, after);
    } else {
      var next := FinishesOn(parse, task, st, moves, after);
      assert chosen[i..][1..] == chosen[i + 1..];
      JobCreatesPods(parse, task, next, moves[1..], after, name, manual, chosen, i + 1);
    }
  }

  lemma JobStarts(parse: Parser, task: Task, st: State, moves: seq<Move>, after: State)
    requires task.c == Jobs && st.j.JStart? && Finishes(parse, task, st, moves, after)
    requires st.j.name in st.api.jobs && st.api.jobs[st.j.name] == st.j.job
    ensures var started := Put(st.api, st.j.name, StartStatus(st.j.plan), Starts(st.j.plan));
            after.api == WithPods(started, st.j.name, st.j.manual, st.j.plan.chosen)
  {
    hide Finishes;
    hide StartStatus;
    var next := FinishesOn(parse, task, st, moves, after);
    var chosen := st.j.plan.chosen;
    JobCreatesPods(parse, task, next, moves[1..], after, st.j.name, st.j.manual, chosen, 0);
    assert chosen[0..] == chosen;
  }

  /** A new job with a template and a choice of nodes. */
  ghost predicate StartsOn(parse: Parser, api: Api, cfg: Config, name: nat, after: Api)
    requires name in api.jobs && name in api.templates && Choice(parse, cfg.filter, api.nodes).Some?
  {
    var choice := Choice(parse, cfg.filter, api.nodes).value;
    var plan := Plan(api.nodes, cfg.filter, choice.nodeList, [], None);
    var status := Status(|api.nodes|, 0, choice.skipped, 0, Running, None);
    after == WithPods(Put(api, name, status, Starts(plan)), name, api.templates[name], choice.nodeList)
  }

  lemma NewJobAlone(parse: Parser, task: Task, st: State, moves: seq<Move>, after: State)
    requires task.c == Jobs && Finishes(parse, task, st, moves, after)
    requires task.name in st.api.jobs && st.j == JListNodes(task.name, st.api.jobs[task.name])
    ensures var choice := Choice(parse, task.cfg.filter, st.api.nodes);
            if task.name in st.api.templates && choice.Some? then
              StartsOn(parse, st.api, task.cfg, task.name, after.api)
            else after.api == st.api
  {
    hide Finishes;
    hide Choice;
    var listed := FinishesOn(parse, task, st, moves, after);
    assert listed == st.(j := JNewTemplate(task.name, st.api.jobs[task.name], st.api.nodes));
    var next := FinishesOn(parse, task, listed, moves[1..], after);
    var choice := Choice(parse, task.cfg.filter, st.api.nodes);
    if task.name in st.api.templates && choice.Some? {
      JobStarts(parse, task, next, moves[1..][1..], after);
      ChoiceMeaning(parse, task.cfg.filter, st.api.nodes);
    } else {
      FinishesIdle(parse, task, next, moves[1..][1..], after);
    }
  }

  lemma JobEnds(parse: Parser, task: Task, st: State, moves: seq<Move>, after: State)
    requires task.c == Jobs && st.j.JFinish? && Finishes(parse, task, st, moves, after)
    requires st.j.name in st.api.jobs && st.api.jobs[st.j.name] == st.j.job
    ensures after.api == Put(st.api, st.j.name, st.j.status, Ends(st.j.tally))
  {}

  /** A running job: failed and stamped if its template is gone; as it was while its pods are not over; otherwise ended
      with its final status, or a panic if it wanted no nodes. The pods are listed in some order. */
  ghost predicate RunsTo(api: Api, cfg: Config, name: nat, after: Api)
    requires name in api.jobs
  {
    var job := api.jobs[name];
    if name !in api.templates then
      after == Put(api, name, Status(0, 0, 0, 0, Failed, Some(api.clock + SECOND)), Ends(None))
    else
      exists listing :: Enumerates(listing, PodsOfType(api, api.templates[name])) &&
        var pods := PodStatuses(api, listing);
        if !Over(pods) || job.status.desired == 0 then after == api
        else
          after == Put(api, name,
                       FinalStatus(job.status, |PodsThat(true, pods)|, |PodsThat(false, pods)|, cfg.ratio),
                       Ends(Some(TallyOf(api, name, listing, pods, cfg.ratio))))
  }

  lemma RunningJobAlone(parse: Parser, task: Task, st: State, moves: seq<Move>, after: State)
    requires task.c == Jobs && Finishes(parse, task, st, moves, after)
    requires task.name in st.api.jobs && st.j == JGetTemplate(task.name, st.api.jobs[task.name])
    ensures RunsTo(st.api, task.cfg, task.name, after.api)
  {
    hide Finishes;
    hide Over;
    hide Succeeded;
    hide TallyOf;
    hide FinalStatus;
    var read := FinishesOn(parse, task, st, moves, after);
    if task.name !in st.api.templates {
      JobEnds(parse, task, read, moves[1..], after);
    } else {
      CountingAlone(parse, task, read, moves[1..], after);
    }
  }

  lemma CountingAlone(parse: Parser, task: Task, st: State, moves: seq<Move>, after: State)
    requires task.c == Jobs && Finishes(parse, task, st, moves, after)
    requires task.name in st.api.jobs && task.name in st.api.templates
    requires st.j == JListPods(task.name, st.api.jobs[task.name], st.api.templates[task.name])
    ensures RunsTo(st.api, task.cfg, task.name, after.api)
  {
    hide Finishes;
    hide Over;
    hide Succeeded;
    hide PodsThat;
    hide TallyOf;
    hide FinalStatus;
    var next := FinishesOn(parse, task, st, moves, after);
    var listing := moves[0].listing;
    var pods := PodStatuses(st.api, listing);
    SucceededMeaning(pods);
    assert next == JobCounts(st, task.name, st.j.job, pods, moves[0]);
    if !Over(pods) || st.j.job.status.desired == 0 {
      FinishesIdle(parse, task, next, moves[1..], after);
    } else {
      JobEnds(parse, task, next, moves[1..], after);
    }
  }

  /** What one reconcile of one job comes to: a new job starts with a pod on every chosen node, or waits for its
      template or a valid filter; a running one is settled as its pods stand; an ended one, and a name without a job,
      are left alone. */
  lemma ImageJobAlone(parse: Parser, task: Task, st: State, moves: seq<Move>, after: State)
    requires task.c == Jobs && Alone(parse, task, st, moves, after)
    ensures task.name !in st.api.jobs ==> after.api == st.api
    ensures task.name in st.api.jobs ==>
              match st.api.jobs[task.name].status.phase
              case New =>
                if task.name in st.api.templates && Choice(parse, task.cfg.filter, st.api.nodes).Some? then
                  StartsOn(parse, st.api, task.cfg, task.name, after.api)
                else after.api == st.api
              case Running => RunsTo(st.api, task.cfg, task.name, after.api)
              case _ => after.api == st.api
  {
    hide Finishes;
    hide Choice;
    hide StartsOn;
    hide RunsTo;
    var next := Apply(parse, st, Turn(task.c, moves[0]));
    if next.j.JListNodes? {
      NewJobAlone(parse, task, next, moves[1..], after);
    } else if next.j.JGetTemplate? {
      RunningJobAlone(parse, task, next, moves[1..], after);
    } else {
      FinishesIdle(parse, task, next, moves[1..], after);
    }
  }

  lemma StartedHasPods(parse: Parser, api: Api, cfg: Config, name: nat, after: Api)
    requires name in api.jobs && name in api.templates && Choice(parse, cfg.filter, api.nodes).Some?
    requires StartsOn(parse, api, cfg, name, after) && forall id :: id in api.pods ==> id < api.next
    ensures var choice := Choice(parse, cfg.filter, api.nodes).value;
            && name in after.jobs
            && after.jobs[name].status == Status(|api.nodes|, 0, choice.skipped, 0, Running, None)
            && (forall i :: 0 <= i < |choice.nodeList| ==>
                  HasPod(after, api.next + 1 + i, name, api.templates[name], choice.nodeList[i]))
            && (forall id :: id in after.pods ==>
                  id in api.pods || api.next + 1 <= id < api.next + 1 + |choice.nodeList|)
  {
    hide Choice;
    hide WithPods;
    hide Noted;
    var choice := Choice(parse, cfg.filter, api.nodes).value;
    var plan := Plan(api.nodes, cfg.filter, choice.nodeList, [], None);
    var started := Put(api, name, Status(|api.nodes|, 0, choice.skipped, 0, Running, None), Starts(plan));
    WithPodsMeaning(started, name, api.templates[name], choice.nodeList);
  }

  /** So a new job that finds its template and a valid filter is running after one reconcile, and that reconcile has
      created one pod for each node of the choice and no other. */
  lemma NewJobGetsPods(parse: Parser, task: Task, st: State, moves: seq<Move>, after: State)
    requires task.c == Jobs && ApiOk(parse, st.api) && Alone(parse, task, st, moves, after)
    requires task.name in st.api.jobs && st.api.jobs[task.name].status.phase == New
    requires task.name in st.api.templates && Choice(parse, task.cfg.filter, st.api.nodes).Some?
    ensures var choice := Choice(parse, task.cfg.filter, st.api.nodes).value;
            var manual := st.api.templates[task.name];
            && task.name in after.api.jobs
            && after.api.jobs[task.name].status == Status(|st.api.nodes|, 0, choice.skipped, 0, Running, None)
            && (forall i :: 0 <= i < |choice.nodeList| ==>
                  HasPod(after.api, st.api.next + 1 + i, task.name, manual, choice.nodeList[i]))
            && (forall id :: id in after.api.pods ==>
                  id in st.api.pods || st.api.next + 1 <= id < st.api.next + 1 + |choice.nodeList|)
  {
    assert PodsNumbered(st.api.pods, st.api.plans, st.api.born, st.api.next);
    hide ApiOk;
    hide Alone;
    hide Choice;
    hide StartsOn;
    ImageJobAlone(parse, task, st, moves, after);
    StartedHasPods(parse, st.api, task.cfg, task.name, after.api);
  }

  // ---- whatever others do meanwhile

  ghost predicate AllAnswered(answers: seq<Fate>) {
    forall fate :: fate in answers ==> fate == Done
  }

  /** If the job has a plan, its pods are being created, or each chosen node has had its pod. */
  ghost predicate PodsFollow(st: State, name: nat) {
    name in st.api.plans ==>
      || (st.j.JCreatePods? && st.j.name == name)
      || (st.j.JIdle? && |st.api.plans[name].pods| == |st.api.plans[name].chosen|)
  }

  lemma LastPodFollows(parse: Parser, st: State, m: Move)
    requires Inv(parse, st) && st.j.JCreatePods? && m.fate == Done
    ensures PodsFollow(JobMoves(parse, st, m), st.j.name)
  {
    hide ApiOk;
    hide ListPcOk;
    hide CollectorPcOk;
    assert CreatesPods(st.api, st.j.name, st.j.manual, st.j.chosen, st.j.i);
  }

  lemma StartFollows(parse: Parser, st: State, m: Move)
    requires Inv(parse, st) && st.j.JStart? && m.fate == Done && PodsFollow(st, st.j.name)
    ensures PodsFollow(JobMoves(parse, st, m), st.j.name)
  {
    hide ApiOk;
    hide ListPcOk;
    hide CollectorPcOk;
    hide StartStatus;
    assert st.j.plan.pods == [];
  }

  lemma JobStepFollows(parse: Parser, st: State, m: Move, name: nat)
    requires Inv(parse, st) && m.fate == Done && m.name == name && PodsFollow(st, name)
    requires if st.j.JIdle? then name !in st.api.plans else st.j.name == name
    ensures PodsFollow(JobMoves(parse, st, m), name)
    ensures var after := JobMoves(parse, st, m); after.j.JIdle? || after.j.name == name
  {
    hide ApiOk;
    if st.j.JCreatePods? {
      LastPodFollows(parse, st, m);
    } else if st.j.JStart? {
      StartFollows(parse, st, m);
    } else if !st.j.JIdle? {
      assert name !in st.api.plans;
    }
  }

  lemma OthersKeepPlans(parse: Parser, st: State, e: Event)
    requires Inv(parse, st) && !Own(Jobs, e)
    ensures Apply(parse, st, e).api.plans == st.api.plans
  {
    hide ApiOk;
    hide JobPcOk;
    hide ListPcOk;
    hide CollectorPcOk;
    match e {
      case ListReconciles(m) =>
        if ListRequest(st.l).None? {
          ListReadsOnlyRead(st, m);
        } else {
          ListRequestIsQuiet(st.api, st.l, m.fate);
        }
      case CollectorReconciles(m) =>
        if CollectorRequest(st.k).None? {
          CollectorReadsOnlyRead(st, m);
        } else {
          CollectorRequestIsQuiet(st.api, st.k, m.fate);
        }
      case Elsewhere(h) => HappensIsQuiet(parse, st.api, h);
      case Restart =>
    }
  }

  lemma {:induction false} OthersLeavePlans(parse: Parser, init: State, events: seq<Event>, others: seq<Event>)
    requires Inv(parse, init) && forall e :: e in others ==> !Own(Jobs, e)
    ensures Run(parse, init, events + others).api.plans == Run(parse, init, events).api.plans
  {
    hide Inv;
    hide Apply;
    if others == [] {
      assert events + others == events;
    } else {
      var n := |others| - 1;
      OthersLeavePlans(parse, init, events, others[..n]);
      RunFromKeeps(parse, init, events + others[..n]);
      RunOneMore(parse, init, events + others[..n], others[n]);
      assert events + others[..n] + [others[n]] == events + others;
      OthersKeepPlans(parse, Run(parse, init, events + others[..n]), others[n]);
    }
  }

  lemma FirstLegs(parse: Parser, task: Task, init: State, answers: seq<Fate>, legs: seq<Leg>)
    requires Takes(parse, task, init, answers, legs) && legs != []
    ensures var n := |legs| - 1; Takes(parse, task, init, answers[..n], legs[..n])
  {
    hide Run;
    hide Along;
    var n := |legs| - 1;
    forall i | 0 <= i < n ensures Arrives(parse, task, init, legs[..n], i) {
      assert legs[..n][..i] == legs[..i] && Arrives(parse, task, init, legs, i);
    }
  }

  lemma {:induction false} LegsFollow(parse: Parser, task: Task, init: State, answers: seq<Fate>, legs: seq<Leg>)
    requires Takes(parse, task, init, answers, legs) && AllAnswered(answers) && task.c == Jobs
    requires Inv(parse, init) && init.j.JIdle? && task.name !in init.api.plans
    ensures var st := Run(parse, init, Along(task.c, legs));
            PodsFollow(st, task.name) && (st.j.JIdle? || st.j.name == task.name)
  {
    hide Inv;
    hide Apply;
    hide Heard;
    if legs != [] {
      var n := |legs| - 1;
      var before, leg := Along(task.c, legs[..n]), legs[n];
      FirstLegs(parse, task, init, answers, legs);
      assert answers[n] in answers && forall fate :: fate in answers[..n] ==> fate in answers;
      LegsFollow(parse, task, init, answers[..n], legs[..n]);
      OthersLeavePlans(parse, init, before, leg.others);
      RunFromKeeps(parse, init, before + leg.others);
      RunOneMore(parse, init, before + leg.others, Turn(task.c, leg.move));
      assert Arrives(parse, task, init, legs, n);
      var asked, arrived := Run(parse, init, before), Run(parse, init, before + leg.others);
      OneLegFollows(parse, task, init, asked, arrived, leg.move, n);
    }
  }

  lemma OneLegFollows(parse: Parser, task: Task, init: State, asked: State, st: State, m: Move, n: nat)
    requires Inv(parse, st) && task.c == Jobs && Fits(m, task, Done)
    requires SamePlace(task.c, asked, st) && st.api.plans == asked.api.plans && (n > 0 ==> !st.j.JIdle?)
    requires n == 0 ==> asked == init && init.j.JIdle? && task.name !in init.api.plans
    requires PodsFollow(asked, task.name) && (asked.j.JIdle? || asked.j.name == task.name)
    ensures var after := Apply(parse, st, Turn(task.c, m));
            PodsFollow(after, task.name) && (after.j.JIdle? || after.j.name == task.name)
  {
    hide Inv;
    hide JobMoves;
    JobStepFollows(parse, st, m, task.name);
  }

  /** Whatever other controllers, the cluster and the clock do during the calls: if every call is answered and the job
      gets its plan in this reconcile, then when it is over each chosen node has had a pod created for it. */
  lemma EveryChosenNodeGetsAPod(parse: Parser, task: Task, init: State, answers: seq<Fate>, st: State)
    requires Reconciles(parse, task, init, answers, st) && AllAnswered(answers) && task.c == Jobs
    requires Inv(parse, init) && init.j.JIdle? && task.name !in init.api.plans && task.name in st.api.plans
    ensures |st.api.plans[task.name].pods| == |st.api.plans[task.name].chosen|
  {
    hide Inv;
    hide Apply;
    var legs, others: seq<Event> :|
      && Takes(parse, task, init, answers, legs)
      && (forall e :: e in others ==> !Own(task.c, e))
      && SamePlace(task.c, Run(parse, init, Along(task.c, legs)), st)
      && st == Run(parse, init, Along(task.c, legs) + others);
    LegsFollow(parse, task, init, answers, legs);
    OthersLeavePlans(parse, init, Along(task.c, legs), others);
  }
}
