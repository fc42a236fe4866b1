/** A run in which the counts of a job exceed its nodes: pods are listed by type, and a job that the restarted manager
    swept away has left its pod behind. */
module ForeignPods {
  import opened Wrappers
  import opened JobStatus
  import opened NodeFilter
  import opened ApiServer
  import opened Manager

  /** One node, and no selector matches it. */
  ghost predicate OneNode(parse: Parser, st: State, node: Node) {
    && st.api.nodes == [node]
    && parse(DEFAULT_FILTER_LABEL).Some? && !parse(DEFAULT_FILTER_LABEL).value(node.labels)
  }

  const NO_SELECTORS := Filter("exclude", [])

  function Go(name: nat, first: bool, listing: seq<nat>): Move {
    Move(name, first, Done, listing, NO_SELECTORS, 1.0, 0, 0)
  }

  lemma OneMore(parse: Parser, init: State, events: seq<Event>, st: State, e: Event)
    returns (more: seq<Event>, after: State)
    requires Run(parse, init, events) == st
    ensures Run(parse, init, more) == after == Apply(parse, st, e)
  {
    more, after := events + [e], Apply(parse, st, e);
    assert more[..|more| - 1] == events;
  }

  lemma NodeIsChosen(parse: Parser, st: State, node: Node)
    requires OneNode(parse, st, node)
    ensures Choice(parse, NO_SELECTORS, [node]) == Some(Selection([node], 0))
  {
    var selectors := WithDefault([]);
    assert selectors == [DEFAULT_FILTER_LABEL];
    VerdictMeaning(parse, selectors, node);
    assert Unmatched(parse, selectors, node);
    assert [node][..0] == [] && [] + [node] == [node];
    assert Pick(parse, selectors, [node], NoMatch) == [node] && Pick(parse, selectors, [node], Matches) == [];
    assert "exclude"[0] != "include"[0];
  }

  /** The first reconcile, once it has swept: it creates a job and its template. */
  lemma CollectorCreates(parse: Parser, init: State, events: seq<Event>, st: State)
    returns (more: seq<Event>, after: State)
    requires Run(parse, init, events) == st && st.k == KPrepare(true) && st.api.next !in st.api.templates
    ensures Run(parse, init, more) == after
    ensures var n := st.api.next;
            after == st.(k := KIdle, firstDue := false,
                         api := st.api.(jobs := st.api.jobs[n := Job(ByCollector, NO_STATUS, n)],
                                        born := st.api.born[n := ByCollector],
                                        templates := st.api.templates[n := false], next := n + 1))
  {
    hide Run;
    hide JobMoves;
    hide ListMoves;
    hide CollectorFindsJobs;
    var e := CollectorReconciles(Go(0, true, []));
    more, after := OneMore(parse, init, events, st, e);
    more, after := OneMore(parse, init, more, after, e);
    more, after := OneMore(parse, init, more, after, e);
    more, after := OneMore(parse, init, more, after, e);
  }

  lemma JobIsPlanned(parse: Parser, init: State, events: seq<Event>, st: State, node: Node, n: nat)
    returns (more: seq<Event>, after: State)
    requires Run(parse, init, events) == st && st.j == JIdle && OneNode(parse, st, node)
    requires n in st.api.jobs && st.api.jobs[n].status.phase == New
    requires n in st.api.templates && !st.api.templates[n]
    ensures Run(parse, init, more) == after
    ensures after == st.(j := JStart(n, st.api.jobs[n], Plan([node], NO_SELECTORS, [node], [], None), false))
  {
    NodeIsChosen(parse, st, node);
    var e := JobReconciles(Go(n, false, []));
    more, after := OneMore(parse, init, events, st, e);
    more, after := OneMore(parse, init, more, after, e);
    more, after := OneMore(parse, init, more, after, e);
  }

  /** A new job starts, with a pod for the only node. */
  lemma JobStarts(parse: Parser, init: State, events: seq<Event>, st: State, node: Node, n: nat)
    returns (more: seq<Event>, after: State)
    requires Run(parse, init, events) == st && st.j == JIdle && OneNode(parse, st, node)
    requires n in st.api.jobs && st.api.jobs[n].status.phase == New
    requires n in st.api.templates && !st.api.templates[n]
    ensures Run(parse, init, more) == after && after == st.(api := after.api)
    ensures after.api == st.api.(jobs := after.api.jobs, plans := after.api.plans, pods := after.api.pods,
                                 next := after.api.next)
    ensures var status := Status(1, 0, 0, 0, Running, None);
            after.api.jobs == st.api.jobs[n := Job(st.api.jobs[n].owner, status, st.api.next)]
    ensures after.api.pods ==
            st.api.pods[st.api.next + 1 := Pod(n, false, node.name, PodStatus(PodPending, []))]
    ensures after.api.next == st.api.next + 2
  {
    hide Run;
    hide JobReads;
    hide ListMoves;
    hide CollectorMoves;
    var e := JobReconciles(Go(n, false, []));
    more, after := JobIsPlanned(parse, init, events, st, node, n);
    more, after := OneMore(parse, init, more, after, e);
    more, after := OneMore(parse, init, more, after, e);
  }

  lemma JobIsCounted(parse: Parser, init: State, events: seq<Event>, st: State, n: nat, p: nat, q: nat)
    returns (more: seq<Event>, after: State)
    requires Run(parse, init, events) == st && p != q && n in st.api.jobs
    requires st.j == JListPods(n, st.api.jobs[n], false) && st.api.jobs[n].status == Status(1, 0, 0, 0, Running, None)
    requires PodsOfType(st.api, false) == {p, q}
    requires st.api.pods[p].status == st.api.pods[q].status == PodStatus(PodSucceeded, [])
    ensures Run(parse, init, more) == after && after.api == st.api && after.j.JFinish?
    ensures after.j.name == n && after.j.job == st.api.jobs[n] && after.j.status == Status(1, 2, 0, 0, Completed, None)
  {
    assert Enumerates([p, q], {p, q}) && p in {p, q} && q in {p, q};
    var pods := PodStatuses(st.api, [p, q]);
    assert pods == [st.api.pods[p].status, st.api.pods[q].status];
    BothSucceeded(pods);
    var m := Go(n, false, [p, q]);
    more, after := OneMore(parse, init, events, st, JobReconciles(m));
    assert after == JobListsPods(st, n, st.api.jobs[n], false, m);
  }

  /** A running job for one node ends with two pods of its type listed. */
  lemma JobEnds(parse: Parser, init: State, events: seq<Event>, st: State, n: nat, p: nat, q: nat)
    returns (more: seq<Event>, after: State)
    requires Run(parse, init, events) == st && st.j == JIdle && p != q
    requires n in st.api.jobs && st.api.jobs[n].status == Status(1, 0, 0, 0, Running, None)
    requires n in st.api.templates && !st.api.templates[n]
    requires PodsOfType(st.api, false) == {p, q}
    requires st.api.pods[p].status == st.api.pods[q].status == PodStatus(PodSucceeded, [])
    ensures Run(parse, init, more) == after && n in after.api.jobs
    ensures after.api.jobs[n].status == Status(1, 2, 0, 0, Completed, None)
  {
    hide Run;
    hide ListMoves;
    hide CollectorMoves;
    hide JobListsPods;
    hide Choice;
    var e := JobReconciles(Go(n, false, [p, q]));
    more, after := OneMore(parse, init, events, st, e);
    more, after := OneMore(parse, init, more, after, e);
    more, after := JobIsCounted(parse, init, more, after, n, p, q);
    more, after := OneMore(parse, init, more, after, e);
  }

  lemma BothSucceeded(pods: seq<PodStatus>)
    requires pods == [PodStatus(PodSucceeded, []), PodStatus(PodSucceeded, [])]
    ensures Over(pods) && Succeeded(pods) == 2
  {
    assert pods[..1] == [PodStatus(PodSucceeded, [])];
    assert pods[..1][..0] == [];
  }

  /** The manager starts, creates a job and starts a pod for it. */
  lemma FirstJob(parse: Parser, init: State, node: Node) returns (events: seq<Event>, st: State)
    requires Initial(init) && OneNode(parse, init, node)
    ensures Run(parse, init, events) == st && OneNode(parse, st, node)
    ensures st.j == JIdle && st.k == KIdle
    ensures var n := init.api.next;
            && st.api.jobs.Keys == {n} && st.api.templates == map[n := false] && st.api.next == n + 3
            && st.api.pods == map[n + 2 := Pod(n, false, node.name, PodStatus(PodPending, []))]
  {
    assert Run(parse, init, []) == init;
    assert Enumerates([], init.api.jobs.Keys);
    events, st := OneMore(parse, init, [], init, CollectorReconciles(Go(0, true, [])));
    assert st == init.(k := KPrepare(true));
    events, st := CollectorCreates(parse, init, events, st);
    events, st := JobStarts(parse, init, events, st, node, init.api.next);
  }

  /** It restarts, sweeps the job away and creates another; the pod of the first one is still there. */
  lemma SecondJob(parse: Parser, init: State, node: Node) returns (events: seq<Event>, st: State)
    requires Initial(init) && OneNode(parse, init, node)
    ensures Run(parse, init, events) == st && OneNode(parse, st, node) && st.j == JIdle
    ensures var n := init.api.next + 3;
            && n in st.api.jobs && st.api.jobs[n].status == NO_STATUS && st.api.next == n + 1
            && n in st.api.templates && !st.api.templates[n]
            && st.api.pods == map[n - 1 := Pod(n - 3, false, node.name, PodStatus(PodPending, []))]
  {
    hide Run;
    hide JobMoves;
    hide ListMoves;
    var swept := init.api.next;
    events, st := FirstJob(parse, init, node);
    events, st := OneMore(parse, init, events, st, Restart);
    assert Enumerates([swept], st.api.jobs.Keys);
    var before := st;
    events, st := OneMore(parse, init, events, st, CollectorReconciles(Go(0, true, [swept])));
    assert st == before.(k := KSweep([swept]));
    events, st := OneMore(parse, init, events, st, CollectorReconciles(Go(0, true, [])));
    assert st.k == KPrepare(true);
    events, st := CollectorCreates(parse, init, events, st);
    hide CollectorMoves;
  }

  /** One node, two succeeded pods: the second job counts the first one's. */
  lemma CountsExceedNodes(parse: Parser, init: State, node: Node) returns (events: seq<Event>, name: nat)
    requires Initial(init) && OneNode(parse, init, node)
    ensures var api := Run(parse, init, events).api;
            name in api.jobs && api.jobs[name].status == Status(1, 2, 0, 0, Completed, None)
  {
    hide Run;
    hide JobMoves;
    hide ListMoves;
    hide CollectorMoves;
    var st: State;
    var done := PodStatus(PodSucceeded, []);
    name := init.api.next + 3;
    var p, q := name - 1, name + 2;
    events, st := SecondJob(parse, init, node);
    events, st := JobStarts(parse, init, events, st, node, name);
    events, st := OneMore(parse, init, events, st, Elsewhere(PodChanges(p, done)));
    events, st := OneMore(parse, init, events, st, Elsewhere(PodChanges(q, done)));
    assert PodsOfType(st.api, false) == {p, q};
    events, st := JobEnds(parse, init, events, st, name, p, q);
  }
}
