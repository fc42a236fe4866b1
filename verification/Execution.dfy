/** What it means that code executed statement by statement follows the state machine: every call may fail, and while a
    call is under way the other two controllers, the cluster and the clock may move. */
module Execution {
  import opened Wrappers
  import opened NodeFilter
  import opened ApiServer
  import opened Manager
  import opened ManagerInvariant

  // ---- one reconcile of one controller

  datatype Controller = Jobs | Lists | Collector

  datatype Config = Config(filter: Filter, ratio: real, delayOnSuccess: int, delayOnFailure: int)

  /** What is reconciled: by which controller, which request, and with which configuration. */
  datatype Task = Task(c: Controller, name: nat, first: bool, cfg: Config)

  function Turn(c: Controller, m: Move): Event {
    match c
    case Jobs => JobReconciles(m)
    case Lists => ListReconciles(m)
    case Collector => CollectorReconciles(m)
  }

  predicate Own(c: Controller, e: Event) {
    match c
    case Jobs => e.JobReconciles?
    case Lists => e.ListReconciles?
    case Collector => e.CollectorReconciles?
  }

  predicate Idle(c: Controller, st: State) {
    match c
    case Jobs => st.j.JIdle?
    case Lists => st.l.LIdle?
    case Collector => st.k.KIdle?
  }

  /** The controller stands where it stood. */
  predicate SamePlace(c: Controller, st: State, after: State) {
    match c
    case Jobs => after.j == st.j
    case Lists => after.l == st.l
    case Collector => after.k == st.k
  }

  function Answer(ok: bool): Fate {
    if ok then Done else Dropped
  }

  function MoveFor(task: Task, fate: Fate): Move {
    Move(task.name, task.first, fate, [], task.cfg.filter, task.cfg.ratio,
         task.cfg.delayOnSuccess, task.cfg.delayOnFailure)
  }

  /** The imagejob controller is told which job to look at; the other two find out. */
  ghost predicate Fits(m: Move, task: Task, fate: Fate) {
    m == MoveFor(task, fate).(name := m.name, listing := m.listing) && (task.c == Jobs ==> m.name == task.name)
  }

  /** The controller is about to list objects. */
  predicate IsListing(c: Controller, st: State) {
    match c
    case Jobs => st.j.JListPods?
    case Lists => st.l.LListJobs?
    case Collector => st.k.KIdle?
  }

  /** If that listing is answered, the answer is what there is. */
  ghost predicate Heard(c: Controller, st: State, m: Move) {
    m.fate == Done ==>
      match c
      case Jobs => st.j.JListPods? ==> Enumerates(m.listing, PodsOfType(st.api, st.j.manual))
      case Lists =>
        st.l.LListJobs? && |JobsOf(st.api, ByList(st.l.list.uid))| == 1 ==>
          JobsOf(st.api, ByList(st.l.list.uid)) == {m.name}
      case Collector =>
        st.k.KIdle? ==>
          if m.first then Enumerates(m.listing, st.api.jobs.Keys)
          else |st.api.jobs.Keys| == 1 ==> st.api.jobs.Keys == {m.name}
  }

  // ---- a reconcile under way

  /** What others did while a call was under way, and the controller's step when it was answered. */
  datatype Leg = Leg(others: seq<Event>, move: Move)

  function Along(c: Controller, legs: seq<Leg>): seq<Event> {
    if legs == [] then []
    else
      var n := |legs| - 1;
      Along(c, legs[..n]) + legs[n].others + [Turn(c, legs[n].move)]
  }

  /** The state when answer number `i` arrives: the controller stands where it stood when it asked. */
  ghost predicate Arrives(parse: Parser, task: Task, init: State, legs: seq<Leg>, i: nat)
    requires i < |legs|
  {
    var asked := Run(parse, init, Along(task.c, legs[..i]));
    var st := Run(parse, init, Along(task.c, legs[..i]) + legs[i].others);
    SamePlace(task.c, asked, st) && Heard(task.c, st, legs[i].move) && (i > 0 ==> !Idle(task.c, st))
  }

  /** The controller took one step for each answer it got, and was busy before each but the first. */
  ghost predicate Takes(parse: Parser, task: Task, init: State, answers: seq<Fate>, legs: seq<Leg>) {
    && |legs| == |answers|
    && (forall i :: 0 <= i < |legs| ==> Fits(legs[i].move, task, answers[i]))
    && (forall i, e :: 0 <= i < |legs| && e in legs[i].others ==> !Own(task.c, e))
    && (forall i :: 0 <= i < |legs| ==> Arrives(parse, task, init, legs, i))
  }

  /** `st` is reached from `init` by such steps, with steps of others before, between and after them. */
  ghost predicate Underway(parse: Parser, task: Task, init: State, answers: seq<Fate>, st: State) {
    exists legs, others: seq<Event> ::
      && Takes(parse, task, init, answers, legs)
      && (forall e :: e in others ==> !Own(task.c, e))
      && SamePlace(task.c, Run(parse, init, Along(task.c, legs)), st)
      && st == Run(parse, init, Along(task.c, legs) + others)
  }

  /** A whole reconcile, from idle to idle. */
  ghost predicate Reconciles(parse: Parser, task: Task, init: State, answers: seq<Fate>, st: State) {
    Underway(parse, task, init, answers, st) && Idle(task.c, st) && answers != []
  }

  lemma Begin(parse: Parser, task: Task, init: State)
    ensures Underway(parse, task, init, [], init)
  {
    var legs: seq<Leg>, others: seq<Event> := [], [];
    assert Along(task.c, legs) + others == [];
    assert Takes(parse, task, init, [], legs);
  }

  lemma RunOneMore(parse: Parser, init: State, events: seq<Event>, e: Event)
    ensures Run(parse, init, events + [e]) == Apply(parse, Run(parse, init, events), e)
  {
    assert (events + [e])[..|events|] == events;
  }

  /** Somebody else moves. */
  lemma OthersMove(parse: Parser, task: Task, init: State, answers: seq<Fate>, st: State, e: Event)
    requires Underway(parse, task, init, answers, st) && !Own(task.c, e)
    requires SamePlace(task.c, st, Apply(parse, st, e))
    ensures Underway(parse, task, init, answers, Apply(parse, st, e))
  {
    hide Apply;
    hide Takes;
    hide Run;
    var legs, others: seq<Event> :|
      && Takes(parse, task, init, answers, legs)
      && (forall e :: e in others ==> !Own(task.c, e))
      && SamePlace(task.c, Run(parse, init, Along(task.c, legs)), st)
      && st == Run(parse, init, Along(task.c, legs) + others);
    RunOneMore(parse, init, Along(task.c, legs) + others, e);
    assert Along(task.c, legs) + others + [e] == Along(task.c, legs) + (others + [e]);
    assert forall x :: x in others + [e] ==> !Own(task.c, x);
  }

  lemma AlongOneMore(c: Controller, legs: seq<Leg>, leg: Leg)
    ensures Along(c, legs + [leg]) == Along(c, legs) + leg.others + [Turn(c, leg.move)]
  {
    assert (legs + [leg])[..|legs|] == legs;
  }

  /** An answer arrives, and the controller takes a step. */
  lemma OwnMove(parse: Parser, task: Task, init: State, answers: seq<Fate>, st: State, m: Move)
    requires Underway(parse, task, init, answers, st) && Fits(m, task, m.fate) && Heard(task.c, st, m)
    requires answers == [] || !Idle(task.c, st)
    ensures Underway(parse, task, init, answers + [m.fate], Apply(parse, st, Turn(task.c, m)))
  {
    var legs, others: seq<Event> :|
      && Takes(parse, task, init, answers, legs)
      && (forall e :: e in others ==> !Own(task.c, e))
      && SamePlace(task.c, Run(parse, init, Along(task.c, legs)), st)
      && st == Run(parse, init, Along(task.c, legs) + others);
    var more, after := legs + [Leg(others, m)], Apply(parse, st, Turn(task.c, m));
    RunOneMore(parse, init, Along(task.c, legs) + others, Turn(task.c, m));
    AlongOneMore(task.c, legs, Leg(others, m));
    TakesOneMore(parse, task, init, answers, legs, Leg(others, m));
    LegsMakeUnderway(parse, task, init, answers + [m.fate], more);
  }

  lemma LegsMakeUnderway(parse: Parser, task: Task, init: State, answers: seq<Fate>, legs: seq<Leg>)
    requires Takes(parse, task, init, answers, legs)
    ensures Underway(parse, task, init, answers, Run(parse, init, Along(task.c, legs)))
  {
    var none: seq<Event> := [];
    assert Along(task.c, legs) + none == Along(task.c, legs);
  }

  lemma TakesOneMore(parse: Parser, task: Task, init: State, answers: seq<Fate>, legs: seq<Leg>, leg: Leg)
    requires Takes(parse, task, init, answers, legs) && Fits(leg.move, task, leg.move.fate)
    requires forall e :: e in leg.others ==> !Own(task.c, e)
    requires var asked, st := Run(parse, init, Along(task.c, legs)), Run(parse, init, Along(task.c, legs) + leg.others);
             SamePlace(task.c, asked, st) && Heard(task.c, st, leg.move) && (answers == [] || !Idle(task.c, st))
    ensures Takes(parse, task, init, answers + [leg.move.fate], legs + [leg])
  {
    hide Run;
    hide Along;
    hide Fits;
    hide Idle;
    hide Heard;
    hide SamePlace;
    var more := legs + [leg];
    forall i | 0 <= i < |more| ensures Arrives(parse, task, init, more, i) {
      assert more[..i] == legs[..i];
      assert i == |legs| ==> legs[..i] == legs;
      assert i < |legs| ==> Arrives(parse, task, init, legs, i) && more[i] == legs[i];
    }
  }

  lemma UnderwayIsRun(parse: Parser, task: Task, init: State, answers: seq<Fate>, st: State)
    returns (events: seq<Event>)
    requires Underway(parse, task, init, answers, st)
    ensures Run(parse, init, events) == st
  {
    var legs, others: seq<Event> :|
      && Takes(parse, task, init, answers, legs)
      && (forall e :: e in others ==> !Own(task.c, e))
      && SamePlace(task.c, Run(parse, init, Along(task.c, legs)), st)
      && st == Run(parse, init, Along(task.c, legs) + others);
    events := Along(task.c, legs) + others;
  }

  lemma {:induction false} RunFromKeeps(parse: Parser, init: State, events: seq<Event>)
    requires Inv(parse, init)
    ensures Inv(parse, Run(parse, init, events))
  {
    if events != [] {
      RunFromKeeps(parse, init, events[..|events| - 1]);
      ApplyKeeps(parse, Run(parse, init, events[..|events| - 1]), events[|events| - 1]);
    }
  }

  lemma UnderwayKeeps(parse: Parser, task: Task, init: State, answers: seq<Fate>, st: State)
    requires Underway(parse, task, init, answers, st) && Inv(parse, init)
    ensures Inv(parse, st)
  {
    var events := UnderwayIsRun(parse, task, init, answers, st);
    RunFromKeeps(parse, init, events);
  }

  // ---- the server, and everybody else

  /** `st` holds the API server's contents and where the controllers stand; the code below looks only at the contents.
      `answers` is how the calls of the reconcile under way have gone so far, `pending` whether the one just sent got
      an answer. */
  class Server {
    const parse: Parser
    var st: State
    var answers: seq<Fate>
    var pending: Option<bool>

    constructor (parse: Parser, st: State)
      ensures this.parse == parse && this.st == st && answers == [] && pending == None
    {
      this.parse, this.st, answers, pending := parse, st, [], None;
    }

    /** The reconcile that began in `init` is under way, and no call is open. */
    ghost predicate At(task: Task, init: State)
      reads this
    {
      Underway(parse, task, init, answers, st) && pending.None?
    }

    /** It is over. */
    ghost predicate Reconciled(task: Task, init: State)
      reads this
    {
      Reconciles(parse, task, init, answers, st) && pending.None?
    }

    /** While a call is under way, others move. The process itself stays up, or the reconcile is not heard of again. */
    method Wait(task: Task, ghost init: State)
      requires Underway(parse, task, init, answers, st)
      modifies `st
      ensures Underway(parse, task, init, answers, st) && SamePlace(task.c, old(st), st)
    {
      hide Apply;
      hide Underway;
      var n: int := *;
      while n > 0
        invariant Underway(parse, task, init, answers, st) && SamePlace(task.c, old(st), st)
      {
        var e: Event := *;
        if !Own(task.c, e) && SamePlace(task.c, st, Apply(parse, st, e)) {
          OthersMove(parse, task, init, answers, st, e);
          st := Apply(parse, st, e);
        }
        n := n - 1;
      }
    }

    /** The answer is there, and with it the controller's next step; whether it is an error is not up to the
        controller. */
    method Step(task: Task, m: Move, ghost init: State)
      requires Underway(parse, task, init, answers, st) && Fits(m, task, m.fate) && Heard(task.c, st, m)
      requires answers == [] || !Idle(task.c, st)
      requires pending == Some(m.fate == Done)
      modifies this
      ensures Underway(parse, task, init, answers, st) && answers == old(answers) + [m.fate] && pending.None?
      ensures st == Apply(parse, old(st), Turn(task.c, m))
    {
      hide Apply;
      hide Underway;
      OwnMove(parse, task, init, answers, st, m);
      answers, pending := answers + [m.fate], None;
      st := Apply(parse, st, Turn(task.c, m));
    }

    /** A call is sent and answered, well or badly. */
    method Await(task: Task, ghost init: State) returns (ok: bool)
      requires Underway(parse, task, init, answers, st) && pending.None?
      modifies `st, `pending
      ensures Underway(parse, task, init, answers, st) && SamePlace(task.c, old(st), st) && pending == Some(ok)
    {
      Wait(task, init);
      ok := false;
      if * {
        ok := true;
      }
      pending := Some(ok);
    }

    /** A call that only reads; `asked` is the state in which the server answered it. */
    method Ask(task: Task, ghost init: State) returns (ok: bool, ghost asked: State)
      requires Underway(parse, task, init, answers, st) && pending.None?
      requires (answers == [] || !Idle(task.c, st)) && !IsListing(task.c, st)
      modifies this
      ensures Underway(parse, task, init, answers, st) && answers != [] && pending.None?
      ensures SamePlace(task.c, old(st), asked)
      ensures st == Apply(parse, asked, Turn(task.c, MoveFor(task, Answer(ok))))
    {
      ok := Await(task, init);
      asked := st;
      Step(task, MoveFor(task, Answer(ok)), init);
    }

    /** A request that changes something. It must be the one the controller is to send next; `name` is the name the
        server gives if it creates a job. */
    method Send(task: Task, request: Request, ghost init: State) returns (ok: bool, name: nat, ghost asked: State)
      requires Underway(parse, task, init, answers, st) && pending.None?
      requires !Idle(task.c, st) && IsDue(task.c, st, request)
      modifies this
      ensures Underway(parse, task, init, answers, st) && answers != [] && pending.None?
      ensures SamePlace(task.c, old(st), asked) && name == asked.api.next
      ensures var fate := answers[|answers| - 1];
              && st == Apply(parse, asked, Turn(task.c, MoveFor(task, fate)))
              && (ok <==> Succeeds(asked.api, request, fate))
    {
      hide Apply;
      hide Underway;
      ok := Await(task, init);
      asked, name := st, st.api.next;
      var fate := Answer(ok);
      if !ok {
        if * {
          fate := ReplyLost;
        }
      }
      ok := Succeeds(st.api, request, fate);
      Step(task, MoveFor(task, fate), init);
    }
  }

  predicate IsDue(c: Controller, st: State, request: Request) {
    match c
    case Jobs => JobRequest(st.j) == Some(request)
    case Lists => ListRequest(st.l) == Some(request)
    case Collector => CollectorRequest(st.k) == Some(request)
  }

  /** A listing comes in any order. */
  method Enumerate(wanted: set<nat>) returns (names: seq<nat>)
    ensures Enumerates(names, wanted)
  {
    names := [];
    var rest := wanted;
    while rest != {}
      invariant rest <= wanted && Enumerates(names, wanted - rest)
    {
      var name :| name in rest;
      rest := rest - {name};
      names := names + [name];
    }
  }

  lemma SizeOfListing(names: seq<nat>, wanted: set<nat>)
    requires Enumerates(names, wanted)
    ensures |names| == 0 ==> wanted == {}
    ensures |names| == 1 ==> wanted == {names[0]}
    ensures |names| > 1 ==> |wanted| > 1
  {
    if |names| == 1 {
      assert names == [names[0]];
      assert forall name :: name in wanted <==> name == names[0];
    }
    if |names| > 1 {
      var two := {names[0], names[1]};
      assert names[0] in wanted && names[1] in wanted;
      assert wanted == two + (wanted - two);
    }
  }
}
