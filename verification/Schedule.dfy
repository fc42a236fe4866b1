/** How far apart the collector's jobs are: the stamp on a job that has ended, its deletion, and the timer for the
    next one. Times are in nanoseconds. */
module Schedule {
  import opened Wrappers
  import opened JobStatus
  import ApiServer
  import Manager
  import NodeFilter

  /** A configuration that does not change and has no negative durations. */
  datatype Config = Config(repeatInterval: nat, delayOnSuccess: nat, delayOnFailure: nat)

  datatype Result = Fine | Error | Requeue | RequeueAfter(delay: int)

  function Delay(cfg: Config, phase: Phase): nat {
    if phase == Completed then cfg.delayOnSuccess else cfg.delayOnFailure
  }

  function Max(a: int, b: int): int {
    if a < b then b else a
  }

  /** The collector's job as the API server holds it; `there` is false once it has been deleted. */
  class ChildJob {
    var phase: Phase
    var deleteAfter: Option<int>
    var there: bool

    constructor (phase: Phase, deleteAfter: Option<int>)
      ensures this.phase == phase && this.deleteAfter == deleteAfter && there
    {
      this.phase, this.deleteAfter, there := phase, deleteAfter, true;
    }

    /** A deletion has three outcomes that matter: it worked, it did nothing, or the job is gone but an error is
        reported, because the reply got lost or the template could not be deleted. */
    method HandleJobDeletion(now: int, deleted: bool, reported: bool) returns (r: Result)
      requires there && deleteAfter.Some?
      modifies `there
      ensures now < deleteAfter.value ==> there && r == RequeueAfter(deleteAfter.value - now)
      ensures now >= deleteAfter.value ==> there == !deleted && (r == Fine <==> deleted && reported)
      ensures r.Fine? || r.Error? || r.RequeueAfter?
      ensures r.RequeueAfter? ==> r.delay > 0
      ensures now >= deleteAfter.value ==> !r.RequeueAfter?
    {
      var until := deleteAfter.value - now;
      if until > 0 {
        return RequeueAfter(until);
      }
      there := !deleted;
      r := if deleted && reported then Fine else Error;
    }

    /** `stamped`: the write of the deletion time takes effect; an error writing it is only logged. */
    method HandleCompletedImageJob(cfg: Config, now: int, stamped: bool, deleted: bool, reported: bool)
      returns (r: Result)
      requires there
      modifies `deleteAfter, `there
      ensures (Now(phase, deleteAfter, there), r) ==
              Handled(cfg, Now(phase, old(deleteAfter), true), now, stamped, deleted, reported)
    {
      r := Error;
      var timeRemaining := 0;
      if phase == Completed {
        if deleteAfter.None? {
          if stamped {
            deleteAfter := Some(now + cfg.delayOnSuccess / SECOND * SECOND);
          }
          return Fine;
        }
        timeRemaining := cfg.repeatInterval - cfg.delayOnSuccess;
        r := HandleJobDeletion(now, deleted, reported);
        if r.Error? || r.RequeueAfter? {
          return;
        }
      } else if phase == Failed {
        if deleteAfter.None? {
          if stamped {
            deleteAfter := Some(now + cfg.delayOnFailure / SECOND * SECOND);
          }
          return Fine;
        }
        timeRemaining := cfg.repeatInterval - cfg.delayOnFailure;
        r := HandleJobDeletion(now, deleted, reported);
        if r.Error? || r.RequeueAfter? {
          return;
        }
      } else {
        return Error;
      }
      r := if timeRemaining <= 0 then Requeue else RequeueAfter(timeRemaining);
    }
  }

  datatype Child = Now(phase: Phase, deleteAfter: Option<int>, there: bool)

  function Handled(cfg: Config, job: Child, now: int, stamped: bool, deleted: bool, reported: bool): (Child, Result) {
    var delay := Delay(cfg, job.phase);
    if !Terminal(job.phase) then (job, Error)
    else if job.deleteAfter.None? then
      (if stamped then job.(deleteAfter := Some(After(now, delay))) else job, Fine)
    else if now < job.deleteAfter.value then (job, RequeueAfter(job.deleteAfter.value - now))
    else if !deleted then (job, Error)
    else if !reported then (job.(there := false), Error)
    else (job.(there := false),
          if cfg.repeatInterval - delay <= 0 then Requeue else RequeueAfter(cfg.repeatInterval - delay))
  }

  /** The requeue timer and the state machine of the manager judge an ended job alike. */
  lemma SameJudgement(cfg: Config, st: Manager.State, m: Manager.Move)
    requires st.k.KJudge? && m.fate.Done? && Terminal(st.k.job.status.phase)
    requires m.delayOnSuccess == cfg.delayOnSuccess && m.delayOnFailure == cfg.delayOnFailure
    ensures var job := st.k.job.status;
            var (after, result) :=
              Handled(cfg, Now(job.phase, job.deleteAfter, true), st.api.clock, true, true, true);
            var k := Manager.CollectorReads(st, m).k;
            && (after.deleteAfter != job.deleteAfter <==> k.KStamp?)
            && (k.KStamp? ==> after.deleteAfter == Some(k.deleteAfter))
            && (k.KIdle? <==> after.there && result.RequeueAfter?)
            && (k.KDelete? <==> !after.there)
  {
  }

  // ---- runs

  /** From the stamp on a job that ended in `phase` to the creation of its successor. `lost`: the imagejob controller
      stamped the job, after failing to read its template. */
  datatype Gap = Gap(stamp: int, phase: Phase, lost: bool, created: int)

  /** A job that has not ended is `New`. `wake` is the earliest time of the next reconcile once the job is gone.
      `stamp`, `lost` and `gaps` are history. */
  datatype Timeline = Timeline(clock: int, job: Child, wake: int, stamp: int, lost: bool, gaps: seq<Gap>)

  datatype Event =
    | Pass(nanoseconds: nat)
    | End(phase: Phase)
    | LoseTemplate
    | Reconcile(stamped: bool, deleted: bool, reported: bool)

  function Reconciled(cfg: Config, t: Timeline, stamped: bool, deleted: bool, reported: bool): Timeline {
    if t.job.there then
      var (job, result) := Handled(cfg, t.job, t.clock, stamped, deleted, reported);
      t.(job := job,
         stamp := if t.job.deleteAfter.None? && job.deleteAfter.Some? then t.clock else t.stamp,
         wake := t.clock + if result.RequeueAfter? then result.delay else 0)
    else if t.clock < t.wake then t
    else
      t.(job := Now(New, None, true), lost := false,
         gaps := t.gaps + [Gap(t.stamp, t.job.phase, t.lost, t.clock)])
  }

  /** The imagejob controller, unable to read the template of a job that has not ended, fails and stamps it. If the
      template is gone and not just unreadable, the later deletion of the job will report an error too. */
  function TemplateLost(t: Timeline): Timeline {
    if t.job.there && !Terminal(t.job.phase) then
      t.(job := Now(Failed, Some(t.clock + SECOND), true), stamp := t.clock, lost := true)
    else t
  }

  function Apply(cfg: Config, t: Timeline, e: Event): Timeline {
    match e
    case Pass(nanoseconds) => t.(clock := t.clock + nanoseconds)
    case End(phase) =>
      if t.job.there && !Terminal(t.job.phase) && Terminal(phase) then t.(job := t.job.(phase := phase)) else t
    case LoseTemplate => TemplateLost(t)
    case Reconcile(stamped, deleted, reported) => Reconciled(cfg, t, stamped, deleted, reported)
  }

  /** The first job has just been created. */
  function Init(now: int): Timeline {
    Timeline(now, Now(New, None, true), now, now, false, [])
  }

  function Run(cfg: Config, t: Timeline, events: seq<Event>): Timeline {
    if events == [] then t
    else Apply(cfg, Run(cfg, t, events[..|events| - 1]), events[|events| - 1])
  }

  /** The status and the deletion time are those the imagejob controller writes in the state machine. */
  lemma SameLoss(parse: NodeFilter.Parser, st: Manager.State, m: Manager.Move, t: Timeline)
    requires st.j.JGetTemplate? && (m.fate != ApiServer.Done || st.j.name !in st.api.templates)
    requires t.clock == st.api.clock && t.job.there && !Terminal(t.job.phase)
    ensures var after := Manager.JobReads(parse, st, m).j;
            after.JFinish? && TemplateLost(t).job == Now(after.status.phase, after.status.deleteAfter, true)
  {
  }

  // ---- spacing

  /** Which runs are considered: with `errors`, a deletion may go through and yet be reported as an error; with
      `losses`, templates may be found missing or unreadable. */
  ghost predicate Allowed(events: seq<Event>, errors: bool, losses: bool) {
    forall e :: e in events ==> (e.Reconcile? && !e.reported ==> errors) && (e.LoseTemplate? ==> losses)
  }

  /** The deletion time of a job that got it at `stamp`. */
  function Deadline(stamp: int, delay: nat, lost: bool): int {
    if lost then stamp + SECOND else After(stamp, delay)
  }

  /** The earliest moment for the next job. */
  function Earliest(cfg: Config, errors: bool, stamp: int, delay: nat, lost: bool): int {
    Deadline(stamp, delay, lost) + if errors then 0 else Max(cfg.repeatInterval - delay, 0)
  }

  ghost predicate Spaced(cfg: Config, errors: bool, losses: bool, gap: Gap) {
    && gap.created >= Earliest(cfg, errors, gap.stamp, Delay(cfg, gap.phase), gap.lost)
    && Terminal(gap.phase)
    && (gap.lost ==> losses && gap.phase == Failed)
  }

  ghost predicate OnTime(cfg: Config, errors: bool, losses: bool, t: Timeline) {
    && (t.job.there && t.job.deleteAfter.Some? ==>
          Terminal(t.job.phase) && t.job.deleteAfter.value == Deadline(t.stamp, Delay(cfg, t.job.phase), t.lost))
    && (!t.job.there ==>
          Terminal(t.job.phase) && t.wake >= Earliest(cfg, errors, t.stamp, Delay(cfg, t.job.phase), t.lost))
    && (t.lost ==> losses && t.job.phase == Failed && t.job.deleteAfter.Some?)
    && (forall i :: 0 <= i < |t.gaps| ==> Spaced(cfg, errors, losses, t.gaps[i]))
  }

  lemma OnTimeStep(cfg: Config, errors: bool, losses: bool, t: Timeline, e: Event)
    requires OnTime(cfg, errors, losses, t) && Allowed([e], errors, losses)
    ensures OnTime(cfg, errors, losses, Apply(cfg, t, e))
  {
    assert e in [e];
  }

  /** Each pending time and each gap respects the earliest moment: the deletion time and, unless errors interfere, the
      rest of the interval after it. */
  lemma {:induction false} OnTimeRun(cfg: Config, errors: bool, losses: bool, now: int, events: seq<Event>)
    requires Allowed(events, errors, losses)
    ensures OnTime(cfg, errors, losses, Run(cfg, Init(now), events))
  {
    if events != [] {
      var n := |events| - 1;
      assert events[n] in events && forall e :: e in events[..n] ==> e in events;
      OnTimeRun(cfg, errors, losses, now, events[..n]);
      OnTimeStep(cfg, errors, losses, Run(cfg, Init(now), events[..n]), events[n]);
    }
  }

  lemma EarliestBounds(cfg: Config, stamp: int, delay: nat)
    ensures var earliest, intended := Earliest(cfg, false, stamp, delay, false), stamp + Max(cfg.repeatInterval, delay);
            intended - SECOND < earliest <= intended && (earliest == intended <==> delay % SECOND == 0)
  {
    assert delay == delay / SECOND * SECOND + delay % SECOND;
  }

  /** Over every run in which no error follows a deletion: each job is created later than the repeat interval and later
      than the cleanup delay, less one second, after its predecessor was stamped by this controller. After a stamp by
      the imagejob controller, one second takes the place of the cleanup delay. */
  lemma CollectorSpacing(cfg: Config, losses: bool, now: int, events: seq<Event>, i: nat)
    requires Allowed(events, false, losses) && i < |Run(cfg, Init(now), events).gaps|
    ensures var gap := Run(cfg, Init(now), events).gaps[i];
            if gap.lost then
              && losses && gap.phase == Failed
              && gap.created >= gap.stamp + SECOND + Max(cfg.repeatInterval - cfg.delayOnFailure, 0)
            else
              && gap.created > gap.stamp + cfg.repeatInterval - SECOND
              && gap.phase in {Completed, Failed}
              && (gap.phase == Completed ==> gap.created > gap.stamp + cfg.delayOnSuccess - SECOND)
              && (gap.phase == Failed ==> gap.created > gap.stamp + cfg.delayOnFailure - SECOND)
              && (Delay(cfg, gap.phase) % SECOND == 0 ==>
                    gap.created >= gap.stamp + Max(cfg.repeatInterval, Delay(cfg, gap.phase)))
  {
    OnTimeRun(cfg, false, losses, now, events);
    var gap := Run(cfg, Init(now), events).gaps[i];
    assert Spaced(cfg, false, losses, gap);
    EarliestBounds(cfg, gap.stamp, Delay(cfg, gap.phase));
  }

  // ---- the bounds are met

  lemma OneMore(cfg: Config, init: Timeline, events: seq<Event>, t: Timeline, e: Event)
    returns (more: seq<Event>, after: Timeline)
    requires Run(cfg, init, events) == t
    ensures more == events + [e] && Run(cfg, init, more) == after == Apply(cfg, t, e)
  {
    more, after := events + [e], Apply(cfg, t, e);
    assert more[..|more| - 1] == events;
  }

  /** The first job ends or loses its template, and is stamped at once. */
  lemma ToStamp(cfg: Config, now: int, phase: Phase, lost: bool) returns (events: seq<Event>, t: Timeline)
    requires Terminal(phase) && (lost ==> phase == Failed)
    ensures Allowed(events, false, lost) && Run(cfg, Init(now), events) == t
    ensures t.clock == t.stamp == now && t.lost == lost && t.gaps == []
    ensures t.job == Now(phase, Some(Deadline(now, Delay(cfg, phase), lost)), true)
  {
    var init := Init(now);
    assert Run(cfg, init, []) == init;
    hide Run;
    hide After;
    if lost {
      events, t := OneMore(cfg, init, [], init, LoseTemplate);
    } else {
      events, t := OneMore(cfg, init, [], init, End(phase));
      events, t := OneMore(cfg, init, events, t, Reconcile(true, true, true));
    }
  }

  /** It is deleted as soon as it may. */
  lemma ToDeletion(cfg: Config, now: int, phase: Phase, errors: bool, lost: bool)
    returns (events: seq<Event>, t: Timeline)
    requires Terminal(phase) && (lost ==> phase == Failed)
    ensures Allowed(events, errors, lost) && Run(cfg, Init(now), events) == t
    ensures t.clock == Deadline(now, Delay(cfg, phase), lost) && t.stamp == now && t.lost == lost && t.gaps == []
    ensures t.wake == Earliest(cfg, errors, now, Delay(cfg, phase), lost) && !t.job.there && t.job.phase == phase
  {
    hide Run;
    events, t := ToStamp(cfg, now, phase, lost);
    events, t := OneMore(cfg, Init(now), events, t, Pass(Deadline(now, Delay(cfg, phase), lost) - now));
    events, t := OneMore(cfg, Init(now), events, t, Reconcile(true, true, !errors));
  }

  /** A controller that reconciles as soon as it may creates the next job at the earliest moment, so with a fraction of
      a second in the delay the full interval is not kept. */
  lemma EarliestIsReached(cfg: Config, now: int, phase: Phase, errors: bool, lost: bool) returns (events: seq<Event>)
    requires Terminal(phase) && (lost ==> phase == Failed)
    ensures Allowed(events, errors, lost)
    ensures var delay := Delay(cfg, phase);
            Run(cfg, Init(now), events).gaps == [Gap(now, phase, lost, Earliest(cfg, errors, now, delay, lost))]
  {
    hide Run;
    hide After;
    var t: Timeline;
    events, t := ToDeletion(cfg, now, phase, errors, lost);
    events, t := OneMore(cfg, Init(now), events, t, Pass(t.wake - t.clock));
    events, t := OneMore(cfg, Init(now), events, t, Reconcile(true, true, true));
  }

  /** If a deletion goes through but is reported as an error, the retry finds no job and creates the next one at once,
      whatever the repeat interval. */
  lemma ErrorAfterDeletionSkipsTheWait(cfg: Config, now: int, phase: Phase) returns (events: seq<Event>)
    requires Terminal(phase)
    ensures Allowed(events, true, false)
    ensures var delay := if phase == Completed then cfg.delayOnSuccess else cfg.delayOnFailure;
            Run(cfg, Init(now), events).gaps == [Gap(now, phase, false, After(now, delay))]
  {
    events := EarliestIsReached(cfg, now, phase, true, false);
  }

  /** A job that loses its template gets one second instead of its cleanup delay, yet that delay is subtracted from the
      interval: with equal durations the next job starts a second after the stamp. */
  lemma LostTemplateSkipsTheDelay(cfg: Config, now: int) returns (events: seq<Event>)
    requires cfg.delayOnFailure >= cfg.repeatInterval
    ensures Allowed(events, false, true)
    ensures Run(cfg, Init(now), events).gaps == [Gap(now, Failed, true, now + SECOND)]
  {
    events := EarliestIsReached(cfg, now, Failed, false, true);
  }

  // ---- for which configurations the interval is kept

  ghost predicate KeepsInterval(cfg: Config, gap: Gap) {
    gap.created > gap.stamp + Max(cfg.repeatInterval, Delay(cfg, gap.phase)) - SECOND
  }

  ghost predicate AlwaysKeepsInterval(cfg: Config, errors: bool, losses: bool) {
    forall now, events, i | Allowed(events, errors, losses) && 0 <= i < |Run(cfg, Init(now), events).gaps| ::
      KeepsInterval(cfg, Run(cfg, Init(now), events).gaps[i])
  }

  /** Whether the earliest moment keeps the interval after a stamp of either kind. */
  predicate LongEnough(cfg: Config, errors: bool, delay: nat, lost: bool) {
    if lost then (if errors then Max(cfg.repeatInterval, delay) else delay) < 2 * SECOND
    else errors ==> WholeSeconds(delay) > cfg.repeatInterval - SECOND
  }

  lemma EarliestKeepsIff(cfg: Config, errors: bool, stamp: int, delay: nat, lost: bool)
    ensures Earliest(cfg, errors, stamp, delay, lost) > stamp + Max(cfg.repeatInterval, delay) - SECOND <==>
              LongEnough(cfg, errors, delay, lost)
  {
    EarliestBounds(cfg, stamp, delay);
  }

  /** Exactly the configurations for which the spacing holds in every run: all of them without either kind of fault;
      with errors after a deletion, those in which either cleanup delay alone is as long as the repeat interval, to the
      second; with lost templates, those with hardly any delay after a failure; with both, hardly any interval. */
  lemma AlwaysKeepsIntervalIff(cfg: Config, errors: bool, losses: bool)
    ensures AlwaysKeepsInterval(cfg, errors, losses) <==>
              && (errors ==> WholeSeconds(cfg.delayOnSuccess) > cfg.repeatInterval - SECOND)
              && (errors ==> WholeSeconds(cfg.delayOnFailure) > cfg.repeatInterval - SECOND)
              && (losses ==> cfg.delayOnFailure < 2 * SECOND)
              && (errors && losses ==> cfg.repeatInterval < 2 * SECOND)
  {
    if && LongEnough(cfg, errors, cfg.delayOnSuccess, false) && LongEnough(cfg, errors, cfg.delayOnFailure, false)
       && (losses ==> LongEnough(cfg, errors, cfg.delayOnFailure, true)) {
      forall now, events, i | Allowed(events, errors, losses) && 0 <= i < |Run(cfg, Init(now), events).gaps|
        ensures KeepsInterval(cfg, Run(cfg, Init(now), events).gaps[i])
      {
        OnTimeRun(cfg, errors, losses, now, events);
        var gap := Run(cfg, Init(now), events).gaps[i];
        assert Spaced(cfg, errors, losses, gap);
        EarliestKeepsIff(cfg, errors, gap.stamp, Delay(cfg, gap.phase), gap.lost);
      }
    }
    if AlwaysKeepsInterval(cfg, errors, losses) {
      SomeGap(cfg, errors, losses, Completed, false);
      SomeGap(cfg, errors, losses, Failed, false);
      if losses {
        SomeGap(cfg, errors, losses, Failed, true);
      }
    }
  }

  lemma SomeGap(cfg: Config, errors: bool, losses: bool, phase: Phase, lost: bool)
    requires AlwaysKeepsInterval(cfg, errors, losses) && Terminal(phase)
    requires lost ==> losses && phase == Failed
    ensures LongEnough(cfg, errors, Delay(cfg, phase), lost)
  {
    var events := EarliestIsReached(cfg, 0, phase, errors, lost);
    assert Allowed(events, errors, losses);
    assert KeepsInterval(cfg, Run(cfg, Init(0), events).gaps[0]);
    EarliestKeepsIff(cfg, errors, 0, Delay(cfg, phase), lost);
  }
}
