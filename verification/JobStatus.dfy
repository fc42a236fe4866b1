/** A job's status, and how the pods of a running job turn into its final one. */
module JobStatus {
  import opened Wrappers

  datatype Phase = New | Running | Completed | Failed

  /** `deleteAfter` is a time in nanoseconds. */
  datatype Status = Status(
    desired: nat, succeeded: nat, skipped: nat, failed: nat, phase: Phase, deleteAfter: Option<int>)

  const NO_STATUS := Status(0, 0, 0, 0, New, None)

  predicate Terminal(phase: Phase) {
    phase == Completed || phase == Failed
  }

  datatype PodPhase = PodPending | PodRunning | PodSucceeded | PodFailed | PodUnknown

  /** A pod's containers, each with its exit code once it has terminated. */
  datatype PodStatus = PodStatus(phase: PodPhase, exitCodes: seq<Option<int>>)

  // ---- times, in nanoseconds

  const SECOND := 1_000_000_000

  /** Converting a duration to seconds and to an integer truncates towards zero. */
  function WholeSeconds(duration: int): int {
    if duration >= 0 then duration / SECOND * SECOND else -(-duration / SECOND * SECOND)
  }

  function After(now: int, delay: int): int {
    now + WholeSeconds(delay)
  }

  // ---- when a job is over

  predicate Active(pod: PodStatus) {
    pod.phase == PodRunning || pod.phase == PodPending
  }

  predicate SomeContainerFailed(pod: PodStatus) {
    exists code :: code in pod.exitCodes && code.Some? && code.value != 0
  }

  method ContainersFailed(pod: PodStatus) returns (failed: bool)
    ensures failed <==> SomeContainerFailed(pod)
  {
    for i := 0 to |pod.exitCodes|
      invariant forall code :: code in pod.exitCodes[..i] && code.Some? ==> code.value == 0
    {
      if pod.exitCodes[i].Some? && pod.exitCodes[i].value != 0 {
        assert pod.exitCodes[i] in pod.exitCodes;
        return true;
      }
    }
    assert pod.exitCodes[..|pod.exitCodes|] == pod.exitCodes;
    return false;
  }

  /** Over, if no pod is active or the first active one has a failed container; later active pods are not looked at. */
  predicate Over(pods: seq<PodStatus>) {
    forall i :: 0 <= i < |pods| && Active(pods[i]) && (forall j :: 0 <= j < i ==> !Active(pods[j])) ==>
      SomeContainerFailed(pods[i])
  }

  method PodsComplete(pods: seq<PodStatus>) returns (complete: bool)
    ensures complete <==> Over(pods)
  {
    for i := 0 to |pods|
      invariant forall j :: 0 <= j < i ==> !Active(pods[j])
    {
      if pods[i].phase == PodRunning || pods[i].phase == PodPending {
        complete := ContainersFailed(pods[i]);
        return;
      }
    }
    return true;
  }

  /** What the test misses and what it must not: with all pods done the job is over, and as long as it is not, some
      pod is still active. */
  lemma OverMeaning(pods: seq<PodStatus>)
    ensures (forall pod :: pod in pods ==> !Active(pod)) ==> Over(pods)
    ensures !Over(pods) ==> exists pod :: pod in pods && Active(pod) && !SomeContainerFailed(pod)
    ensures (forall pod :: pod in pods ==> !SomeContainerFailed(pod)) ==>
              (Over(pods) <==> forall pod :: pod in pods ==> !Active(pod))
  {
    if i :| 0 <= i < |pods| && Active(pods[i]) {
      FirstActive(pods, i);
    }
  }

  /** The decision is the first active pod's, whatever the pods after it do. */
  lemma FirstActiveDecides(done: seq<PodStatus>, first: PodStatus, rest: seq<PodStatus>)
    requires Active(first) && forall pod :: pod in done ==> pod.phase in {PodSucceeded, PodFailed, PodUnknown}
    ensures Over(done + [first] + rest) <==> exists code :: Some(code) in first.exitCodes && code != 0
  {
    var pods := done + [first] + rest;
    assert forall i :: 0 <= i < |done| ==> pods[i] == done[i] && done[i] in done;
    assert pods[|done|] == first;
    if SomeContainerFailed(first) {
      var code :| code in first.exitCodes && code.Some? && code.value != 0;
      assert Some(code.value) in first.exitCodes;
    }
  }

  lemma {:induction false} FirstActive(pods: seq<PodStatus>, i: nat)
    requires i < |pods| && Active(pods[i])
    ensures exists k :: 0 <= k < |pods| && Active(pods[k]) && forall j :: 0 <= j < k ==> !Active(pods[j])
    decreases i
  {
    if k :| 0 <= k < i && Active(pods[k]) {
      FirstActive(pods, k);
    }
  }

  // ---- the final status

  function Succeeded(pods: seq<PodStatus>): (n: nat)
    ensures n <= |pods|
  {
    if pods == [] then 0
    else Succeeded(pods[..|pods| - 1]) + if pods[|pods| - 1].phase == PodSucceeded then 1 else 0
  }

  /** The positions of the pods that have succeeded, or of those that have not, active ones included. */
  function PodsThat(succeeded: bool, pods: seq<PodStatus>): set<int> {
    set i | 0 <= i < |pods| && (pods[i].phase == PodSucceeded) == succeeded
  }

  lemma OnePodMore(succeeded: bool, pods: seq<PodStatus>)
    requires pods != []
    ensures var n := |pods| - 1;
            |PodsThat(succeeded, pods)| == |PodsThat(succeeded, pods[..n])| +
              if (pods[n].phase == PodSucceeded) == succeeded then 1 else 0
  {
    var n := |pods| - 1;
    var before := pods[..n];
    assert forall i :: 0 <= i < n ==> before[i] == pods[i];
    var more := if (pods[n].phase == PodSucceeded) == succeeded then {n} else {};
    forall i ensures i in PodsThat(succeeded, pods) <==> i in PodsThat(succeeded, before) || i in more {}
    assert PodsThat(succeeded, pods) == PodsThat(succeeded, before) + more;
  }

  /** Exactly the pods whose phase is succeeded count as succeeded, and every other pod is left to count as failed. */
  lemma {:induction false} SucceededMeaning(pods: seq<PodStatus>)
    ensures Succeeded(pods) == |PodsThat(true, pods)|
    ensures |pods| - Succeeded(pods) == |PodsThat(false, pods)|
  {
    if pods == [] {
      assert PodsThat(true, pods) == {} && PodsThat(false, pods) == {};
    } else {
      hide PodsThat;
      SucceededMeaning(pods[..|pods| - 1]);
      OnePodMore(true, pods);
      OnePodMore(false, pods);
    }
  }

  /** The test for failure divides whole numbers and compares the quotient with the ratio. */
  function FinalPhase(good: nat, desired: nat, ratio: real): Phase
    requires desired > 0
  {
    if (good / desired) as real < ratio then Failed else Completed
  }

  function FinalStatus(status: Status, succeeded: nat, failed: nat, ratio: real): Status
    requires status.desired > 0
  {
    Status(status.desired, succeeded, status.skipped, failed,
           FinalPhase(succeeded + status.skipped, status.desired, ratio), None)
  }

  datatype Step = KeepWaiting | Finish(status: Status) | DivideByZero

  /** A running job whose pods are listed: everything that has not succeeded counts as failed, even while active. */
  method HandleRunningJob(status: Status, pods: seq<PodStatus>, ratio: real) returns (step: Step)
    ensures step.KeepWaiting? <==> !Over(pods)
    ensures step.DivideByZero? <==> Over(pods) && status.desired == 0
    ensures step.Finish? ==>
              && status.desired > 0
              && step.status == FinalStatus(status, Succeeded(pods), |pods| - Succeeded(pods), ratio)
  {
    var failed, success := 0, 0;
    var complete := PodsComplete(pods);
    if !complete {
      return KeepWaiting;
    }
    for i := 0 to |pods|
      invariant success == Succeeded(pods[..i]) && failed == i - success
    {
      assert pods[..i + 1][..i] == pods[..i];
      if pods[i].phase == PodSucceeded {
        success := success + 1;
      } else {
        failed := failed + 1;
      }
    }
    assert pods[..|pods|] == pods;
    if status.desired == 0 {
      return DivideByZero;
    }
    var newStatus := Status(status.desired, success, status.skipped, failed, Completed, None);
    if ((success + status.skipped) / status.desired) as real < ratio {
      newStatus := newStatus.(phase := Failed);
    }
    return Finish(newStatus);
  }

  // ---- the documented success ratio

  ghost predicate RatioMet(good: nat, desired: nat, ratio: real) {
    good as real >= ratio * desired as real
  }

  lemma QuotientBounds(good: nat, desired: nat) returns (quotient: nat)
    requires desired > 0
    ensures quotient == good / desired
    ensures quotient as real * desired as real <= good as real
    ensures good as real <= quotient as real * desired as real + desired as real - 1.0
  {
    quotient := good / desired;
    assert quotient * desired <= good <= quotient * desired + desired - 1;
    assert (quotient * desired) as real == quotient as real * desired as real;
  }

  lemma TimesPositive(a: real, b: real, d: nat)
    requires d > 0
    ensures a <= b <==> a * d as real <= b * d as real
  {}

  /** A completed job has met the ratio. */
  lemma CompletedMeetsRatio(good: nat, desired: nat, ratio: real)
    requires desired > 0 && FinalPhase(good, desired, ratio) == Completed
    ensures RatioMet(good, desired, ratio)
  {
    var quotient := QuotientBounds(good, desired);
    TimesPositive(ratio, quotient as real, desired);
  }

  /** Between 0 and 1 the ratio does not matter: the job fails unless every node succeeded or was skipped. */
  lemma AllOrNothing(good: nat, desired: nat, ratio: real)
    requires desired > 0 && good <= desired
    ensures FinalPhase(good, desired, ratio) == Completed <==> ratio <= 0.0 || (ratio <= 1.0 && good == desired)
  {
    if good < desired {
      assert good / desired == 0;
    }
  }

  ghost predicate Agrees(good: nat, desired: nat, ratio: real)
    requires desired > 0
  {
    FinalPhase(good, desired, ratio) == Completed <==> RatioMet(good, desired, ratio)
  }

  ghost predicate AlwaysAgrees(ratio: real) {
    forall good: nat, desired: nat :: desired > 0 ==> Agrees(good, desired, ratio)
  }

  predicate WholeOrNegative(ratio: real) {
    ratio <= 0.0 || ratio.Floor as real == ratio
  }

  /** The phase is the documented one for every outcome exactly if the ratio is a whole number, such as the default
      1.0, or not positive. */
  lemma ExactIffWhole(ratio: real)
    ensures AlwaysAgrees(ratio) <==> WholeOrNegative(ratio)
  {
    if WholeOrNegative(ratio) {
      forall good: nat, desired: nat | desired > 0 ensures Agrees(good, desired, ratio) {
        WholeAgrees(good, desired, ratio);
      }
    } else {
      var good, desired := Disagreement(ratio);
      assert !Agrees(good, desired, ratio);
    }
  }

  lemma OneMoreTimes(a: real, d: nat)
    ensures (a + 1.0) * d as real == a * d as real + d as real
  {}

  lemma WholeAgrees(good: nat, desired: nat, ratio: real)
    requires desired > 0 && WholeOrNegative(ratio)
    ensures Agrees(good, desired, ratio)
  {
    var quotient := QuotientBounds(good, desired);
    if ratio <= quotient as real {
      TimesPositive(ratio, quotient as real, desired);
      assert ratio * desired as real <= good as real;
    } else {
      assert quotient + 1 <= ratio.Floor;
      TimesPositive(quotient as real + 1.0, ratio, desired);
      OneMoreTimes(quotient as real, desired);
      assert good as real < ratio * desired as real;
    }
  }

  /** For any other ratio: just below the next whole multiple of enough nodes. */
  lemma Disagreement(ratio: real) returns (good: nat, desired: nat)
    requires !WholeOrNegative(ratio)
    ensures desired > 0 && !Agrees(good, desired, ratio)
    ensures ratio < 1.0 ==> good < desired
  {
    var next := ratio.Floor + 1;
    var gap := next as real - ratio;
    desired := (1.0 / gap).Floor + 1;
    good := next * desired - 1;
    assert gap * desired as real >= 1.0 by {
      assert desired as real >= 1.0 / gap;
      TimesGap(gap, 1.0 / gap, desired as real);
    }
    assert good as real == next as real * desired as real - 1.0;
    assert ratio * desired as real == next as real * desired as real - gap * desired as real;
    assert good / desired == next - 1 by {
      DivideJustBelow(next, desired);
    }
  }

  lemma TimesGap(gap: real, a: real, b: real)
    requires gap > 0.0 && a <= b
    ensures gap * a <= gap * b
  {}

  lemma DivideJustBelow(next: nat, desired: nat)
    requires next > 0 && desired > 0
    ensures (next * desired - 1) / desired == next - 1
  {
    var good := next * desired - 1;
    var quotient := good / desired;
    assert good == quotient * desired + good % desired;
    if quotient < next - 1 {
      TimesWhole(quotient + 1, next - 1, desired);
    } else if quotient > next - 1 {
      TimesWhole(next, quotient, desired);
    }
  }

  lemma TimesWhole(a: nat, b: nat, d: nat)
    requires a <= b
    ensures a * d <= b * d
  {}

  ghost predicate AgreesWithinDesired(ratio: real) {
    forall good: nat, desired: nat :: desired > 0 && good <= desired ==> Agrees(good, desired, ratio)
  }

  /** Among the outcomes in which no more nodes succeed or are skipped than there are, a ratio above 1 is exact too,
      because no job can complete; every ratio strictly between 0 and 1 goes wrong somewhere. */
  lemma ExactWithinDesired(ratio: real)
    ensures AgreesWithinDesired(ratio) <==> ratio <= 0.0 || ratio >= 1.0
  {
    if ratio <= 0.0 || ratio >= 1.0 {
      forall good: nat, desired: nat | desired > 0 && good <= desired ensures Agrees(good, desired, ratio) {
        AllOrNothing(good, desired, ratio);
        if ratio >= 1.0 {
          TimesPositive(1.0, ratio, desired);
          TimesPositive(ratio, 1.0, desired);
        }
      }
    } else {
      var good, desired := Disagreement(ratio);
      assert good <= desired && !Agrees(good, desired, ratio);
    }
  }

  /** The documentation's own example: 0.75 is set, 3 of 4 pods succeed, and the job fails. */
  lemma ThreeOfFourFails()
    ensures RatioMet(3, 4, 0.75) && FinalPhase(3, 4, 0.75) == Failed
  {
    assert 3 / 4 == 0;
  }
}
