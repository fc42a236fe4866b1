/** What every run of the removal engine guarantees: which images it may touch, what its count means, and what a
    prune leaves behind. */
module RemovalProperties {
  import opened Images
  import opened Exclusion
  import opened AliasIndex
  import opened ContainerRuntime
  import opened Remover

  ghost predicate NoFailure(calls: seq<Call>) {
    forall c :: c in calls ==> c.ok
  }

  // ---- the target loop

  /** The target loop asks for exactly the images its eligible targets resolve to. */
  lemma {:induction false} ResolvedMeaning(v: NodeView, excluded: set<string>, targets: seq<string>)
    ensures forall id :: id in Resolved(v, excluded, targets)
                    <==> exists t :: t in targets && Eligible(v, excluded, t) && NonRunning(v)[t] == id
  {
    if targets != [] {
      var n := |targets| - 1;
      ResolvedMeaning(v, excluded, targets[..n]);
      assert forall t :: t in targets <==> t in targets[..n] || t == targets[n];
    }
  }

  lemma {:induction false} DeletedRefsMeaning(
      v: NodeView, excluded: set<string>, targets: seq<string>, calls: seq<Call>)
    requires TargetRun(v, excluded, targets, calls)
    ensures forall t :: t in DeletedRefs(v, excluded, targets, calls) ==>
              t in targets && Eligible(v, excluded, t) && Call(NonRunning(v)[t], true) in calls
    ensures NoFailure(calls) ==>
              forall t :: t in targets && Eligible(v, excluded, t) ==> t in DeletedRefs(v, excluded, targets, calls)
  {
    if targets != [] {
      var n, m := |targets| - 1, |calls| - 1;
      assert forall t :: t in targets <==> t in targets[..n] || t == targets[n];
      if Eligible(v, excluded, targets[n]) {
        assert forall c :: c in calls <==> c in calls[..m] || c == calls[m];
        DeletedRefsMeaning(v, excluded, targets[..n], calls[..m]);
      } else {
        DeletedRefsMeaning(v, excluded, targets[..n], calls);
      }
    }
  }

  // ---- the prune loop

  function Tries(calls: seq<Call>, id: string): nat {
    if calls == [] then 0
    else Tries(calls[..|calls| - 1], id) + if calls[|calls| - 1].id == id then 1 else 0
  }

  ghost function Visited(index: map<string, string>, order: seq<string>, id: string): set<string> {
    set ref | ref in order && ref in index && index[ref] == id
  }

  lemma {:induction false} DoneMeaning(calls: seq<Call>)
    ensures forall id :: id in Done(calls) <==> Call(id, true) in calls
  {
    if calls != [] {
      var m := |calls| - 1;
      DoneMeaning(calls[..m]);
      assert forall c :: c in calls <==> c in calls[..m] || c == calls[m];
    }
  }

  ghost predicate OnlyCandidates(candidates: set<string>, calls: seq<Call>) {
    forall c :: c in calls ==> c.id in candidates
  }

  ghost predicate NothingAfterSuccess(calls: seq<Call>) {
    forall i, j :: 0 <= i < j < |calls| && calls[i].ok ==> calls[j].id != calls[i].id
  }

  /** Whatever order the range takes: the prune loop calls only for candidates, leaves each alone once it succeeded,
      and tries one that never succeeds once for every alias it was reached by. */
  lemma {:induction false} PruneRunMeaning(index: map<string, string>, candidates: set<string>, order: seq<string>,
                                           calls: seq<Call>)
    requires NoDuplicates(order) && Elems(order) <= index.Keys && PruneRun(index, candidates, order, calls)
    ensures OnlyCandidates(candidates, calls)
    ensures NothingAfterSuccess(calls)
    ensures forall id :: id in candidates && id !in Done(calls) ==> Tries(calls, id) == |Visited(index, order, id)|
    ensures forall id :: id in Done(calls) ==> id in candidates
  {
    if order != [] {
      var n, m := |order| - 1, |calls| - 1;
      var id := index[order[n]];
      assert order == order[..n] + [order[n]];
      assert order[n] !in order[..n];
      assert Elems(order[..n]) <= Elems(order);
      if id !in candidates - Done(calls) && PruneRun(index, candidates, order[..n], calls) {
        PruneRunMeaning(index, candidates, order[..n], calls);
        forall other | other in candidates && other !in Done(calls)
          ensures Visited(index, order, other) == Visited(index, order[..n], other)
        {}
      } else {
        var before := calls[..m];
        PruneRunMeaning(index, candidates, order[..n], before);
        assert calls == before + [calls[m]];
        NothingAfterOneMore(before, calls[m]);
        forall other | other in candidates && other !in Done(calls)
          ensures Tries(calls, other) == |Visited(index, order, other)|
        {
          VisitedOneMore(index, order, other);
        }
      }
    }
  }

  lemma NothingAfterOneMore(calls: seq<Call>, c: Call)
    requires NothingAfterSuccess(calls) && c.id !in Done(calls)
    ensures NothingAfterSuccess(calls + [c])
  {
    DoneMeaning(calls);
    forall i | 0 <= i < |calls| && calls[i].ok ensures calls[i].id != c.id {
      assert calls[i] in calls && calls[i] == Call(calls[i].id, true);
    }
  }

  lemma VisitedOneMore(index: map<string, string>, order: seq<string>, id: string)
    requires NoDuplicates(order) && order != [] && Elems(order) <= index.Keys
    ensures var n := |order| - 1;
            |Visited(index, order, id)|
            == |Visited(index, order[..n], id)| + if order[n] in index && index[order[n]] == id then 1 else 0
  {
    var n := |order| - 1;
    assert order == order[..n] + [order[n]] && order[n] in Elems(order) && order[n] !in order[..n];
    if index[order[n]] == id {
      assert Visited(index, order, id) == Visited(index, order[..n], id) + {order[n]};
    } else {
      assert Visited(index, order, id) == Visited(index, order[..n], id);
    }
  }

  /** With no failure the prune loop deletes each candidate exactly once. */
  lemma {:induction false} PruneRunWithoutFailure(index: map<string, string>, candidates: set<string>,
                                                  order: seq<string>, calls: seq<Call>)
    requires NoDuplicates(order) && Elems(order) == index.Keys && candidates <= index.Values
    requires PruneRun(index, candidates, order, calls) && NoFailure(calls)
    ensures Done(calls) == candidates
    ensures |calls| == |candidates| == Successes(calls)
  {
    PruneRunMeaning(index, candidates, order, calls);
    forall id | id in candidates ensures id in Done(calls) {
      var ref :| ref in index && index[ref] == id;
      assert ref in Elems(order);
      assert ref in Visited(index, order, id);
      if id !in Done(calls) {
        TriedIsCalled(calls, id);
        DoneMeaning(calls);
        assert false;
      }
    }
    DistinctSuccesses(calls);
  }

  lemma {:induction false} TriedIsCalled(calls: seq<Call>, id: string)
    ensures Tries(calls, id) > 0 <==> exists c :: c in calls && c.id == id
  {
    if calls != [] {
      var m := |calls| - 1;
      TriedIsCalled(calls[..m], id);
      assert forall c :: c in calls <==> c in calls[..m] || c == calls[m];
    }
  }

  lemma {:induction false} DistinctSuccesses(calls: seq<Call>)
    requires NothingAfterSuccess(calls) && NoFailure(calls)
    ensures |Done(calls)| == |calls| == Successes(calls)
  {
    if calls != [] {
      var m := |calls| - 1;
      var before := calls[..m];
      assert calls == before + [calls[m]];
      assert NothingAfterSuccess(before) by {
        forall i, j | 0 <= i < j < |before| && before[i].ok ensures before[j].id != before[i].id {
          assert calls[i] == before[i] && calls[j] == before[j];
        }
      }
      DistinctSuccesses(before);
      DoneMeaning(before);
      forall i | 0 <= i < m ensures before[i] != Call(calls[m].id, true) {
        assert before[i] == calls[i];
      }
      assert calls[m].id !in Done(before);
      assert calls[m] in calls;
    }
  }

  // ---- safety

  /** Some target other than `*` resolves to the image, and no entry covers that target or, if it is an image ID, any
      name or digest of that image. */
  ghost predicate AskedFor(v: NodeView, excluded: set<string>, targets: seq<string>, id: string) {
    exists t :: t in targets && t != "*" && t in NonRunning(v) && NonRunning(v)[t] == id
      && forall key, ref :: key in excluded && ref in RefsOf(ById(v.listing), t) ==> !Covers(key, ref)
  }

  lemma AskedForMeaning(v: NodeView, excluded: set<string>, targets: seq<string>, id: string)
    ensures AskedFor(v, excluded, targets, id) <==> id in Resolved(v, excluded, targets)
  {
    ResolvedMeaning(v, excluded, targets);
    if AskedFor(v, excluded, targets, id) {
      var t :| t in targets && t != "*" && t in NonRunning(v) && NonRunning(v)[t] == id
        && forall key, ref :: key in excluded && ref in RefsOf(ById(v.listing), t) ==> !Covers(key, ref);
      assert Eligible(v, excluded, t);
    }
    if id in Resolved(v, excluded, targets) {
      var t :| t in targets && Eligible(v, excluded, t) && NonRunning(v)[t] == id;
    }
  }

  /** Why a call was made: a target resolved to it, or a prune found it unprotected. */
  lemma CallReason(v: NodeView, excluded: set<string>, targets: seq<string>, order: seq<string>, calls: seq<Call>,
                   c: Call)
    requires RemovalRun(v, excluded, targets, order, calls) && c in calls
    ensures c.id in NonRunning(v).Values
    ensures AskedFor(v, excluded, targets, c.id) || ("*" in targets && !ProtectedId(v, excluded, c.id))
  {
    var resolved := Resolved(v, excluded, targets);
    var first, second := calls[..|resolved|], calls[|resolved|..];
    ResolvedMeaning(v, excluded, targets);
    AskedForMeaning(v, excluded, targets, c.id);
    if c in first {
      var i :| 0 <= i < |first| && first[i] == c;
      assert resolved[i] == c.id;
      assert c.id in resolved;
    } else {
      assert calls == first + second;
      assert c in second;
      PruneRunMeaning(NonRunning(v), PruneSet(v, excluded, DeletedRefs(v, excluded, targets, first)), order, second);
    }
  }

  /** Every image a list asks for is called for. */
  lemma AskedIsCalled(v: NodeView, excluded: set<string>, targets: seq<string>, order: seq<string>, calls: seq<Call>,
                      id: string)
    requires RemovalRun(v, excluded, targets, order, calls) && AskedFor(v, excluded, targets, id)
    ensures exists c :: c in calls && c.id == id
  {
    var resolved := Resolved(v, excluded, targets);
    AskedForMeaning(v, excluded, targets, id);
    var i :| 0 <= i < |resolved| && resolved[i] == id;
    assert calls[..|resolved|][i] == calls[i] && calls[i] in calls;
  }

  /** Without `*`, `DeleteImage` is called exactly for the images the list asks for: whatever the names are and whatever
      fails, no other image is touched and none of them is passed over. */
  lemma ListCallsExactly(v: NodeView, excluded: set<string>, targets: seq<string>, order: seq<string>,
                         calls: seq<Call>, id: string)
    requires RemovalRun(v, excluded, targets, order, calls) && "*" !in targets
    ensures (exists c :: c in calls && c.id == id) <==> AskedFor(v, excluded, targets, id)
  {
    if c :| c in calls && c.id == id {
      CallReason(v, excluded, targets, order, calls, c);
    }
    if AskedFor(v, excluded, targets, id) {
      AskedIsCalled(v, excluded, targets, order, calls, id);
    }
  }

  /** A list of excluded references deletes nothing; with `*`, nothing but unprotected images. */
  lemma ExcludedTargetsAreKept(v: NodeView, excluded: set<string>, targets: seq<string>, order: seq<string>,
                               calls: seq<Call>)
    requires RemovalRun(v, excluded, targets, order, calls)
    requires forall t :: t in targets ==> t == "*" || exists key :: key in excluded && Covers(key, t)
    ensures "*" !in targets ==> calls == []
    ensures forall c :: c in calls ==> !ProtectedId(v, excluded, c.id)
  {
    forall t | t in targets && t != "*"
      ensures exists key, ref :: key in excluded && ref in RefsOf(ById(v.listing), t) && Covers(key, ref)
    {
      var key :| key in excluded && Covers(key, t);
      assert t in RefsOf(ById(v.listing), t);
    }
    forall c | c in calls ensures "*" in targets && !ProtectedId(v, excluded, c.id) {
      CallReason(v, excluded, targets, order, calls, c);
    }
    if calls != [] {
      assert calls[0] in calls;
    }
  }

  /** What a prune, following the targets, calls for under the ID hypothesis: with `*` in the list, exactly the images
      it asks for and every listed one that is neither running nor protected. */
  lemma PruneCallsExactly(v: NodeView, excluded: set<string>, targets: seq<string>, order: seq<string>,
                          calls: seq<Call>, id: string)
    requires IdHypothesis(v.listing) && RemovalRun(v, excluded, targets, order, calls) && "*" in targets
    ensures (exists c :: c in calls && c.id == id) <==>
              || AskedFor(v, excluded, targets, id)
              || (id in Ids(v.listing) && id !in Running(v) && !ProtectedId(v, excluded, id))
  {
    NonRunningValues(v);
    if c :| c in calls && c.id == id {
      CallReason(v, excluded, targets, order, calls, c);
    } else if AskedFor(v, excluded, targets, id) {
      AskedIsCalled(v, excluded, targets, order, calls, id);
    } else if id in Unprotected(v, excluded) {
      UnprotectedIsCalled(v, excluded, targets, order, calls, id);
    }
  }

  lemma UnprotectedIsCalled(v: NodeView, excluded: set<string>, targets: seq<string>, order: seq<string>,
                            calls: seq<Call>, id: string)
    requires IdHypothesis(v.listing) && RemovalRun(v, excluded, targets, order, calls) && "*" in targets
    requires id in Unprotected(v, excluded)
    ensures exists c :: c in calls && c.id == id
  {
    var k := |Resolved(v, excluded, targets)|;
    var first, second := calls[..k], calls[k..];
    assert calls == first + second;
    var deleted := DeletedRefs(v, excluded, targets, first);
    if id in deleted {
      DeletedRefsMeaning(v, excluded, targets, first);
      NonRunningValues(v);
      EligibleIdIsItself(v, excluded, id);
      assert Call(id, true) in first;
    } else {
      PruneRunMeaning(NonRunning(v), PruneSet(v, excluded, deleted), order, second);
      DoneMeaning(second);
      var ref :| ref in NonRunning(v) && NonRunning(v)[ref] == id;
      assert ref in Elems(order) && ref in Visited(NonRunning(v), order, id);
      TriedIsCalled(second, id);
    }
  }

  /** Deletion safety, with no hypothesis on names: for every target list, alias collision, failure and map order,
      `DeleteImage` is called only with a listed image ID that is no key of the running index, hence is neither a
      container's image reference nor an alias of one. */
  lemma DeletionSafety(v: NodeView, excluded: set<string>, targets: seq<string>, order: seq<string>, calls: seq<Call>)
    requires RemovalRun(v, excluded, targets, order, calls)
    ensures forall c :: c in calls ==> c.id in Ids(v.listing) && c.id !in Running(v) && c.id !in v.containers
    ensures forall c, container :: c in calls && container in v.containers ==>
              c.id !in RefsOf(ById(v.listing), container)
  {
    forall c | c in calls
      ensures c.id in Ids(v.listing) && c.id !in Running(v) && c.id !in v.containers
      ensures forall container :: container in v.containers ==> c.id !in RefsOf(ById(v.listing), container)
    {
      CallReason(v, excluded, targets, order, calls, c);
      var ref :| ref in NonRunning(v) && NonRunning(v)[ref] == c.id;
      NonRunningIsSafe(v, ref);
    }
  }

  /** Exclusion protects every alias of an image exactly when no target reaches a protected image through a reference
      that is itself unprotected. */
  lemma ExclusionHoldsIff(
      v: NodeView, excluded: set<string>, targets: seq<string>, order: seq<string>, calls: seq<Call>)
    requires RemovalRun(v, excluded, targets, order, calls)
    ensures (forall c :: c in calls ==> !ProtectedId(v, excluded, c.id)) <==>
            (forall id :: AskedFor(v, excluded, targets, id) ==> !ProtectedId(v, excluded, id))
  {
    forall id | AskedFor(v, excluded, targets, id) ensures exists c :: c in calls && c.id == id {
      AskedIsCalled(v, excluded, targets, order, calls, id);
    }
    forall c | c in calls ensures AskedFor(v, excluded, targets, c.id) || !ProtectedId(v, excluded, c.id) {
      CallReason(v, excluded, targets, order, calls, c);
    }
  }

  /** A target that is an image ID is judged by all its aliases, so a list of IDs never deletes a protected image. */
  lemma IdTargetsRespectExclusion(v: NodeView, excluded: set<string>, targets: seq<string>, order: seq<string>,
                                  calls: seq<Call>)
    requires IdHypothesis(v.listing)
    requires forall t :: t in targets ==> t == "*" || IdTarget(v, t)
    requires RemovalRun(v, excluded, targets, order, calls)
    ensures forall c :: c in calls ==> !ProtectedId(v, excluded, c.id)
  {
    forall id | AskedFor(v, excluded, targets, id) ensures !ProtectedId(v, excluded, id) {
      AskedForMeaning(v, excluded, targets, id);
      ResolvedMeaning(v, excluded, targets);
      var t :| t in targets && Eligible(v, excluded, t) && NonRunning(v)[t] == id;
      EligibleIdIsItself(v, excluded, t);
    }
    ExclusionHoldsIff(v, excluded, targets, order, calls);
  }

  lemma EligibleIdIsItself(v: NodeView, excluded: set<string>, t: string)
    requires IdHypothesis(v.listing) && t in Ids(v.listing) && Eligible(v, excluded, t)
    ensures t !in Running(v) && NonRunning(v)[t] == t
  {
    NonRunningIsSafe(v, t);
    var id := NonRunning(v)[t];
    ByIdListed(v.listing);
    assert ById(v.listing)[id] in v.listing;
  }

  /** A node with one image, not running, under some tags. */
  function TaggedNode(id: string, tags: seq<string>): NodeView {
    NodeView([RawImage(id, tags, [])], [])
  }

  lemma TaggedNodeFacts(id: string, tags: seq<string>)
    requires id !in tags && id != "" && id != "*"
    ensures var v := TaggedNode(id, tags);
            && IdHypothesis(v.listing) && DistinctIds(v.listing) && Ids(v.listing) == {id}
            && RefsOf(ById(v.listing), id) == {id} + Elems(tags)
            && (forall t :: t in tags ==> RefsOf(ById(v.listing), t) == {t})
            && forall t :: t in {id} + Elems(tags) ==> t in NonRunning(v) && NonRunning(v)[t] == id
  {
    var v := TaggedNode(id, tags);
    var raw := v.listing[0];
    ByIdListed(v.listing);
    assert raw in v.listing && Ids(v.listing) == {id};
    assert RawAliases(raw) == Elems(tags);
    assert ById(v.listing)[id] == raw;
    forall t | t in {id} + Elems(tags) ensures t in NonRunning(v) && NonRunning(v)[t] == id {
      EveryAliasIsAKey(v, id, t);
      NonRunningIsSafe(v, t);
    }
  }

  lemma {:induction false} OneTarget(v: NodeView, excluded: set<string>, t: string)
    requires Eligible(v, excluded, t)
    ensures Resolved(v, excluded, [t]) == [NonRunning(v)[t]]
    ensures forall c: Call :: c.id == NonRunning(v)[t] ==> TargetRun(v, excluded, [t], [c])
  {
    assert [t][..0] == [];
    assert Resolved(v, excluded, []) == [];
  }

  /** Without the condition of `ExclusionHoldsIff` protection fails: excluding one tag of an image does not keep a
      list that names its other tag from deleting it. */
  lemma OtherTagDefeatsExclusion(id: string, keep: string, drop: string) returns (v: NodeView, c: Call)
    requires id != "" && id != "*" && drop != "*" && id != keep && id != drop
    requires !Covers(keep, drop)
    ensures IdHypothesis(v.listing) && RemovalRun(v, {keep}, [drop], [], [c])
    ensures c == Call(id, true) && ProtectedId(v, {keep}, id)
  {
    var tags := [keep, drop];
    v, c := TaggedNode(id, tags), Call(id, true);
    TaggedNodeFacts(id, tags);
    assert tags[0] in Elems(tags) && tags[1] in Elems(tags);
    assert Covers(keep, keep);
    OneTarget(v, {keep}, drop);
    WholeRun(v, {keep}, [drop], [c], [], []);
  }

  // ---- the count

  /** Conservation: the store loses at most as many images as the count claims. */
  lemma LostAtMostRemoved(v: NodeView, calls: seq<Call>, after: seq<RawImage>, removed: nat)
    requires DistinctIds(v.listing) && Effect(v.listing, calls, after, removed)
    ensures |v.listing| - |after| <= removed
  {
    LostCount(v.listing, Removed(calls));
    RemovedAtMostSuccesses(calls);
    SubsetCount(Removed(calls) * Ids(v.listing), Removed(calls));
  }

  lemma SubsetCount<T>(a: set<T>, b: set<T>)
    requires a <= b
    ensures |a| <= |b|
    ensures |a| == |b| ==> a == b
  {
    assert b == a + (b - a);
  }

  ghost predicate NoRepeatedSuccess(calls: seq<Call>) {
    forall i, j :: 0 <= i < j < |calls| && calls[i].ok && calls[j].ok ==> calls[i].id != calls[j].id
  }

  /** The count is exact when no two successes took the same image, and only then. */
  lemma CountExactIffNoRepeat(v: NodeView, calls: seq<Call>, after: seq<RawImage>, removed: nat)
    requires DistinctIds(v.listing) && Effect(v.listing, calls, after, removed)
    requires "" !in Ids(v.listing) && forall c :: c in calls ==> c.id in Ids(v.listing)
    ensures |v.listing| - |after| == removed <==> NoRepeatedSuccess(calls)
  {
    LostCount(v.listing, Removed(calls));
    assert Removed(calls) * Ids(v.listing) == Removed(calls);
    RemovedCountIff(calls);
  }

  lemma {:induction false} RemovedCountIff(calls: seq<Call>)
    requires forall c :: c in calls ==> c.id != ""
    ensures |Removed(calls)| == Successes(calls) <==> NoRepeatedSuccess(calls)
  {
    if calls == [] {
      assert Removed(calls) == {};
    } else {
      var m := |calls| - 1;
      var before, last := calls[..m], calls[m];
      assert calls == before + [last] && last in calls;
      RemovedCountIff(before);
      RemovedAtMostSuccesses(before);
      RemovedAppend(before, last);
      NoRepeatAppend(before, last);
      if last.ok && last.id in Removed(before) {
        assert Removed(calls) == Removed(before);
      }
    }
  }

  lemma NoRepeatAppend(calls: seq<Call>, c: Call)
    requires c.id != ""
    ensures NoRepeatedSuccess(calls + [c]) <==> NoRepeatedSuccess(calls) && !(c.ok && c.id in Removed(calls))
  {
    var longer := calls + [c];
    if NoRepeatedSuccess(longer) {
      assert forall i :: 0 <= i < |calls| ==> calls[i] == longer[i];
      forall i | 0 <= i < |calls| && calls[i].ok && c.ok ensures calls[i].id != c.id {
        assert longer[i].id != longer[|calls|].id;
      }
    }
  }

  // ---- runs without failure

  ghost function EligibleTargets(v: NodeView, excluded: set<string>, targets: seq<string>): set<string> {
    set t | t in targets && Eligible(v, excluded, t)
  }

  /** The images a list asks for: what its eligible targets resolve to and, with `*`, the prune set. */
  ghost function Doomed(v: NodeView, excluded: set<string>, targets: seq<string>): set<string> {
    Elems(Resolved(v, excluded, targets)) +
    if "*" in targets then PruneSet(v, excluded, EligibleTargets(v, excluded, targets)) else {}
  }

  /** If nothing fails, the order of the range over the map matters neither to the images removed nor to the count. */
  lemma FailureFreeRun(v: NodeView, excluded: set<string>, targets: seq<string>, order: seq<string>, calls: seq<Call>)
    requires RemovalRun(v, excluded, targets, order, calls) && NoFailure(calls)
    ensures Done(calls) == Doomed(v, excluded, targets)
    ensures Removed(calls) == Doomed(v, excluded, targets) - {""}
    ensures Successes(calls) == |Resolved(v, excluded, targets)| +
              if "*" in targets then |PruneSet(v, excluded, EligibleTargets(v, excluded, targets))| else 0
  {
    var resolved := Resolved(v, excluded, targets);
    var first, second := calls[..|resolved|], calls[|resolved|..];
    SplitRun(calls, |resolved|);
    AllSuccessful(first);
    DoneIsElems(first, resolved);
    if "*" in targets {
      DeletedIfNoFailure(v, excluded, targets, first);
      var prune := PruneSet(v, excluded, EligibleTargets(v, excluded, targets));
      PruneRunWithoutFailure(NonRunning(v), prune, order, second);
    } else {
      assert second == [];
    }
    RemovedIsDone(calls);
  }

  lemma SplitRun(calls: seq<Call>, k: nat)
    requires k <= |calls|
    ensures Successes(calls) == Successes(calls[..k]) + Successes(calls[k..])
    ensures Done(calls) == Done(calls[..k]) + Done(calls[k..])
    ensures NoFailure(calls) ==> NoFailure(calls[..k]) && NoFailure(calls[k..])
  {
    assert calls == calls[..k] + calls[k..];
    SuccessesConcat(calls[..k], calls[k..]);
    DoneConcat(calls[..k], calls[k..]);
    assert forall c :: c in calls[..k] || c in calls[k..] ==> c in calls;
  }

  lemma {:induction false} DoneConcat(a: seq<Call>, b: seq<Call>)
    ensures Done(a + b) == Done(a) + Done(b)
  {
    if b == [] {
      assert a + b == a;
    } else {
      var n := |b| - 1;
      assert (a + b)[..|a + b| - 1] == a + b[..n];
      DoneConcat(a, b[..n]);
    }
  }

  lemma DeletedIfNoFailure(v: NodeView, excluded: set<string>, targets: seq<string>, calls: seq<Call>)
    requires TargetRun(v, excluded, targets, calls) && NoFailure(calls)
    ensures DeletedRefs(v, excluded, targets, calls) == EligibleTargets(v, excluded, targets)
  {
    DeletedRefsMeaning(v, excluded, targets, calls);
  }

  lemma {:induction false} AllSuccessful(calls: seq<Call>)
    requires NoFailure(calls)
    ensures Successes(calls) == |calls|
  {
    if calls != [] {
      var m := |calls| - 1;
      assert calls == calls[..m] + [calls[m]];
      assert calls[m] in calls && forall c :: c in calls[..m] ==> c in calls;
      AllSuccessful(calls[..m]);
    }
  }

  lemma DoneIsElems(calls: seq<Call>, ids: seq<string>)
    requires NoFailure(calls) && |calls| == |ids| && forall i :: 0 <= i < |calls| ==> calls[i].id == ids[i]
    ensures Done(calls) == Elems(ids)
  {
    DoneMeaning(calls);
    forall i | 0 <= i < |ids| ensures ids[i] in Done(calls) {
      assert calls[i] in calls && calls[i] == Call(ids[i], true);
    }
  }

  lemma RemovedIsDone(calls: seq<Call>)
    ensures Removed(calls) == Done(calls) - {""}
  {
    DoneMeaning(calls);
    forall id | id in Removed(calls) ensures id in Done(calls) {
      var c :| c in calls && c.ok && c.id == id;
      assert c == Call(id, true);
    }
  }

  /** Order independence: any two runs of the same list on the same node, neither with a failed delete, leave the same
      store and return the same count. */
  lemma OrderIndependence(v: NodeView, excluded: set<string>, targets: seq<string>,
                          order1: seq<string>, calls1: seq<Call>, after1: seq<RawImage>, removed1: nat,
                          order2: seq<string>, calls2: seq<Call>, after2: seq<RawImage>, removed2: nat)
    requires RemovalRun(v, excluded, targets, order1, calls1) && RemovalRun(v, excluded, targets, order2, calls2)
    requires NoFailure(calls1) && NoFailure(calls2)
    requires Effect(v.listing, calls1, after1, removed1) && Effect(v.listing, calls2, after2, removed2)
    ensures after1 == after2 && removed1 == removed2
  {
    FailureFreeRun(v, excluded, targets, order1, calls1);
    FailureFreeRun(v, excluded, targets, order2, calls2);
  }

  /** Prune completeness: with `*` among the targets and no failed delete, a listed image is kept exactly when it is
      running or protected, and no target resolved to it. */
  lemma PruneCompleteness(v: NodeView, excluded: set<string>, targets: seq<string>, order: seq<string>,
                          calls: seq<Call>, after: seq<RawImage>, removed: nat)
    requires IdHypothesis(v.listing) && "*" in targets
    requires RemovalRun(v, excluded, targets, order, calls) && NoFailure(calls)
    requires Effect(v.listing, calls, after, removed)
    ensures forall raw :: raw in v.listing ==>
              (raw in after <==> (raw.id in Running(v) || ProtectedId(v, excluded, raw.id))
                                 && raw.id !in Resolved(v, excluded, targets))
    ensures forall raw :: raw in after ==> raw.id in Running(v) || ProtectedId(v, excluded, raw.id)
  {
    FailureFreeRun(v, excluded, targets, order, calls);
    WithoutMeaning(v.listing, Removed(calls));
    forall raw | raw in v.listing
      ensures raw.id in Removed(calls) <==> !((raw.id in Running(v) || ProtectedId(v, excluded, raw.id))
                                              && raw.id !in Resolved(v, excluded, targets))
    {
      assert raw.id in Ids(v.listing);
      DoomedIff(v, excluded, targets, raw.id);
    }
  }

  lemma DoomedIff(v: NodeView, excluded: set<string>, targets: seq<string>, id: string)
    requires IdHypothesis(v.listing) && "*" in targets && id in Ids(v.listing)
    ensures id in Doomed(v, excluded, targets) <==>
              (id !in Running(v) && !ProtectedId(v, excluded, id)) || id in Resolved(v, excluded, targets)
  {
    NonRunningValues(v);
    ResolvedMeaning(v, excluded, targets);
    if id in EligibleTargets(v, excluded, targets) {
      EligibleIdIsItself(v, excluded, id);
    }
  }

  /** The count is exact on a failure-free run if and only if this holds of the list beforehand: no two eligible
      targets resolve to the same image, and with `*` every image a target resolves to is also listed by its own ID or
      is protected by that ID, since the prune looks deletions up by ID. */
  ghost predicate CountsOnce(v: NodeView, excluded: set<string>, targets: seq<string>) {
    && NoDuplicates(Resolved(v, excluded, targets))
    && ("*" in targets ==> forall t :: t in EligibleTargets(v, excluded, targets) ==>
          var id := NonRunning(v)[t]; ProtectedId(v, excluded, id) || id in EligibleTargets(v, excluded, targets))
  }

  lemma CountExactIff(v: NodeView, excluded: set<string>, targets: seq<string>, order: seq<string>, calls: seq<Call>,
                      after: seq<RawImage>, removed: nat)
    requires DistinctIds(v.listing) && "" !in Ids(v.listing)
    requires RemovalRun(v, excluded, targets, order, calls) && NoFailure(calls)
    requires Effect(v.listing, calls, after, removed)
    ensures |v.listing| - |after| == removed <==> CountsOnce(v, excluded, targets)
  {
    hide Resolved;
    hide PruneSet;
    hide EligibleTargets;
    hide NoDuplicates;
    var resolved := Resolved(v, excluded, targets);
    var eligible := EligibleTargets(v, excluded, targets);
    var pruned := if "*" in targets then PruneSet(v, excluded, eligible) else {};
    DeletionSafety(v, excluded, targets, order, calls);
    FailureFreeRun(v, excluded, targets, order, calls);
    assert "" !in Doomed(v, excluded, targets) by { DoneMeaning(calls); }
    assert Removed(calls) == Doomed(v, excluded, targets);
    LostCount(v.listing, Removed(calls));
    assert Removed(calls) * Ids(v.listing) == Removed(calls) by {
      DoneMeaning(calls);
    }
    hide Removed;
    hide Done;
    UnionCount(Elems(resolved), pruned);
    ElemsCount(resolved);
    if "*" in targets {
      PruneMeetsTargets(v, excluded, targets);
    }
  }

  /** The prune finds none of the images the targets resolve to exactly if each of those is protected by its ID or
      listed by it. */
  lemma PruneMeetsTargets(v: NodeView, excluded: set<string>, targets: seq<string>)
    ensures var eligible := EligibleTargets(v, excluded, targets);
            Elems(Resolved(v, excluded, targets)) !! PruneSet(v, excluded, eligible) <==>
            forall t :: t in eligible ==> ProtectedId(v, excluded, NonRunning(v)[t]) || NonRunning(v)[t] in eligible
  {
    var resolved, eligible := Resolved(v, excluded, targets), EligibleTargets(v, excluded, targets);
    var pruned := PruneSet(v, excluded, eligible);
    ResolvedMeaning(v, excluded, targets);
    if Elems(resolved) !! pruned {
      forall t | t in eligible
        ensures ProtectedId(v, excluded, NonRunning(v)[t]) || NonRunning(v)[t] in eligible
      {
        assert NonRunning(v)[t] in Elems(resolved) && NonRunning(v)[t] in NonRunning(v).Values;
      }
    } else {
      var id :| id in resolved && id in pruned;
      var t :| t in targets && Eligible(v, excluded, t) && NonRunning(v)[t] == id;
      assert t in eligible;
    }
  }

  lemma UnionCount<T>(a: set<T>, b: set<T>)
    ensures |a + b| <= |a| + |b|
    ensures |a + b| == |a| + |b| <==> a !! b
  {
    assert a + b == a + (b - a);
    assert b == (b - a) + (a * b);
  }

  lemma {:induction false} ElemsCount(s: seq<string>)
    ensures |Elems(s)| <= |s|
    ensures |Elems(s)| == |s| <==> NoDuplicates(s)
  {
    if s == [] {
      assert Elems(s) == {};
    } else {
      var m := |s| - 1;
      ElemsCount(s[..m]);
      assert s == s[..m] + [s[m]];
      ElemsLast(s[..m], s[m]);
    }
  }

  lemma ElemsLast(s: seq<string>, x: string)
    ensures Elems(s + [x]) == if x in s then Elems(s) else Elems(s) + {x}
    ensures NoDuplicates(s + [x]) <==> NoDuplicates(s) && x !in s
    ensures x in Elems(s) <==> x in s
  {
    var longer := s + [x];
    assert forall y :: y in longer <==> y in s || y == x;
    assert forall i :: 0 <= i < |s| ==> longer[i] == s[i];
    forall i | 0 <= i < |s| && s[i] == x ensures !NoDuplicates(longer) {
      assert longer[i] == longer[|s|];
    }
  }

  // ---- the count of any run, whatever fails

  /** If no two eligible targets resolve to the same image, an image that is itself an eligible target is recorded
      under its ID once a call for it succeeds. */
  lemma {:induction false} SuccessIsRecorded(v: NodeView, excluded: set<string>, targets: seq<string>,
                                             calls: seq<Call>, id: string)
    requires TargetRun(v, excluded, targets, calls) && NoDuplicates(Resolved(v, excluded, targets))
    requires id in targets && Eligible(v, excluded, id) && NonRunning(v)[id] == id && Call(id, true) in calls
    ensures id in DeletedRefs(v, excluded, targets, calls)
  {
    hide Excluded;
    hide NonRunning;
    var n, m := |targets| - 1, |calls| - 1;
    var before := Resolved(v, excluded, targets[..n]);
    assert targets == targets[..n] + [targets[n]];
    if Eligible(v, excluded, targets[n]) {
      ElemsLast(before, NonRunning(v)[targets[n]]);
      assert calls == calls[..m] + [calls[m]];
      if targets[n] == id {
        NotAmongCalls(before, calls[..m], id);
      } else {
        ResolvedMeaning(v, excluded, targets[..n]);
        SuccessIsRecorded(v, excluded, targets[..n], calls[..m], id);
      }
    } else {
      SuccessIsRecorded(v, excluded, targets[..n], calls, id);
    }
  }

  lemma NotAmongCalls(ids: seq<string>, calls: seq<Call>, id: string)
    requires |calls| == |ids| && (forall i :: 0 <= i < |calls| ==> calls[i].id == ids[i]) && id !in ids
    ensures Call(id, true) !in calls
  {}

  /** The condition for runs in which deletions may fail. A prune looks deletions up by ID, and what is recorded under
      an ID is that image's own deletion only if the ID resolves to itself. */
  ghost predicate AlwaysCountsOnce(v: NodeView, excluded: set<string>, targets: seq<string>) {
    && NoDuplicates(Resolved(v, excluded, targets))
    && ("*" in targets ==> forall t :: t in EligibleTargets(v, excluded, targets) ==>
          var id := NonRunning(v)[t];
          ProtectedId(v, excluded, id) || (id in EligibleTargets(v, excluded, targets) && NonRunning(v)[id] == id))
  }

  /** The condition covers every run: whatever the names are, whatever fails and in whatever order the map is ranged
      over, no image is deleted twice and the count is exact. */
  lemma AlwaysCountsOnceSuffices(v: NodeView, excluded: set<string>, targets: seq<string>, order: seq<string>,
                           calls: seq<Call>, after: seq<RawImage>, removed: nat)
    requires DistinctIds(v.listing) && "" !in Ids(v.listing) && AlwaysCountsOnce(v, excluded, targets)
    requires RemovalRun(v, excluded, targets, order, calls) && Effect(v.listing, calls, after, removed)
    ensures NoRepeatedSuccess(calls)
    ensures |v.listing| - |after| == removed
  {
    var resolved := Resolved(v, excluded, targets);
    var first, second := calls[..|resolved|], calls[|resolved|..];
    if "*" in targets {
      PruneLeavesDeleted(v, excluded, targets, order, first, second);
    }
    assert NoRepeatedSuccess(first) && NoRepeatedSuccess(second);
    NoRepeatAcross(first, second);
    assert first + second == calls;
    DeletionSafety(v, excluded, targets, order, calls);
    CountExactIffNoRepeat(v, calls, after, removed);
  }

  /** An unprotected image that a target call took is recorded under its ID. */
  lemma TakenIsRecorded(v: NodeView, excluded: set<string>, targets: seq<string>, first: seq<Call>, id: string)
    requires AlwaysCountsOnce(v, excluded, targets) && "*" in targets
    requires TargetRun(v, excluded, targets, first) && id in Unprotected(v, excluded) && Call(id, true) in first
    ensures id in DeletedRefs(v, excluded, targets, first)
  {
    var i :| 0 <= i < |first| && first[i] == Call(id, true);
    assert Resolved(v, excluded, targets)[i] == id;
    ResolvedMeaning(v, excluded, targets);
    assert id in Resolved(v, excluded, targets);
    var t :| t in targets && Eligible(v, excluded, t) && NonRunning(v)[t] == id;
    assert t in EligibleTargets(v, excluded, targets);
    SuccessIsRecorded(v, excluded, targets, first, id);
  }

  lemma PruneLeavesDeleted(v: NodeView, excluded: set<string>, targets: seq<string>, order: seq<string>,
                           first: seq<Call>, second: seq<Call>)
    requires AlwaysCountsOnce(v, excluded, targets) && "*" in targets
    requires TargetRun(v, excluded, targets, first) && IsOrder(order, NonRunning(v))
    requires PruneRun(NonRunning(v), PruneSet(v, excluded, DeletedRefs(v, excluded, targets, first)), order, second)
    ensures NothingAfterSuccess(second)
    ensures forall c :: c in second ==> c.id !in Done(first)
  {
    PruneRunMeaning(NonRunning(v), PruneSet(v, excluded, DeletedRefs(v, excluded, targets, first)), order, second);
    DoneMeaning(first);
    forall id | id in Unprotected(v, excluded) && Call(id, true) in first
      ensures id in DeletedRefs(v, excluded, targets, first)
    {
      TakenIsRecorded(v, excluded, targets, first, id);
    }
  }

  // ---- a run without failure exists for every list

  lemma {:induction false} SomeOrder(keys: set<string>) returns (order: seq<string>)
    ensures NoDuplicates(order) && Elems(order) == keys
    decreases |keys|
  {
    order := [];
    if key :| key in keys {
      order := SomeOrder(keys - {key});
      ElemsLast(order, key);
      order := order + [key];
    }
  }

  lemma {:induction false} SomePruneRun(index: map<string, string>, candidates: set<string>, order: seq<string>)
    returns (calls: seq<Call>)
    requires Elems(order) <= index.Keys
    ensures PruneRun(index, candidates, order, calls) && NoFailure(calls)
  {
    calls := [];
    if order != [] {
      var n := |order| - 1;
      assert order[n] in Elems(order) && Elems(order[..n]) <= Elems(order);
      var before := SomePruneRun(index, candidates, order[..n]);
      calls := before;
      if index[order[n]] in candidates - Done(before) {
        calls := before + [Call(index[order[n]], true)];
        assert calls[..|before|] == before;
      }
    }
  }

  /** Whatever happens in the target loop, the prune after it may go without failure. */
  lemma SomeRunFrom(v: NodeView, excluded: set<string>, targets: seq<string>, first: seq<Call>)
    returns (order: seq<string>, second: seq<Call>)
    requires TargetRun(v, excluded, targets, first)
    ensures RemovalRun(v, excluded, targets, order, first + second) && NoFailure(second)
    ensures "*" in targets ==>
              && IsOrder(order, NonRunning(v))
              && PruneRun(NonRunning(v), PruneSet(v, excluded, DeletedRefs(v, excluded, targets, first)), order, second)
  {
    order, second := [], [];
    if "*" in targets {
      order := SomeOrder(NonRunning(v).Keys);
      second := SomePruneRun(NonRunning(v), PruneSet(v, excluded, DeletedRefs(v, excluded, targets, first)), order);
    }
    WholeRun(v, excluded, targets, first, order, second);
  }

  lemma SomeFailureFreeRun(v: NodeView, excluded: set<string>, targets: seq<string>)
    returns (order: seq<string>, calls: seq<Call>)
    ensures RemovalRun(v, excluded, targets, order, calls) && NoFailure(calls)
  {
    var resolved := Resolved(v, excluded, targets);
    var first := seq(|resolved|, i requires 0 <= i < |resolved| => Call(resolved[i], true));
    var second;
    order, second := SomeRunFrom(v, excluded, targets, first);
    calls := first + second;
  }

  ghost predicate EveryRunCountsExactly(v: NodeView, excluded: set<string>, targets: seq<string>) {
    forall order, calls, after, removed ::
      RemovalRun(v, excluded, targets, order, calls) && Effect(v.listing, calls, after, removed) ==>
        |v.listing| - |after| == removed
  }

  /** A run that counts an unprotected image twice, when its ID is a target that resolves to some other image: that
      other deletion fails, and the prune finds nothing recorded under the ID. */
  lemma CountedAgain(v: NodeView, excluded: set<string>, targets: seq<string>, t: string)
    returns (order: seq<string>, calls: seq<Call>)
    requires "*" in targets && t in EligibleTargets(v, excluded, targets)
    requires var id := NonRunning(v)[t];
             && !ProtectedId(v, excluded, id) && id in EligibleTargets(v, excluded, targets)
             && NonRunning(v)[id] != id
    ensures RemovalRun(v, excluded, targets, order, calls) && !NoRepeatedSuccess(calls)
  {
    var id, resolved := NonRunning(v)[t], Resolved(v, excluded, targets);
    var first := seq(|resolved|, i requires 0 <= i < |resolved| => Call(resolved[i], resolved[i] == id));
    var second;
    order, second := SomeRunFrom(v, excluded, targets, first);
    calls := first + second;
    var i, j := TakenTwice(v, excluded, targets, t, order, first, second);
    assert calls[i] == first[i] && calls[|first| + j] == second[j];
  }

  lemma TakenTwice(v: NodeView, excluded: set<string>, targets: seq<string>, t: string, order: seq<string>,
                   first: seq<Call>, second: seq<Call>)
    returns (i: nat, j: nat)
    requires t in EligibleTargets(v, excluded, targets) && !ProtectedId(v, excluded, NonRunning(v)[t])
    requires NonRunning(v)[t] in NonRunning(v) && NonRunning(v)[NonRunning(v)[t]] != NonRunning(v)[t]
    requires TargetRun(v, excluded, targets, first) && IsOrder(order, NonRunning(v)) && NoFailure(second)
    requires forall c :: c in first ==> c.ok == (c.id == NonRunning(v)[t])
    requires PruneRun(NonRunning(v), PruneSet(v, excluded, DeletedRefs(v, excluded, targets, first)), order, second)
    ensures i < |first| && first[i] == Call(NonRunning(v)[t], true)
    ensures j < |second| && second[j] == Call(NonRunning(v)[t], true)
  {
    var id, deleted := NonRunning(v)[t], DeletedRefs(v, excluded, targets, first);
    ResolvedMeaning(v, excluded, targets);
    assert id in Resolved(v, excluded, targets);
    i :| 0 <= i < |first| && Resolved(v, excluded, targets)[i] == id;
    assert first[i] in first;
    DeletedRefsMeaning(v, excluded, targets, first);
    assert id in PruneSet(v, excluded, deleted);
    PruneRunWithoutFailure(NonRunning(v), PruneSet(v, excluded, deleted), order, second);
    DoneMeaning(second);
    j :| 0 <= j < |second| && second[j] == Call(id, true);
  }

  lemma CountFollows(v: NodeView, excluded: set<string>, targets: seq<string>, order: seq<string>, calls: seq<Call>)
    requires DistinctIds(v.listing) && "" !in Ids(v.listing) && EveryRunCountsExactly(v, excluded, targets)
    requires RemovalRun(v, excluded, targets, order, calls)
    ensures NoRepeatedSuccess(calls) && (NoFailure(calls) ==> CountsOnce(v, excluded, targets))
  {
    var after, removed := Without(v.listing, Removed(calls)), Successes(calls);
    assert Effect(v.listing, calls, after, removed);
    DeletionSafety(v, excluded, targets, order, calls);
    CountExactIffNoRepeat(v, calls, after, removed);
    if NoFailure(calls) {
      CountExactIff(v, excluded, targets, order, calls, after, removed);
    }
  }

  lemma CountsExactlyOnlyIf(v: NodeView, excluded: set<string>, targets: seq<string>)
    requires DistinctIds(v.listing) && "" !in Ids(v.listing) && EveryRunCountsExactly(v, excluded, targets)
    ensures AlwaysCountsOnce(v, excluded, targets)
  {
    hide EveryRunCountsExactly;
    var order, calls := SomeFailureFreeRun(v, excluded, targets);
    CountFollows(v, excluded, targets, order, calls);
    if "*" in targets {
      forall t | t in EligibleTargets(v, excluded, targets)
        ensures var id := NonRunning(v)[t];
                ProtectedId(v, excluded, id) || (id in EligibleTargets(v, excluded, targets) && NonRunning(v)[id] == id)
      {
        var id := NonRunning(v)[t];
        if !ProtectedId(v, excluded, id) && NonRunning(v)[id] != id {
          var order', calls' := CountedAgain(v, excluded, targets, t);
          CountFollows(v, excluded, targets, order', calls');
        }
      }
    }
  }

  /** Exactly which lists count exactly in every run, whatever the names are and whatever fails: a condition on the list
      and the listing alone. */
  lemma EveryRunCountsExactlyIff(v: NodeView, excluded: set<string>, targets: seq<string>)
    requires DistinctIds(v.listing) && "" !in Ids(v.listing)
    ensures EveryRunCountsExactly(v, excluded, targets) <==> AlwaysCountsOnce(v, excluded, targets)
  {
    if AlwaysCountsOnce(v, excluded, targets) {
      forall order, calls, after, removed
        | RemovalRun(v, excluded, targets, order, calls) && Effect(v.listing, calls, after, removed)
        ensures |v.listing| - |after| == removed
      {
        AlwaysCountsOnceSuffices(v, excluded, targets, order, calls, after, removed);
      }
    }
    if EveryRunCountsExactly(v, excluded, targets) {
      CountsExactlyOnlyIf(v, excluded, targets);
    }
  }

  /** A list of distinct image IDs, optionally with `*`, always counts exactly, whatever fails: each image is
      successfully deleted at most once. IDs of images that are not on the node do no harm. */
  lemma DistinctIdsCountExactly(v: NodeView, excluded: set<string>, targets: seq<string>, order: seq<string>,
                                calls: seq<Call>, after: seq<RawImage>, removed: nat)
    requires DistinctIds(v.listing) && IdHypothesis(v.listing)
    requires DistinctIdTargets(v, targets)
    requires RemovalRun(v, excluded, targets, order, calls)
    requires Effect(v.listing, calls, after, removed)
    ensures NoRepeatedSuccess(calls)
    ensures |v.listing| - |after| == removed
  {
    ResolvedDistinct(v, excluded, targets);
    forall t | t in EligibleTargets(v, excluded, targets)
      ensures NonRunning(v)[t] == t
    {
      EligibleIdIsItself(v, excluded, t);
    }
    AlwaysCountsOnceSuffices(v, excluded, targets, order, calls, after, removed);
  }

  lemma NoRepeatAcross(first: seq<Call>, second: seq<Call>)
    requires NoRepeatedSuccess(first) && NoRepeatedSuccess(second)
    requires forall c :: c in second ==> c.id !in Done(first)
    ensures NoRepeatedSuccess(first + second)
  {
    var calls := first + second;
    DoneMeaning(first);
    forall i, j | 0 <= i < j < |calls| && calls[i].ok && calls[j].ok ensures calls[i].id != calls[j].id {
      if j < |first| {
        assert calls[i] == first[i] && calls[j] == first[j];
      } else if i < |first| {
        assert calls[i] == first[i] && first[i] in first && first[i] == Call(calls[i].id, true);
        assert calls[j] == second[j - |first|] && second[j - |first|] in second;
      } else {
        assert calls[i] == second[i - |first|] && calls[j] == second[j - |first|];
      }
    }
  }

  /** An image ID is listed here, or is not on this node and then is no reference of a listed image either. */
  ghost predicate IdTarget(v: NodeView, target: string) {
    target in Ids(v.listing) || target !in NonRunning(v)
  }

  ghost predicate DistinctIdTargets(v: NodeView, targets: seq<string>) {
    && (forall t :: t in targets ==> t == "*" || IdTarget(v, t))
    && forall i, j :: 0 <= i < j < |targets| && targets[i] == targets[j] ==> targets[i] == "*"
  }

  lemma ShorterDistinctIdTargets(v: NodeView, targets: seq<string>, n: nat)
    requires n <= |targets| && DistinctIdTargets(v, targets)
    ensures DistinctIdTargets(v, targets[..n])
  {
    assert forall t :: t in targets[..n] ==> t in targets;
  }

  lemma {:induction false} ResolvedDistinct(v: NodeView, excluded: set<string>, targets: seq<string>)
    requires IdHypothesis(v.listing) && DistinctIdTargets(v, targets)
    ensures NoDuplicates(Resolved(v, excluded, targets))
    ensures forall id :: id in Resolved(v, excluded, targets) ==> id in targets && id != "*"
  {
    if targets != [] {
      var n := |targets| - 1;
      ShorterDistinctIdTargets(v, targets, n);
      ResolvedDistinct(v, excluded, targets[..n]);
      assert targets[n] in targets;
      assert forall t :: t in targets[..n] ==> t in targets;
      if Eligible(v, excluded, targets[n]) {
        EligibleIdIsItself(v, excluded, targets[n]);
        forall i | 0 <= i < n ensures targets[..n][i] != targets[n] {
          assert targets[..n][i] == targets[i];
        }
        var before := Resolved(v, excluded, targets[..n]);
        assert targets[n] !in before;
        assert Resolved(v, excluded, targets) == before + [targets[n]];
      }
    }
  }

  lemma TwoSuccesses(listing: seq<RawImage>, id: string)
    requires DistinctIds(listing) && id in Ids(listing) && id != ""
    ensures var calls := [Call(id, true)] + [Call(id, true)];
            && Effect(listing, calls, Without(listing, {id}), 2)
            && |listing| - |Without(listing, {id})| == 1
  {
    var c := Call(id, true);
    SuccessesConcat([c], [c]);
    assert [c][..0] == [];
    assert Successes([c]) == 1;
    RemovedConcat([c], [c]);
    assert Removed([c]) == {id} by { assert [c][0] == c; }
    assert Removed([c] + [c]) == {id};
    LostCount(listing, {id});
    assert {id} * Ids(listing) == {id};
  }

  /** An image listed by its ID and by its tag is counted twice. */
  lemma AliasesAreCountedTwice(id: string, tag: string) returns (v: NodeView, calls: seq<Call>, after: seq<RawImage>)
    requires id != "" && id != "*" && tag != "*" && id != tag
    ensures IdHypothesis(v.listing) && DistinctIds(v.listing)
    ensures RemovalRun(v, {}, [id] + [tag], [], calls) && NoFailure(calls)
    ensures Effect(v.listing, calls, after, 2) && |v.listing| - |after| == 1
  {
    var c := Call(id, true);
    v, calls := TaggedNode(id, [tag]), [c] + [c];
    after := Without(v.listing, {id});
    TaggedNodeFacts(id, [tag]);
    TwoSuccesses(v.listing, id);
    assert [tag][0] in Elems([tag]);
    OneTarget(v, {}, id);
    TargetCalls(v, {}, [id], tag, [c], true);
    WholeRun(v, {}, [id] + [tag], calls, [], []);
  }
}
