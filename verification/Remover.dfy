/** The removal engine: which images `removeImages` asks the runtime to delete, and what it counts. */
module Remover {
  import opened Wrappers
  import opened Images
  import opened Exclusion
  import opened AliasIndex
  import opened ContainerRuntime

  // ---- specification of the target loop

  /** For a target only the string itself decides exclusion, unless it is an image ID: then every alias does. */
  ghost predicate Eligible(v: NodeView, excluded: set<string>, target: string) {
    && target != "*"
    && target in NonRunning(v)
    && !Excluded(excluded, RefsOf(ById(v.listing), target))
  }

  /** The IDs the target loop asks for, in order. */
  ghost function Resolved(v: NodeView, excluded: set<string>, targets: seq<string>): seq<string> {
    if targets == [] then []
    else
      var n := |targets| - 1;
      Resolved(v, excluded, targets[..n]) +
      if Eligible(v, excluded, targets[n]) then [NonRunning(v)[targets[n]]] else []
  }

  ghost predicate TargetRun(v: NodeView, excluded: set<string>, targets: seq<string>, calls: seq<Call>) {
    && |calls| == |Resolved(v, excluded, targets)|
    && forall i :: 0 <= i < |calls| ==> calls[i].id == Resolved(v, excluded, targets)[i]
  }

  /** The references, as given, whose deletion succeeded. */
  ghost function DeletedRefs(v: NodeView, excluded: set<string>, targets: seq<string>, calls: seq<Call>): set<string>
    requires TargetRun(v, excluded, targets, calls)
  {
    if targets == [] then {}
    else
      var n, m := |targets| - 1, |calls| - 1;
      if Eligible(v, excluded, targets[n]) then
        DeletedRefs(v, excluded, targets[..n], calls[..m]) + if calls[m].ok then {targets[n]} else {}
      else
        DeletedRefs(v, excluded, targets[..n], calls)
  }

  // ---- specification of the prune loop

  /** What a prune goes for: every unprotected ID the index resolves to that was not recorded as deleted. */
  ghost function PruneSet(v: NodeView, excluded: set<string>, deleted: set<string>): set<string> {
    Unprotected(v, excluded) - deleted
  }

  /** The IDs whose deletion succeeded. */
  ghost function Done(calls: seq<Call>): set<string> {
    if calls == [] then {}
    else
      var m := |calls| - 1;
      Done(calls[..m]) + if calls[m].ok then {calls[m].id} else {}
  }

  /** The prune loop when the range over the index yields its keys in `order`: a candidate that is not yet deleted is
      tried, once more for every further alias if that fails. */
  ghost predicate PruneRun(index: map<string, string>, candidates: set<string>, order: seq<string>, calls: seq<Call>)
    requires Elems(order) <= index.Keys
  {
    if order == [] then calls == []
    else
      var n, m := |order| - 1, |calls| - 1;
      assert order[n] in Elems(order) && Elems(order[..n]) <= Elems(order);
      var id := index[order[n]];
      || (id !in candidates - Done(calls) && PruneRun(index, candidates, order[..n], calls))
      || (m >= 0 && calls[m].id == id && id in candidates - Done(calls[..m])
          && PruneRun(index, candidates, order[..n], calls[..m]))
  }

  ghost predicate IsOrder(order: seq<string>, index: map<string, string>) {
    NoDuplicates(order) && Elems(order) == index.Keys
  }

  /** Every run of `removeImages` on a node that answers `v`, whatever fails, with the map ranged over in `order`. */
  ghost predicate RemovalRun(v: NodeView, excluded: set<string>, targets: seq<string>, order: seq<string>,
                             calls: seq<Call>)
  {
    var k := |Resolved(v, excluded, targets)|;
    && k <= |calls|
    && TargetRun(v, excluded, targets, calls[..k])
    && if "*" in targets then
         var candidates := PruneSet(v, excluded, DeletedRefs(v, excluded, targets, calls[..k]));
         IsOrder(order, NonRunning(v)) && PruneRun(NonRunning(v), candidates, order, calls[k..])
       else
         k == |calls|
  }

  // ---- the target loop's bookkeeping

  lemma TargetPasses(v: NodeView, excluded: set<string>, targets: seq<string>, target: string, calls: seq<Call>)
    requires TargetRun(v, excluded, targets, calls) && !Eligible(v, excluded, target)
    ensures TargetRun(v, excluded, targets + [target], calls)
    ensures DeletedRefs(v, excluded, targets + [target], calls) == DeletedRefs(v, excluded, targets, calls)
  {
    assert (targets + [target])[..|targets|] == targets;
  }

  lemma TargetCalls(v: NodeView, excluded: set<string>, targets: seq<string>, target: string, calls: seq<Call>,
                    ok: bool)
    requires TargetRun(v, excluded, targets, calls) && Eligible(v, excluded, target)
    ensures var after := calls + [Call(NonRunning(v)[target], ok)];
            && TargetRun(v, excluded, targets + [target], after)
            && DeletedRefs(v, excluded, targets + [target], after)
               == DeletedRefs(v, excluded, targets, calls) + if ok then {target} else {}
  {
    assert (targets + [target])[..|targets|] == targets;
    var after := calls + [Call(NonRunning(v)[target], ok)];
    assert after[..|calls|] == calls;
  }

  // ---- the prune loop's bookkeeping

  /** Visiting one more key of the index extends a run of the prune loop by a skipped key or by a call. */
  lemma VisitKey(index: map<string, string>, candidates: set<string>, keys: seq<string>, i: nat, calls: seq<Call>)
    requires i < |keys| && Elems(keys) <= index.Keys && Elems(keys[..i]) <= index.Keys
    requires PruneRun(index, candidates, keys[..i], calls)
    ensures keys[i] in index
    ensures Elems(keys[..i + 1]) <= index.Keys
    ensures var id := index[keys[i]];
            if id in candidates - Done(calls) then
              forall ok :: PruneRun(index, candidates, keys[..i + 1], calls + [Call(id, ok)])
            else
              PruneRun(index, candidates, keys[..i + 1], calls)
  {
    assert keys[i] in Elems(keys);
    assert Elems(keys[..i + 1]) <= Elems(keys);
    assert keys[..i + 1][..i] == keys[..i];
    var id := index[keys[i]];
    if id in candidates - Done(calls) {
      forall ok ensures PruneRun(index, candidates, keys[..i + 1], calls + [Call(id, ok)]) {
        assert (calls + [Call(id, ok)])[..|calls|] == calls;
      }
    }
  }

  lemma CallAppend(before: seq<Call>, already: set<string>, calls: seq<Call>, c: Call)
    ensures before + calls + [c] == before + (calls + [c])
    ensures already + Done(calls + [c]) == already + Done(calls) + if c.ok then {c.id} else {}
  {
    assert (calls + [c])[..|calls|] == calls;
  }

  lemma WholeRun(v: NodeView, excluded: set<string>, targets: seq<string>, first: seq<Call>, order: seq<string>,
                 second: seq<Call>)
    requires TargetRun(v, excluded, targets, first)
    requires if "*" in targets then
               IsOrder(order, NonRunning(v)) &&
               PruneRun(NonRunning(v), PruneSet(v, excluded, DeletedRefs(v, excluded, targets, first)), order, second)
             else
               second == []
    ensures RemovalRun(v, excluded, targets, order, first + second)
    ensures second == [] ==> first + second == first
    ensures forall before: seq<Call> :: before + first + second == before + (first + second)
  {
    var calls := first + second;
    assert calls[..|first|] == first && calls[|first|..] == second;
  }

  // ---- the two loops

  method RemoveTargets(rt: Runtime, targets: seq<string>, excluded: set<string>, nonRunning: map<string, string>,
                       idToImage: map<string, Image>, ghost v: NodeView)
    returns (removed: nat, deleted: set<string>, prune: bool, ghost calls: seq<Call>)
    requires rt.Valid() && nonRunning == NonRunning(v) && DescribesAll(idToImage, ById(v.listing))
    modifies rt`images, rt`calls
    ensures rt.Valid()
    ensures rt.calls == old(rt.calls) + calls && Effect(old(rt.images), calls, rt.images, removed)
    ensures TargetRun(v, excluded, targets, calls) && deleted == DeletedRefs(v, excluded, targets, calls)
    ensures prune <==> "*" in targets
  {
    hide DistinctIds;
    hide Excluded;
    hide NonRunning;
    hide ById;
    hide RefsOf;
    hide ImageRefs;
    hide DescribesAll;
    removed, deleted, prune, calls := 0, {}, false, [];
    NoEffect(rt.images);
    assert TargetRun(v, excluded, targets[..0], calls) && DeletedRefs(v, excluded, targets[..0], calls) == {};
    hide TargetRun;
    hide DeletedRefs;
    hide Effect;
    for i := 0 to |targets|
      invariant rt.Valid()
      invariant rt.calls == old(rt.calls) + calls && Effect(old(rt.images), calls, rt.images, removed)
      invariant TargetRun(v, excluded, targets[..i], calls)
      invariant deleted == DeletedRefs(v, excluded, targets[..i], calls)
      invariant prune <==> "*" in targets[..i]
    {
      var target := targets[i];
      assert targets[..i + 1] == targets[..i] + [target];
      if target == "*" {
        TargetPasses(v, excluded, targets[..i], target, calls);
        prune := true;
        continue;
      }
      if target in nonRunning {
        ImageRefsAreRefs(idToImage, ById(v.listing), target);
        var ex := IsExcluded(excluded, target, idToImage);
        if ex {
          TargetPasses(v, excluded, targets[..i], target, calls);
          continue;
        }
        var id := nonRunning[target];
        ghost var before, count := rt.images, removed;
        var ok := rt.DeleteImage(id);
        TargetCalls(v, excluded, targets[..i], target, calls, ok);
        EffectConcat(old(rt.images), calls, before, count, [Call(id, ok)], rt.images, if ok then 1 else 0);
        calls := calls + [Call(id, ok)];
        if !ok {
          continue;
        }
        deleted := deleted + {target};
        removed := removed + 1;
      } else {
        TargetPasses(v, excluded, targets[..i], target, calls);
      }
    }
    assert targets[..|targets|] == targets;
  }

  method Prune(rt: Runtime, excluded: set<string>, already: set<string>, nonRunning: map<string, string>,
               idToImage: map<string, Image>, ghost unprotected: set<string>)
    returns (removed: nat, ghost order: seq<string>, ghost calls: seq<Call>)
    requires rt.Valid() && Clears(unprotected, nonRunning, excluded, idToImage)
    modifies rt`images, rt`calls
    ensures rt.Valid()
    ensures rt.calls == old(rt.calls) + calls && Effect(old(rt.images), calls, rt.images, removed)
    ensures IsOrder(order, nonRunning) && PruneRun(nonRunning, unprotected - already, order, calls)
  {
    removed, calls := 0, [];
    var deleted := already;
    ghost var candidates := unprotected - already;
    var keys := Range(nonRunning.Keys);
    order := keys;
    NoEffect(rt.images);
    assert keys[..0] == [];
    for i := 0 to |keys|
      invariant rt.Valid()
      invariant rt.calls == old(rt.calls) + calls && Effect(old(rt.images), calls, rt.images, removed)
      invariant deleted == already + Done(calls)
      invariant Elems(keys[..i]) <= nonRunning.Keys && PruneRun(nonRunning, candidates, keys[..i], calls)
    {
      assert keys[i] in Elems(keys);
      var id := nonRunning[keys[i]];
      VisitKey(nonRunning, candidates, keys, i, calls);
      if id in deleted {
        continue;
      }
      var ex := IsExcluded(excluded, id, idToImage);
      if ex {
        continue;
      }
      ghost var before, count := rt.images, removed;
      var ok := rt.DeleteImage(id);
      EffectConcat(old(rt.images), calls, before, count, [Call(id, ok)], rt.images, if ok then 1 else 0);
      CallAppend(old(rt.calls), already, calls, Call(id, ok));
      calls := calls + [Call(id, ok)];
      if !ok {
        continue;
      }
      deleted := deleted + {id};
      removed := removed + 1;
    }
    assert keys[..|keys|] == keys;
  }

  /** List, index, delete the targets, and prune if `*` was among them. A failed listing deletes nothing. */
  method RemoveImages(rt: Runtime, targets: seq<string>, excluded: set<string>)
    returns (r: Option<nat>, ghost order: seq<string>, ghost calls: seq<Call>)
    requires rt.Valid()
    modifies rt`images, rt`calls, rt`failedListings
    ensures rt.Valid()
    ensures rt.calls == old(rt.calls) + calls
    ensures r.None? <==> rt.failedListings > old(rt.failedListings)
    ensures r.None? ==> calls == [] && rt.images == old(rt.images)
    ensures r.Some? ==> RemovalRun(old(rt.View()), excluded, targets, order, calls)
    ensures r.Some? ==> Effect(old(rt.images), calls, rt.images, r.value)
  {
    ghost var v := rt.View();
    order, calls := [], [];
    var images := rt.ListImages();
    if images.None? {
      return None, [], [];
    }
    var allImages, idToImage := DescribeListing(images.value);
    var containers := rt.ListContainers();
    if containers.None? {
      return None, [], [];
    }
    var running := GetRunningImages(containers.value, idToImage, ById(v.listing));
    var nonRunning := GetNonRunningImages(running, allImages, idToImage, v.listing);
    var removed, deleted, prune, first := RemoveTargets(rt, targets, excluded, nonRunning, idToImage, v);
    if prune {
      ghost var between := rt.images;
      UnprotectedClears(v, excluded, idToImage);
      var pruned, keys, second := Prune(rt, excluded, deleted, nonRunning, idToImage, Unprotected(v, excluded));
      EffectConcat(old(rt.images), first, between, removed, second, rt.images, pruned);
      WholeRun(v, excluded, targets, first, keys, second);
      return Some(removed + pruned), keys, first + second;
    }
    WholeRun(v, excluded, targets, first, [], []);
    return Some(removed), [], first;
  }
}
