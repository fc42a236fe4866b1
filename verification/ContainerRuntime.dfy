/** The node's container runtime behind the CRI client: an image store that lists, and deletes by ID. */
module ContainerRuntime {
  import opened Wrappers
  import opened Images
  import opened AliasIndex

  /** One call of `DeleteImage` and whether it returned without error. */
  datatype Call = Call(id: string, ok: bool)

  ghost predicate DistinctIds(images: seq<RawImage>) {
    forall i, j :: 0 <= i < j < |images| ==> images[i].id != images[j].id
  }

  function Without(images: seq<RawImage>, ids: set<string>): seq<RawImage> {
    if images == [] then []
    else
      var n := |images| - 1;
      var rest := Without(images[..n], ids);
      if images[n].id in ids then rest else rest + [images[n]]
  }

  /** The IDs that successful calls took from the store; the client drops a call for the empty ID. */
  function Removed(calls: seq<Call>): set<string> {
    set c | c in calls && c.ok && c.id != "" :: c.id
  }

  function Successes(calls: seq<Call>): nat {
    if calls == [] then 0
    else Successes(calls[..|calls| - 1]) + if calls[|calls| - 1].ok then 1 else 0
  }

  /** `calls` and `failedListings` are history. */
  class Runtime {
    var images: seq<RawImage>
    var containers: seq<string>
    var calls: seq<Call>
    var failedListings: nat

    ghost predicate Valid()
      reads this
    {
      DistinctIds(images)
    }

    ghost function View(): NodeView
      reads this
    {
      NodeView(images, containers)
    }

    constructor (images: seq<RawImage>, containers: seq<string>)
      requires DistinctIds(images)
      ensures Valid() && View() == NodeView(images, containers) && calls == []
    {
      this.images, this.containers, calls, failedListings := images, containers, [], 0;
    }

    method ListImages() returns (r: Option<seq<RawImage>>)
      modifies `failedListings
      ensures r.Some? ==> r.value == images && failedListings == old(failedListings)
      ensures r.None? ==> failedListings == old(failedListings) + 1
    {
      r := Some(images);
      if * {
        r, failedListings := None, failedListings + 1;
      }
    }

    method ListContainers() returns (r: Option<seq<string>>)
      modifies `failedListings
      ensures r.Some? ==> r.value == containers && failedListings == old(failedListings)
      ensures r.None? ==> failedListings == old(failedListings) + 1
    {
      r := Some(containers);
      if * {
        r, failedListings := None, failedListings + 1;
      }
    }

    /** An empty ID counts as deleted without asking the runtime; any other call may fail, and then leaves the store
        as it was. An image that is not there counts as deleted too. */
    method DeleteImage(id: string) returns (ok: bool)
      requires Valid()
      modifies `images, `calls
      ensures Valid()
      ensures calls == old(calls) + [Call(id, ok)]
      ensures Effect(old(images), [Call(id, ok)], images, if ok then 1 else 0)
      ensures id == "" ==> ok
    {
      ok := true;
      if id != "" {
        if * { ok := false; }
      }
      calls := calls + [Call(id, ok)];
      ghost var taken := Removed([Call(id, ok)]);
      assert taken == if ok && id != "" then {id} else {};
      assert [Call(id, ok)][..0] == [];
      WithoutDistinct(images, taken);
      if taken !! Ids(images) {
        WithoutNone(images, taken);
      }
      if ok && id != "" {
        images := Without(images, {id});
      }
    }

    /** Between two listings the node lives on: images come and go, containers start and stop. */
    method Churn(newImages: seq<RawImage>, newContainers: seq<string>)
      requires DistinctIds(newImages)
      modifies `images, `containers
      ensures Valid() && View() == NodeView(newImages, newContainers)
    {
      images, containers := newImages, newContainers;
    }
  }

  // ---- the store's arithmetic

  lemma {:induction false} WithoutMeaning(images: seq<RawImage>, ids: set<string>)
    ensures forall raw :: raw in Without(images, ids) <==> raw in images && raw.id !in ids
    ensures Ids(Without(images, ids)) == Ids(images) - ids
  {
    if images != [] {
      var n := |images| - 1;
      WithoutMeaning(images[..n], ids);
      assert forall raw :: raw in images <==> raw in images[..n] || raw == images[n];
    }
    forall id | id in Ids(images) - ids ensures id in Ids(Without(images, ids)) {
      var raw :| raw in images && raw.id == id;
      assert raw in Without(images, ids);
    }
  }

  lemma {:induction false} WithoutNone(images: seq<RawImage>, ids: set<string>)
    requires Ids(images) !! ids
    ensures Without(images, ids) == images
  {
    if images != [] {
      var n := |images| - 1;
      assert forall raw :: raw in images[..n] ==> raw in images;
      assert images[n] in images;
      WithoutNone(images[..n], ids);
      assert images == images[..n] + [images[n]];
    }
  }

  lemma NothingRemoved(images: seq<RawImage>)
    ensures Without(images, Removed([])) == images
  {
    assert Removed([]) == {};
    WithoutNone(images, {});
  }

  lemma {:induction false} WithoutDistinct(images: seq<RawImage>, ids: set<string>)
    requires DistinctIds(images)
    ensures DistinctIds(Without(images, ids))
  {
    if images != [] {
      var n := |images| - 1;
      WithoutDistinct(images[..n], ids);
      WithoutMeaning(images[..n], ids);
      var w := Without(images[..n], ids);
      forall i | 0 <= i < |w| ensures w[i].id != images[n].id {
        assert w[i] in w;
        assert w[i] in images[..n];
      }
    }
  }

  lemma {:induction false} WithoutTwice(images: seq<RawImage>, first: set<string>, second: set<string>)
    ensures Without(Without(images, first), second) == Without(images, first + second)
  {
    if images != [] {
      var n := |images| - 1;
      WithoutTwice(images[..n], first, second);
      var w := Without(images[..n], first);
      if images[n].id !in first {
        assert (w + [images[n]])[..|w|] == w;
      }
    }
  }

  lemma LastId(images: seq<RawImage>)
    requires DistinctIds(images) && images != []
    ensures var n := |images| - 1;
            Ids(images) == Ids(images[..n]) + {images[n].id} && images[n].id !in Ids(images[..n])
  {
    var n := |images| - 1;
    assert images == images[..n] + [images[n]];
    assert forall raw :: raw in images <==> raw in images[..n] || raw == images[n];
  }

  /** An ID-keyed store loses one image for every listed ID taken from it. */
  lemma {:induction false} LostCount(images: seq<RawImage>, ids: set<string>)
    requires DistinctIds(images)
    ensures |images| - |Without(images, ids)| == |ids * Ids(images)|
  {
    if images == [] {
      assert ids * Ids(images) == {};
    } else {
      var n := |images| - 1;
      var last, before := images[n], images[..n];
      LostCount(before, ids);
      LastId(images);
      var lost := ids * Ids(before);
      assert last.id !in lost;
      if last.id in ids {
        assert ids * Ids(images) == lost + {last.id};
      } else {
        assert ids * Ids(images) == lost;
      }
    }
  }

  /** Successful calls are at least as many as the IDs they took. */
  lemma {:induction false} RemovedAtMostSuccesses(calls: seq<Call>)
    ensures |Removed(calls)| <= Successes(calls)
  {
    if calls == [] {
      assert Removed(calls) == {};
    } else {
      var n := |calls| - 1;
      RemovedAtMostSuccesses(calls[..n]);
      RemovedAppend(calls[..n], calls[n]);
      assert calls == calls[..n] + [calls[n]];
    }
  }

  lemma RemovedAppend(calls: seq<Call>, c: Call)
    ensures Removed(calls + [c]) == Removed(calls) + if c.ok && c.id != "" then {c.id} else {}
  {
    assert forall x :: x in calls + [c] <==> x in calls || x == c;
  }

  lemma RemovedConcat(a: seq<Call>, b: seq<Call>)
    ensures Removed(a + b) == Removed(a) + Removed(b)
  {
    assert forall x :: x in a + b <==> x in a || x in b;
  }

  lemma {:induction false} SuccessesConcat(a: seq<Call>, b: seq<Call>)
    ensures Successes(a + b) == Successes(a) + Successes(b)
  {
    if b == [] {
      assert a + b == a;
    } else {
      var n := |b| - 1;
      assert (a + b)[..|a + b| - 1] == a + b[..n];
      SuccessesConcat(a, b[..n]);
    }
  }

  // ---- the effect of a sequence of calls

  /** The store lost what the calls removed, and `count` is the number of calls that succeeded. */
  ghost predicate Effect(before: seq<RawImage>, calls: seq<Call>, after: seq<RawImage>, count: nat) {
    after == Without(before, Removed(calls)) && count == Successes(calls)
  }

  lemma NoEffect(images: seq<RawImage>)
    ensures Effect(images, [], images, 0)
  {
    NothingRemoved(images);
  }

  lemma EffectConcat(before: seq<RawImage>, first: seq<Call>, between: seq<RawImage>, m: nat,
                     second: seq<Call>, after: seq<RawImage>, n: nat)
    requires Effect(before, first, between, m) && Effect(between, second, after, n)
    ensures Effect(before, first + second, after, m + n)
  {
    WithoutTwice(before, Removed(first), Removed(second));
    RemovedConcat(first, second);
    SuccessesConcat(first, second);
  }
}
