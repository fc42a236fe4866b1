/** Collector, scanner and remover end to end: what a pipeline run may delete, and how it compares with a prune. */
module Pipeline {
  import opened Wrappers
  import opened Images
  import opened Exclusion
  import opened AliasIndex
  import opened ContainerRuntime
  import opened Collector
  import opened Scanner
  import opened Remover
  import opened RemovalProperties

  /** How a scanner container answers: its verdict on each image, when its total timeout fires, and whether images it
      could not scan are to be deleted. */
  datatype ScannerRun = ScannerRun(outcome: nat -> Outcome, deadline: nat, deleteScanFailedImages: bool)

  /** What the remover receives: the collector's list, or what the scanner makes of it. */
  function SentImages(collected: seq<Image>, scanner: Option<ScannerRun>): seq<Image> {
    match scanner
    case None => collected
    case Some(s) =>
      ImagesToSend(Sift(collected, s.outcome, s.deadline, Vulnerable),
                   Sift(collected, s.outcome, s.deadline, Failed), s.deleteScanFailedImages)
  }

  /** The scanner found the image OK. */
  ghost predicate FoundOK(collected: seq<Image>, scanner: Option<ScannerRun>, id: string) {
    scanner.Some? && exists p: nat :: p < |collected| && collected[p].id == id
                       && ClassAt(scanner.value.outcome, scanner.value.deadline, p) == Clean
  }

  /** The hypothesis across two listings: besides holding in each, no ID of the first names a different image of the
      second. */
  ghost predicate IdHypothesisAcross(before: seq<RawImage>, after: seq<RawImage>) {
    && IdHypothesis(before)
    && IdHypothesis(after)
    && forall id, raw :: id in Ids(before) && raw in after && id in RawAliases(raw) ==> raw.id == id
  }

  /** The image was sent, and on the changed node it is still listed, unused and unprotected. */
  ghost predicate CalledFor(collected: seq<Image>, scanner: Option<ScannerRun>, v: NodeView, excluded: set<string>,
                            id: string)
  {
    && id in ImageIds(SentImages(collected, scanner))
    && id in Ids(v.listing) && id !in Running(v) && !ProtectedId(v, excluded, id)
  }

  /** One pod on one node. Between the two listings the node changes arbitrarily, and the exclusion list may too. */
  method RunPipeline(rt: Runtime, scanner: Option<ScannerRun>, collectorExcluded: set<string>,
                     removerExcluded: set<string>, newImages: seq<RawImage>, newContainers: seq<string>)
    returns (r: Option<nat>, ghost collected: seq<Image>, ghost order: seq<string>, ghost calls: seq<Call>)
    requires rt.Valid() && DistinctIds(newImages) && IdHypothesisAcross(rt.images, newImages)
    modifies rt
    ensures rt.Valid() && rt.calls == old(rt.calls) + calls
    ensures r.None? <==> rt.failedListings > old(rt.failedListings)
    ensures r.Some? ==> Collected(old(rt.View()), collectorExcluded, collected)
    ensures r.Some? ==> RemovalRun(NodeView(newImages, newContainers), removerExcluded,
                                   ImageIds(SentImages(collected, scanner)), order, calls)
    ensures r.Some? ==> Effect(newImages, calls, rt.images, r.value) && |newImages| - |rt.images| == r.value
    ensures forall c :: c in calls ==>
              && c.id in ImageIds(collected)
              && !FoundOK(collected, scanner, c.id)
              && c.id in Ids(newImages)
              && c.id !in newContainers
              && !ProtectedId(NodeView(newImages, newContainers), removerExcluded, c.id)
    ensures r.Some? ==>
              var v := NodeView(newImages, newContainers);
              forall id ::
                (exists c :: c in calls && c.id == id) <==> CalledFor(collected, scanner, v, removerExcluded, id)
    ensures r.None? ==> calls == []
  {
    collected, order, calls := [], [], [];
    ghost var v1 := rt.View();
    var images := GetImages(rt, collectorExcluded);
    if images.None? {
      return None, [], [], [];
    }
    collected := images.value;
    var sent := images.value;
    if scanner.Some? {
      var s := scanner.value;
      var vulnerable, failed, timedOut := ScanAll(images.value, s.outcome, s.deadline);
      sent := ImagesToSend(vulnerable, failed, s.deleteScanFailedImages);
    }
    rt.Churn(newImages, newContainers);
    ghost var v2 := rt.View();
    r, order, calls := RemoveImages(rt, ImageIds(sent), removerExcluded);
    if r.Some? {
      PipelineSafety(v1, collectorExcluded, collected, scanner, v2, removerExcluded, order, calls);
      PipelineCount(v1, collectorExcluded, collected, scanner, v2, removerExcluded, order, calls, rt.images, r.value);
      forall id
        ensures (exists c :: c in calls && c.id == id) <==> CalledFor(collected, scanner, v2, removerExcluded, id)
      {
        SentAreCalledFor(v1, collectorExcluded, collected, scanner, v2, removerExcluded, order, calls, id);
      }
    }
  }

  // ---- safety

  /** What the scanner passes on was collected and was not found OK. */
  lemma SentMeaning(collected: seq<Image>, scanner: Option<ScannerRun>)
    requires NoDuplicates(ImageIds(collected))
    ensures forall id :: id in ImageIds(SentImages(collected, scanner)) ==>
              id in ImageIds(collected) && !FoundOK(collected, scanner, id)
  {
    if scanner.Some? {
      var s := scanner.value;
      var v := Sift(collected, s.outcome, s.deadline, Vulnerable);
      var f := Sift(collected, s.outcome, s.deadline, Failed);
      var pv := SiftKeepsOrder(collected, s.outcome, s.deadline, Vulnerable);
      var pf := SiftKeepsOrder(collected, s.outcome, s.deadline, Failed);
      var sent := SentImages(collected, scanner);
      forall k | 0 <= k < |sent|
        ensures sent[k].id in ImageIds(collected) && !FoundOK(collected, scanner, sent[k].id)
      {
        var p := if k < |v| then pv[k] else pf[k - |v|];
        assert collected[p] == sent[k] && ImageIds(collected)[p] == sent[k].id;
        forall q: nat | q < |collected| && collected[q].id == sent[k].id ensures q == p {
          assert ImageIds(collected)[q] == ImageIds(collected)[p];
        }
      }
    } else {
      forall id ensures !FoundOK(collected, scanner, id) {}
    }
  }

  lemma SentAreListed(v1: NodeView, excluded1: set<string>, collected: seq<Image>, scanner: Option<ScannerRun>)
    requires Collected(v1, excluded1, collected)
    ensures forall id :: id in ImageIds(SentImages(collected, scanner)) ==>
              id in ImageIds(collected) && !FoundOK(collected, scanner, id) && id in Ids(v1.listing)
  {
    SentMeaning(collected, scanner);
    ByIdListed(v1.listing);
    forall id | id in ImageIds(collected) ensures id in Ids(v1.listing) {
      var i :| 0 <= i < |collected| && ImageIds(collected)[i] == id;
      assert collected[i].id in ById(v1.listing);
    }
  }

  /** A collected ID that is eligible on the changed node is still that image. */
  lemma SentResolvesToItself(v1: NodeView, v2: NodeView, excluded2: set<string>, t: string)
    requires IdHypothesisAcross(v1.listing, v2.listing)
    requires t in Ids(v1.listing) && Eligible(v2, excluded2, t)
    ensures NonRunning(v2)[t] == t && t in Ids(v2.listing)
  {
    NonRunningIsSafe(v2, t);
    ByIdListed(v2.listing);
    var id := NonRunning(v2)[t];
    assert ById(v2.listing)[id] in v2.listing && ById(v2.listing)[id].id == id;
  }

  /** Every ID the remover deletes was listed by the collector and not found OK by the scanner, and on the remover's
      own listing is an image no container refers to and no exclusion entry covers, under any of its references. */
  lemma PipelineSafety(v1: NodeView, excluded1: set<string>, collected: seq<Image>, scanner: Option<ScannerRun>,
                       v2: NodeView, excluded2: set<string>, order: seq<string>, calls: seq<Call>)
    requires IdHypothesisAcross(v1.listing, v2.listing)
    requires Collected(v1, excluded1, collected)
    requires RemovalRun(v2, excluded2, ImageIds(SentImages(collected, scanner)), order, calls)
    ensures forall c :: c in calls ==>
              && c.id in ImageIds(SentImages(collected, scanner))
              && c.id in ImageIds(collected)
              && !FoundOK(collected, scanner, c.id)
              && c.id in Ids(v2.listing)
              && c.id !in Running(v2) && c.id !in v2.containers
              && !ProtectedId(v2, excluded2, c.id)
  {
    var targets := ImageIds(SentImages(collected, scanner));
    SentAreListed(v1, excluded1, collected, scanner);
    DeletionSafety(v2, excluded2, targets, order, calls);
    forall t | t in targets && Eligible(v2, excluded2, t) ensures NonRunning(v2)[t] == t {
      SentResolvesToItself(v1, v2, excluded2, t);
    }
    forall c | c in calls
      ensures c.id in targets && c.id in ImageIds(collected) && !FoundOK(collected, scanner, c.id)
      ensures !ProtectedId(v2, excluded2, c.id)
    {
      assert "*" !in targets;
      CallReason(v2, excluded2, targets, order, calls, c);
      AskedForMeaning(v2, excluded2, targets, c.id);
      ResolvedMeaning(v2, excluded2, targets);
    }
  }

  /** What the pipeline calls for: exactly the images sent that are still listed, unused and unprotected. */
  lemma SentAreCalledFor(v1: NodeView, excluded1: set<string>, collected: seq<Image>, scanner: Option<ScannerRun>,
                         v2: NodeView, excluded2: set<string>, order: seq<string>, calls: seq<Call>, id: string)
    requires IdHypothesisAcross(v1.listing, v2.listing) && Collected(v1, excluded1, collected)
    requires RemovalRun(v2, excluded2, ImageIds(SentImages(collected, scanner)), order, calls)
    ensures (exists c :: c in calls && c.id == id) <==> CalledFor(collected, scanner, v2, excluded2, id)
  {
    var targets := ImageIds(SentImages(collected, scanner));
    if c :| c in calls && c.id == id {
      PipelineSafety(v1, excluded1, collected, scanner, v2, excluded2, order, calls);
    }
    if id in targets && id in Ids(v2.listing) && id !in Running(v2) && !ProtectedId(v2, excluded2, id) {
      IdResolvesToItself(v2, id);
      assert forall key, ref :: key in excluded2 && ref in RefsOf(ById(v2.listing), id) ==> !Covers(key, ref);
      assert AskedFor(v2, excluded2, targets, id);
      AskedIsCalled(v2, excluded2, targets, order, calls, id);
    }
  }

  // ---- what the scanner's part means for one image

  /** Image number `p` is to go: its first report is non-compliant or, if failed images are to be deleted, the timeout
      came before it or none of its references yielded a report. */
  ghost predicate Condemned(collected: seq<Image>, s: ScannerRun, deleteEOLImages: bool,
                            trivy: nat -> string -> Attempt, p: nat)
    requires p < |collected|
  {
    || (p < s.deadline && FirstReportDecides(collected[p], deleteEOLImages, trivy(p), StatusNonCompliant))
    || (s.deleteScanFailedImages &&
        (p >= s.deadline || forall ref :: ref in References(collected[p]) ==> !trivy(p)(ref).Report?))
  }

  lemma CondemnedIsSent(collected: seq<Image>, s: ScannerRun, deleteEOLImages: bool,
                        trivy: nat -> string -> Attempt, p: nat)
    requires ScansWith(s.outcome, collected, deleteEOLImages, trivy) && p < |collected|
    requires Condemned(collected, s, deleteEOLImages, trivy, p)
    ensures collected[p] in SentImages(collected, Some(s))
  {
    ClassMeaning(s.outcome, collected, deleteEOLImages, trivy, s.deadline, p);
    SiftIsComplete(collected, s.outcome, s.deadline, ClassAt(s.outcome, s.deadline, p), p);
  }

  lemma SentIsCondemned(collected: seq<Image>, s: ScannerRun, deleteEOLImages: bool,
                        trivy: nat -> string -> Attempt, k: nat)
    returns (p: nat)
    requires ScansWith(s.outcome, collected, deleteEOLImages, trivy) && k < |SentImages(collected, Some(s))|
    ensures p < |collected| && collected[p] == SentImages(collected, Some(s))[k]
    ensures Condemned(collected, s, deleteEOLImages, trivy, p)
  {
    hide Sift;
    hide FirstReportDecides;
    var v := Sift(collected, s.outcome, s.deadline, Vulnerable);
    if k < |v| {
      var positions := SiftKeepsOrder(collected, s.outcome, s.deadline, Vulnerable);
      p := positions[k];
    } else {
      var positions := SiftKeepsOrder(collected, s.outcome, s.deadline, Failed);
      p := positions[k - |v|];
    }
    ClassMeaning(s.outcome, collected, deleteEOLImages, trivy, s.deadline, p);
  }

  /** With a scanner whose verdicts come from `Scan`, the remover is sent exactly the condemned images. */
  lemma SentExactlyTheCondemned(collected: seq<Image>, s: ScannerRun, deleteEOLImages: bool,
                                trivy: nat -> string -> Attempt)
    requires ScansWith(s.outcome, collected, deleteEOLImages, trivy)
    ensures forall img :: img in SentImages(collected, Some(s)) <==>
              exists p: nat :: p < |collected| && collected[p] == img
                && Condemned(collected, s, deleteEOLImages, trivy, p)
  {
    var sent := SentImages(collected, Some(s));
    forall img | img in sent
      ensures exists p: nat :: p < |collected| && collected[p] == img
                && Condemned(collected, s, deleteEOLImages, trivy, p)
    {
      var k :| 0 <= k < |sent| && sent[k] == img;
      var p := SentIsCondemned(collected, s, deleteEOLImages, trivy, k);
    }
    forall p: nat | p < |collected| && Condemned(collected, s, deleteEOLImages, trivy, p)
      ensures collected[p] in sent
    {
      CondemnedIsSent(collected, s, deleteEOLImages, trivy, p);
    }
  }

  /** So every image the remover deletes was condemned by its own first report, or counted as failed with failed images
      to be deleted. */
  lemma DeletedWereCondemned(v1: NodeView, excluded1: set<string>, collected: seq<Image>, s: ScannerRun,
                             deleteEOLImages: bool, trivy: nat -> string -> Attempt, v2: NodeView,
                             excluded2: set<string>, order: seq<string>, calls: seq<Call>)
    requires IdHypothesisAcross(v1.listing, v2.listing)
    requires Collected(v1, excluded1, collected)
    requires ScansWith(s.outcome, collected, deleteEOLImages, trivy)
    requires RemovalRun(v2, excluded2, ImageIds(SentImages(collected, Some(s))), order, calls)
    ensures forall c :: c in calls ==>
              exists p: nat :: p < |collected| && collected[p].id == c.id
                && Condemned(collected, s, deleteEOLImages, trivy, p)
  {
    PipelineSafety(v1, excluded1, collected, Some(s), v2, excluded2, order, calls);
    SentExactlyTheCondemned(collected, s, deleteEOLImages, trivy);
    var sent := SentImages(collected, Some(s));
    forall c | c in calls
      ensures exists p: nat :: p < |collected| && collected[p].id == c.id
                && Condemned(collected, s, deleteEOLImages, trivy, p)
    {
      var k :| 0 <= k < |sent| && ImageIds(sent)[k] == c.id;
      assert sent[k] in sent;
    }
  }

  /** The pipeline's count is the number of images the node lost to it. */
  lemma PipelineCount(v1: NodeView, excluded1: set<string>, collected: seq<Image>, scanner: Option<ScannerRun>,
                      v2: NodeView, excluded2: set<string>, order: seq<string>, calls: seq<Call>,
                      after: seq<RawImage>, removed: nat)
    requires IdHypothesisAcross(v1.listing, v2.listing) && DistinctIds(v2.listing)
    requires Collected(v1, excluded1, collected)
    requires RemovalRun(v2, excluded2, ImageIds(SentImages(collected, scanner)), order, calls)
    requires Effect(v2.listing, calls, after, removed)
    ensures |v2.listing| - |after| == removed
  {
    var sent := SentImages(collected, scanner);
    var targets := ImageIds(sent);
    SentAreListed(v1, excluded1, collected, scanner);
    SentDistinct(collected, scanner);
    DeletionSafety(v2, excluded2, targets, order, calls);
    assert "*" !in targets;
    var resolved := Resolved(v2, excluded2, targets);
    assert calls[..|resolved|] == calls;
    ResolvedSubsequence(v1, v2, excluded2, targets);
    forall i, j | 0 <= i < j < |calls| && calls[i].ok && calls[j].ok ensures calls[i].id != calls[j].id {
      assert calls[i].id == resolved[i] && calls[j].id == resolved[j];
    }
    CountExactIffNoRepeat(v2, calls, after, removed);
  }

  lemma {:induction false} ResolvedSubsequence(v1: NodeView, v2: NodeView, excluded2: set<string>, targets: seq<string>)
    requires IdHypothesisAcross(v1.listing, v2.listing)
    requires NoDuplicates(targets) && forall t :: t in targets ==> t in Ids(v1.listing)
    ensures NoDuplicates(Resolved(v2, excluded2, targets))
    ensures forall id :: id in Resolved(v2, excluded2, targets) ==> id in targets
  {
    if targets != [] {
      var n := |targets| - 1;
      assert forall t :: t in targets[..n] ==> t in targets;
      ResolvedSubsequence(v1, v2, excluded2, targets[..n]);
      assert targets[n] in targets;
      var before := Resolved(v2, excluded2, targets[..n]);
      if Eligible(v2, excluded2, targets[n]) {
        SentResolvesToItself(v1, v2, excluded2, targets[n]);
        assert targets[n] !in targets[..n];
        assert Resolved(v2, excluded2, targets) == before + [targets[n]];
      } else {
        assert Resolved(v2, excluded2, targets) == before;
      }
    }
  }

  lemma SentDistinct(collected: seq<Image>, scanner: Option<ScannerRun>)
    requires NoDuplicates(ImageIds(collected))
    ensures NoDuplicates(ImageIds(SentImages(collected, scanner)))
  {
    if scanner.Some? {
      var s := scanner.value;
      var pv := SiftKeepsOrder(collected, s.outcome, s.deadline, Vulnerable);
      var pf := SiftKeepsOrder(collected, s.outcome, s.deadline, Failed);
      var sent := SentImages(collected, scanner);
      var positions := if s.deleteScanFailedImages then pv + pf else pv;
      forall k, l | 0 <= k < l < |sent| ensures sent[k].id != sent[l].id {
        assert positions[k] != positions[l];
        assert ImageIds(collected)[positions[k]] == sent[k].id;
        assert ImageIds(collected)[positions[l]] == sent[l].id;
      }
    }
  }

  // ---- the pipeline without a scanner is a prune

  /** Under the ID hypothesis, with nothing failing: the collector and the remover, with the scanner off, leave exactly
      the store and return exactly the count of a prune of the same node. */
  lemma PipelineEqualsPrune(v: NodeView, excluded: set<string>, collected: seq<Image>,
                            order1: seq<string>, calls1: seq<Call>, after1: seq<RawImage>, removed1: nat,
                            order2: seq<string>, calls2: seq<Call>, after2: seq<RawImage>, removed2: nat)
    requires IdHypothesis(v.listing) && Collected(v, excluded, collected)
    requires RemovalRun(v, excluded, ImageIds(SentImages(collected, None)), order1, calls1) && NoFailure(calls1)
    requires RemovalRun(v, excluded, ["*"], order2, calls2) && NoFailure(calls2)
    requires Effect(v.listing, calls1, after1, removed1) && Effect(v.listing, calls2, after2, removed2)
    ensures after1 == after2 == Without(v.listing, Unprotected(v, excluded))
    ensures removed1 == removed2 == |Unprotected(v, excluded)|
  {
    PipelineDoom(v, excluded, collected);
    PruneDoom(v, excluded);
    FailureFreeRun(v, excluded, ImageIds(collected), order1, calls1);
    FailureFreeRun(v, excluded, ["*"], order2, calls2);
  }

  lemma PruneDoom(v: NodeView, excluded: set<string>)
    requires IdHypothesis(v.listing)
    ensures Resolved(v, excluded, ["*"]) == []
    ensures EligibleTargets(v, excluded, ["*"]) == {}
    ensures "*" in ["*"]
    ensures Doomed(v, excluded, ["*"]) - {""} == Unprotected(v, excluded)
  {
    UnprotectedAreIds(v, excluded);
    StarResolvesToNothing(v, excluded);
    assert ["*"][0] == "*";
  }

  lemma StarResolvesToNothing(v: NodeView, excluded: set<string>)
    ensures Resolved(v, excluded, ["*"]) == []
  {
    assert ["*"][..0] == [];
    assert Resolved(v, excluded, []) == [];
  }

  lemma PipelineDoom(v: NodeView, excluded: set<string>, collected: seq<Image>)
    requires IdHypothesis(v.listing) && Collected(v, excluded, collected)
    ensures "*" !in ImageIds(collected)
    ensures Doomed(v, excluded, ImageIds(collected)) - {""} == Unprotected(v, excluded)
    ensures |Resolved(v, excluded, ImageIds(collected))| == |Unprotected(v, excluded)|
  {
    var targets := ImageIds(collected);
    UnprotectedAreIds(v, excluded);
    ResolvedAll(v, excluded, targets);
    ElemsCount(targets);
    assert "*" in targets <==> "*" in Elems(targets);
  }

  lemma UnprotectedAreIds(v: NodeView, excluded: set<string>)
    requires IdHypothesis(v.listing)
    ensures forall id :: id in Unprotected(v, excluded)
                    <==> id in Ids(v.listing) && id !in Running(v) && !ProtectedId(v, excluded, id)
  {
    NonRunningValues(v);
  }

  lemma {:induction false} ResolvedAll(v: NodeView, excluded: set<string>, targets: seq<string>)
    requires IdHypothesis(v.listing) && Elems(targets) <= Unprotected(v, excluded)
    ensures Resolved(v, excluded, targets) == targets
  {
    hide NonRunning;
    hide Running;
    hide ById;
    hide RefsOf;
    hide Excluded;
    if targets != [] {
      var n := |targets| - 1;
      assert Elems(targets[..n]) <= Elems(targets);
      ResolvedAll(v, excluded, targets[..n]);
      assert targets[n] in Elems(targets);
      UnprotectedAreIds(v, excluded);
      IdResolvesToItself(v, targets[n]);
      assert Eligible(v, excluded, targets[n]);
      assert targets == targets[..n] + [targets[n]];
    }
  }

  /** After either of them nothing on the node is left to do: the collector then reports nothing, and neither a prune
      nor the pipeline asks for a single deletion. */
  lemma SecondRunDeletesNothing(v: NodeView, excluded: set<string>, again: NodeView, collected: seq<Image>,
                                order: seq<string>, calls: seq<Call>)
    requires IdHypothesis(v.listing) && DistinctIds(v.listing)
    requires again == NodeView(Without(v.listing, Unprotected(v, excluded)), v.containers)
    ensures Unprotected(again, excluded) == {}
    ensures Collected(again, excluded, collected) ==> collected == []
    ensures RemovalRun(again, excluded, ["*"], order, calls) ==> calls == []
    ensures RemovalRun(again, excluded, ImageIds(SentImages([], None)), order, calls) ==> calls == []
  {
    NothingUnprotectedIsLeft(v, excluded, again);
    if Collected(again, excluded, collected) {
      NoIdsNoImages(collected);
    }
    if RemovalRun(again, excluded, ["*"], order, calls) {
      EmptyPrune(again, excluded, order, calls);
    }
    assert ImageIds([]) == [];
  }

  lemma NoIdsNoImages(images: seq<Image>)
    ensures images != [] ==> Elems(ImageIds(images)) != {}
  {
    if images != [] {
      assert ImageIds(images)[0] in Elems(ImageIds(images));
    }
  }

  lemma EmptyPrune(v: NodeView, excluded: set<string>, order: seq<string>, calls: seq<Call>)
    requires Unprotected(v, excluded) == {} && RemovalRun(v, excluded, ["*"], order, calls)
    ensures calls == []
  {
    StarResolvesToNothing(v, excluded);
    assert ["*"][0] == "*";
    assert calls[0..] == calls;
    assert calls != [] ==> calls[0] in calls;
    PruneRunMeaning(NonRunning(v), PruneSet(v, excluded, DeletedRefs(v, excluded, ["*"], calls[..0])), order, calls);
  }

  lemma NothingUnprotectedIsLeft(v: NodeView, excluded: set<string>, again: NodeView)
    requires IdHypothesis(v.listing) && DistinctIds(v.listing)
    requires again == NodeView(Without(v.listing, Unprotected(v, excluded)), v.containers)
    ensures Unprotected(again, excluded) == {}
  {
    WithoutMeaning(v.listing, Unprotected(v, excluded));
    assert IdHypothesis(again.listing);
    UnprotectedAreIds(v, excluded);
    UnprotectedAreIds(again, excluded);
    forall id | id in Ids(again.listing) ensures id in Running(again) || ProtectedId(again, excluded, id) {
      if id in Running(v) {
        RunningIdIsAContainer(v, id);
        ContainerIsRunning(again, id);
      } else {
        SameRefs(v, again, id);
      }
    }
  }

  /** Under the hypothesis an ID is running only as a container's own image reference. */
  lemma RunningIdIsAContainer(v: NodeView, id: string)
    requires IdHypothesis(v.listing) && id in Ids(v.listing) && id in Running(v)
    ensures id in v.containers
  {
    RunningIndexMeaning(v.containers, ById(v.listing));
    ByIdListed(v.listing);
    var c :| c in v.containers && id in RefsOf(ById(v.listing), c);
    if c in ById(v.listing) {
      assert ById(v.listing)[c] in v.listing && ById(v.listing)[c].id == c;
    }
  }

  lemma ContainerIsRunning(v: NodeView, c: string)
    requires c in v.containers
    ensures c in Running(v)
  {
    RunningIndexMeaning(v.containers, ById(v.listing));
    assert c in RefsOf(ById(v.listing), c);
  }

  lemma SameRefs(v: NodeView, again: NodeView, id: string)
    requires DistinctIds(v.listing) && id in Ids(again.listing)
    requires forall raw :: raw in again.listing ==> raw in v.listing
    ensures RefsOf(ById(again.listing), id) == RefsOf(ById(v.listing), id)
  {
    ByIdListed(v.listing);
    ByIdListed(again.listing);
    var a, b := ById(again.listing)[id], ById(v.listing)[id];
    assert a in v.listing && b in v.listing && a.id == b.id;
    var i :| 0 <= i < |v.listing| && v.listing[i] == a;
    var j :| 0 <= j < |v.listing| && v.listing[j] == b;
    assert i == j;
  }
}
