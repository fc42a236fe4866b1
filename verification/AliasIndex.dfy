/** The two indexes both the collector and the remover decide by: from every reference of a running image to its
    ID, and from every reference of an image that is not running to its ID. */
module AliasIndex {
  import opened Images
  import opened Exclusion

  /** What the runtime answers at one moment: its images, and the image reference of each container. */
  datatype NodeView = NodeView(listing: seq<RawImage>, containers: seq<string>)

  // ---- specification

  ghost function Bind(index: map<string, string>, refs: set<string>, id: string): map<string, string> {
    map ref | ref in index.Keys + refs :: if ref in refs then id else index[ref]
  }

  lemma BindOne(index: map<string, string>, ref: string, id: string)
    ensures index[ref := id] == Bind(index, {ref}, id)
  {
  }

  lemma BindMore(index: map<string, string>, refs: set<string>, more: set<string>, id: string)
    ensures Bind(Bind(index, refs, id), more, id) == Bind(index, refs + more, id)
  {
  }

  /** Later containers overwrite earlier ones. */
  ghost function RunningIndex(containers: seq<string>, raws: map<string, RawImage>): map<string, string> {
    if containers == [] then map[]
    else
      var n := |containers| - 1;
      Bind(RunningIndex(containers[..n], raws), RefsOf(raws, containers[n]), containers[n])
  }

  /** Only an ID that is itself no key of the running index is indexed; later images overwrite earlier ones. */
  ghost function NonRunningIndex(running: set<string>, ids: seq<string>, raws: map<string, RawImage>):
    map<string, string>
  {
    if ids == [] then map[]
    else
      var n := |ids| - 1;
      var before := NonRunningIndex(running, ids[..n], raws);
      if ids[n] in running then before else Bind(before, RefsOf(raws, ids[n]), ids[n])
  }

  function IdSeq(listing: seq<RawImage>): (ids: seq<string>) {
    seq(|listing|, i requires 0 <= i < |listing| => listing[i].id)
  }

  ghost function Running(v: NodeView): map<string, string> {
    RunningIndex(v.containers, ById(v.listing))
  }

  ghost function NonRunning(v: NodeView): map<string, string> {
    NonRunningIndex(Running(v).Keys, IdSeq(v.listing), ById(v.listing))
  }

  /** Image IDs are not empty, none is `*`, and none is a name or digest of a different image. */
  ghost predicate IdHypothesis(listing: seq<RawImage>) {
    && "" !in Ids(listing)
    && "*" !in Ids(listing)
    && forall id, raw :: id in Ids(listing) && raw in listing && id in RawAliases(raw) ==> raw.id == id
  }

  /** An entry covers the image's ID, or one of its names or digests. */
  ghost predicate ProtectedId(v: NodeView, excluded: set<string>, id: string) {
    Excluded(excluded, RefsOf(ById(v.listing), id))
  }

  /** The images the index resolves to that no entry covers: what a prune is after, and what the collector reports. */
  ghost function Unprotected(v: NodeView, excluded: set<string>): set<string> {
    set id | id in NonRunning(v).Values && !ProtectedId(v, excluded, id)
  }

  /** `unprotected` holds an ID of the index exactly if the exclusion test clears it. */
  ghost predicate Clears(unprotected: set<string>, index: map<string, string>, excluded: set<string>,
                         idToImage: map<string, Image>)
  {
    forall ref :: ref in index ==>
      (index[ref] in unprotected <==> !Excluded(excluded, ImageRefs(idToImage, index[ref])))
  }

  lemma UnprotectedClears(v: NodeView, excluded: set<string>, idToImage: map<string, Image>)
    requires DescribesAll(idToImage, ById(v.listing))
    ensures Clears(Unprotected(v, excluded), NonRunning(v), excluded, idToImage)
  {
    forall ref | ref in NonRunning(v)
      ensures NonRunning(v)[ref] in Unprotected(v, excluded)
         <==> !Excluded(excluded, ImageRefs(idToImage, NonRunning(v)[ref]))
    {
      ImageRefsAreRefs(idToImage, ById(v.listing), NonRunning(v)[ref]);
      assert NonRunning(v)[ref] in NonRunning(v).Values;
    }
  }

  // ---- the loops

  method BindAll(index: map<string, string>, refs: seq<string>, id: string) returns (bound: map<string, string>)
    ensures bound == Bind(index, Elems(refs), id)
  {
    bound := index;
    for i := 0 to |refs|
      invariant bound == Bind(index, Elems(refs[..i]), id)
    {
      assert Elems(refs[..i + 1]) == Elems(refs[..i]) + {refs[i]};
      BindOne(bound, refs[i], id);
      BindMore(index, Elems(refs[..i]), {refs[i]}, id);
      bound := bound[refs[i] := id];
    }
    assert refs[..|refs|] == refs;
  }

  /** Binding the ID, then its names, then its digests binds every reference of the image. */
  method BindImage(index: map<string, string>, id: string, idToImage: map<string, Image>,
                   ghost raws: map<string, RawImage>)
    returns (bound: map<string, string>)
    requires DescribesAll(idToImage, raws)
    ensures bound == Bind(index, RefsOf(raws, id), id)
  {
    ImageRefsAreRefs(idToImage, raws, id);
    var img := Lookup(idToImage, id);
    bound := index[id := id];
    BindOne(index, id, id);
    bound := BindAll(bound, img.names, id);
    BindMore(index, {id}, Elems(img.names), id);
    bound := BindAll(bound, img.digests, id);
    BindMore(index, {id} + Elems(img.names), Elems(img.digests), id);
  }

  method GetRunningImages(containers: seq<string>, idToImage: map<string, Image>, ghost raws: map<string, RawImage>)
    returns (running: map<string, string>)
    requires DescribesAll(idToImage, raws)
    ensures running == RunningIndex(containers, raws)
  {
    running := map[];
    for i := 0 to |containers|
      invariant running == RunningIndex(containers[..i], raws)
    {
      assert containers[..i + 1][..i] == containers[..i];
      running := BindImage(running, containers[i], idToImage, raws);
    }
    assert containers[..|containers|] == containers;
  }

  method GetNonRunningImages(running: map<string, string>, allImages: seq<Image>, idToImage: map<string, Image>,
                             ghost listing: seq<RawImage>)
    returns (nonRunning: map<string, string>)
    requires |allImages| == |listing|
    requires forall i :: 0 <= i < |listing| ==> Describes(allImages[i], listing[i])
    requires DescribesAll(idToImage, ById(listing))
    ensures nonRunning == NonRunningIndex(running.Keys, IdSeq(listing), ById(listing))
  {
    ghost var raws, ids := ById(listing), IdSeq(listing);
    nonRunning := map[];
    for i := 0 to |allImages|
      invariant nonRunning == NonRunningIndex(running.Keys, ids[..i], raws)
    {
      assert ids[..i + 1][..i] == ids[..i] && allImages[i].id == ids[i];
      if allImages[i].id !in running {
        nonRunning := BindImage(nonRunning, allImages[i].id, idToImage, raws);
      }
    }
    assert ids[..|ids|] == ids;
  }

  // ---- what the indexes mean

  /** The running index has exactly the references of the containers' images as keys, each mapped to a container's
      image that it is a reference of. */
  lemma {:induction false} RunningIndexMeaning(containers: seq<string>, raws: map<string, RawImage>)
    ensures forall ref :: ref in RunningIndex(containers, raws)
                     <==> exists c :: c in containers && ref in RefsOf(raws, c)
    ensures forall ref :: ref in RunningIndex(containers, raws) ==>
              var id := RunningIndex(containers, raws)[ref]; id in containers && ref in RefsOf(raws, id)
  {
    if containers != [] {
      var n := |containers| - 1;
      RunningIndexMeaning(containers[..n], raws);
      assert forall c :: c in containers <==> c in containers[..n] || c == containers[n];
    }
  }

  /** The other index has exactly the references of the listed images whose ID is no key of the running index, each
      mapped to such an image that it is a reference of. */
  lemma {:induction false} NonRunningIndexMeaning(running: set<string>, ids: seq<string>, raws: map<string, RawImage>)
    ensures forall ref :: ref in NonRunningIndex(running, ids, raws)
                     <==> exists id :: id in ids && id !in running && ref in RefsOf(raws, id)
    ensures forall ref :: ref in NonRunningIndex(running, ids, raws) ==>
              var id := NonRunningIndex(running, ids, raws)[ref];
              id in ids && id !in running && ref in RefsOf(raws, id)
  {
    if ids != [] {
      var n := |ids| - 1;
      NonRunningIndexMeaning(running, ids[..n], raws);
      assert forall id :: id in ids <==> id in ids[..n] || id == ids[n];
    }
  }

  /** Of several containers with a reference in common, the last one gets it. */
  lemma {:induction false} LastContainerWins(containers: seq<string>, raws: map<string, RawImage>, i: nat, ref: string)
    requires i < |containers| && ref in RefsOf(raws, containers[i])
    requires forall j :: i < j < |containers| ==> ref !in RefsOf(raws, containers[j])
    ensures ref in RunningIndex(containers, raws) && RunningIndex(containers, raws)[ref] == containers[i]
  {
    var n := |containers| - 1;
    if i < n {
      LastContainerWins(containers[..n], raws, i, ref);
    }
  }

  /** And of several idle images, the last one listed. */
  lemma {:induction false} LastImageWins(running: set<string>, ids: seq<string>, raws: map<string, RawImage>, i: nat,
                                         ref: string)
    requires i < |ids| && ids[i] !in running && ref in RefsOf(raws, ids[i])
    requires forall j :: i < j < |ids| && ids[j] !in running ==> ref !in RefsOf(raws, ids[j])
    ensures ref in NonRunningIndex(running, ids, raws) && NonRunningIndex(running, ids, raws)[ref] == ids[i]
  {
    var n := |ids| - 1;
    if i < n {
      LastImageWins(running, ids[..n], raws, i, ref);
    }
  }

  /** With no hypothesis on names: whatever the second index resolves to is a listed image that no container refers
      to, by its ID or by any alias the listing knows; the two indexes never agree on an image. */
  lemma NonRunningIsSafe(v: NodeView, ref: string)
    requires ref in NonRunning(v)
    ensures NonRunning(v)[ref] in Ids(v.listing)
    ensures NonRunning(v)[ref] !in Running(v)
    ensures NonRunning(v)[ref] !in v.containers
    ensures ref in RefsOf(ById(v.listing), NonRunning(v)[ref])
    ensures forall c :: c in v.containers ==> NonRunning(v)[ref] !in RefsOf(ById(v.listing), c)
  {
    var raws := ById(v.listing);
    RunningIndexMeaning(v.containers, raws);
    NonRunningIndexMeaning(Running(v).Keys, IdSeq(v.listing), raws);
    IdSeqElems(v.listing);
    var id := NonRunning(v)[ref];
    forall c | c in v.containers ensures id !in RefsOf(raws, c) {}
    assert id in v.containers ==> id in RefsOf(raws, id);
  }

  lemma IdSeqElems(listing: seq<RawImage>)
    ensures Elems(IdSeq(listing)) == Ids(listing)
  {
    forall id | id in Ids(listing) ensures id in IdSeq(listing) {
      var i :| 0 <= i < |listing| && listing[i].id == id;
      assert IdSeq(listing)[i] == id;
    }
  }

  /** A listed image that is not running is a key of the index under every reference it has. */
  lemma EveryAliasIsAKey(v: NodeView, id: string, ref: string)
    requires id in Ids(v.listing) && id !in Running(v) && ref in RefsOf(ById(v.listing), id)
    ensures ref in NonRunning(v)
  {
    IdSeqElems(v.listing);
    assert id in IdSeq(v.listing);
    NonRunningIndexMeaning(Running(v).Keys, IdSeq(v.listing), ById(v.listing));
  }

  /** Under the hypothesis every image that is not running resolves from its own ID. */
  lemma IdResolvesToItself(v: NodeView, id: string)
    requires IdHypothesis(v.listing)
    requires id in Ids(v.listing) && id !in Running(v)
    ensures id in NonRunning(v) && NonRunning(v)[id] == id
  {
    var raws := ById(v.listing);
    EveryAliasIsAKey(v, id, id);
    NonRunningIsSafe(v, id);
    var other := NonRunning(v)[id];
    ByIdListed(v.listing);
    assert other in raws;
    assert id == other || id in RawAliases(raws[other]);
  }

  /** Under the hypothesis the values of the index are exactly the listed images that are not running. */
  lemma NonRunningValues(v: NodeView)
    requires IdHypothesis(v.listing)
    ensures NonRunning(v).Values == Ids(v.listing) - Running(v).Keys
  {
    var index, idle := NonRunning(v), Ids(v.listing) - Running(v).Keys;
    forall id | id in index.Values ensures id in idle {
      var ref :| ref in index && index[ref] == id;
      NonRunningIsSafe(v, ref);
    }
    forall id | id in idle ensures id in index.Values {
      IdResolvesToItself(v, id);
      assert id in index && index[id] == id;
    }
  }

  /** Two images that are not running; the second is tagged with the first one's ID. */
  function HidingNode(): NodeView {
    NodeView([RawImage("a", [], []), RawImage("b", ["a"], [])], [])
  }

  lemma HidingNodeById()
    ensures var listing := HidingNode().listing; ById(listing) == map["a" := listing[0], "b" := listing[1]]
    ensures IdSeq(HidingNode().listing) == ["a", "b"]
    ensures RefsOf(ById(HidingNode().listing), "a") == {"a"} && RefsOf(ById(HidingNode().listing), "b") == {"a", "b"}
  {
    var listing := HidingNode().listing;
    assert listing[..1] == [listing[0]] && listing[..1][..0] == [];
    assert ById(listing[..1]) == map["a" := listing[0]];
  }

  lemma HidingNodeIndex()
    ensures Running(HidingNode()) == map[] && NonRunning(HidingNode()) == map["a" := "b", "b" := "b"]
  {
    HidingNodeById();
    hide ById;
    hide IdSeq;
    hide RefsOf;
    var raws, ids := ById(HidingNode().listing), IdSeq(HidingNode().listing);
    assert ids[..1] == ["a"] && ids[..1][..0] == [];
    assert Running(HidingNode()) == map[];
    assert NonRunningIndex({}, ids[..1][..0], raws) == map[];
    assert NonRunningIndex({}, ids[..1], raws) == map["a" := "a"];
  }

  /** The hypothesis is needed: a tag that equals another image's ID hides that image from its own ID. */
  lemma NameCanHideAnId()
    ensures exists v: NodeView, id: string :: id in Ids(v.listing) && id !in Running(v) && id !in NonRunning(v).Values
  {
    var v := HidingNode();
    HidingNodeIndex();
    assert v.listing[0] in v.listing;
    assert "a" in Ids(v.listing) && "a" !in Running(v) && "a" !in NonRunning(v).Values;
  }
}
