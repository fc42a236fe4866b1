/** The collector's listing: the images worth scanning or removing. */
module Collector {
  import opened Wrappers
  import opened Images
  import opened Exclusion
  import opened AliasIndex
  import opened ContainerRuntime

  function ImageIds(images: seq<Image>): seq<string> {
    seq(|images|, i requires 0 <= i < |images| => images[i].id)
  }

  /** A list that has every unprotected image the index resolves to, once, as the listing describes it. */
  ghost predicate Collected(v: NodeView, excluded: set<string>, images: seq<Image>) {
    && NoDuplicates(ImageIds(images))
    && Elems(ImageIds(images)) == Unprotected(v, excluded)
    && forall i :: 0 <= i < |images| ==>
         images[i].id in ById(v.listing) && Describes(images[i], ById(v.listing)[images[i].id])
  }

  ghost function Reached(index: map<string, string>, keys: seq<string>): set<string> {
    set ref | ref in keys && ref in index :: index[ref]
  }

  lemma StartEmpty(nonRunning: map<string, string>)
    ensures Reached(nonRunning, []) == {} && NoDuplicates(ImageIds([])) && Elems(ImageIds([])) == {}
  {}

  lemma AppendDistinct(ids: seq<string>, id: string)
    requires NoDuplicates(ids) && id !in Elems(ids)
    ensures NoDuplicates(ids + [id])
  {}

  ghost predicate FromIndex(img: Image, idToImage: map<string, Image>) {
    img.names == Lookup(idToImage, img.id).names && img.digests == Lookup(idToImage, img.id).digests
  }

  lemma CollectedFromIndex(v: NodeView, excluded: set<string>, idToImage: map<string, Image>, images: seq<Image>)
    requires DescribesAll(idToImage, ById(v.listing))
    requires NoDuplicates(ImageIds(images))
    requires Elems(ImageIds(images)) == NonRunning(v).Values * Unprotected(v, excluded)
    requires forall i :: 0 <= i < |images| ==> FromIndex(images[i], idToImage)
    ensures Collected(v, excluded, images)
  {
    ByIdListed(v.listing);
    assert Unprotected(v, excluded) <= NonRunning(v).Values;
    forall i | 0 <= i < |images|
      ensures images[i].id in ById(v.listing) && Describes(images[i], ById(v.listing)[images[i].id])
    {
      assert ImageIds(images)[i] in Elems(ImageIds(images));
      var ref :| ref in NonRunning(v) && NonRunning(v)[ref] == images[i].id;
      NonRunningIsSafe(v, ref);
    }
  }

  lemma ReachOneMore(index: map<string, string>, keys: seq<string>, i: nat)
    requires i < |keys| && keys[i] in index
    ensures Reached(index, keys[..i + 1]) == Reached(index, keys[..i]) + {index[keys[i]]}
  {
    assert keys[..i + 1] == keys[..i] + [keys[i]];
  }

  lemma AllReached(index: map<string, string>, keys: seq<string>)
    requires Elems(keys) == index.Keys
    ensures Reached(index, keys) == index.Values
  {
    forall id | id in index.Values ensures id in Reached(index, keys) {
      var ref :| ref in index && index[ref] == id;
      assert ref in Elems(keys);
    }
  }

  lemma AppendId(images: seq<Image>, img: Image)
    ensures ImageIds(images + [img]) == ImageIds(images) + [img.id]
    ensures Elems(ImageIds(images + [img])) == Elems(ImageIds(images)) + {img.id}
  {}

  /** Every image the index resolves to and the exclusion test clears, once, as `idToImage` describes it. */
  method Select(nonRunning: map<string, string>, idToImage: map<string, Image>, excluded: set<string>,
                ghost unprotected: set<string>)
    returns (finalImages: seq<Image>)
    requires Clears(unprotected, nonRunning, excluded, idToImage)
    ensures NoDuplicates(ImageIds(finalImages))
    ensures Elems(ImageIds(finalImages)) == nonRunning.Values * unprotected
    ensures forall i :: 0 <= i < |finalImages| ==> FromIndex(finalImages[i], idToImage)
  {
    finalImages := [];
    var checked: set<string> := {};
    StartEmpty(nonRunning);
    var keys := Range(nonRunning.Keys);
    for i := 0 to |keys|
      invariant checked == Reached(nonRunning, keys[..i])
      invariant NoDuplicates(ImageIds(finalImages))
      invariant Elems(ImageIds(finalImages)) == checked * unprotected
      invariant forall j :: 0 <= j < |finalImages| ==> FromIndex(finalImages[j], idToImage)
    {
      assert keys[i] in Elems(keys);
      var id := nonRunning[keys[i]];
      ReachOneMore(nonRunning, keys, i);
      if id in checked {
        continue;
      }
      checked := checked + {id};
      var img := Lookup(idToImage, id);
      var currImage := Image(id, img.names, img.digests);
      var ex := IsExcluded(excluded, id, idToImage);
      if !ex {
        AppendId(finalImages, currImage);
        AppendDistinct(ImageIds(finalImages), id);
        finalImages := finalImages + [currImage];
      }
    }
    assert keys[..|keys|] == keys;
    AllReached(nonRunning, keys);
  }

  method GetImages(rt: Runtime, excluded: set<string>) returns (r: Option<seq<Image>>)
    requires rt.Valid()
    modifies rt`failedListings
    ensures r.Some? ==> Collected(rt.View(), excluded, r.value)
    ensures r.None? <==> rt.failedListings > old(rt.failedListings)
    ensures r.Some? ==> rt.failedListings == old(rt.failedListings)
  {
    ghost var v := rt.View();
    var images := rt.ListImages();
    if images.None? {
      return None;
    }
    var allImages, idToImage := DescribeListing(images.value);
    var containers := rt.ListContainers();
    if containers.None? {
      return None;
    }
    var running := GetRunningImages(containers.value, idToImage, ById(v.listing));
    var nonRunning := GetNonRunningImages(running, allImages, idToImage, v.listing);
    UnprotectedClears(v, excluded, idToImage);
    var finalImages := Select(nonRunning, idToImage, excluded, Unprotected(v, excluded));
    CollectedFromIndex(v, excluded, idToImage, finalImages);
    return Some(finalImages);
  }

  /** Under the ID hypothesis the collector reports exactly the listed images that are neither running nor excluded. */
  lemma CollectedExactly(v: NodeView, excluded: set<string>, images: seq<Image>)
    requires IdHypothesis(v.listing) && Collected(v, excluded, images)
    ensures forall id :: id in ImageIds(images)
                    <==> id in Ids(v.listing) && id !in Running(v) && !ProtectedId(v, excluded, id)
  {
    NonRunningValues(v);
    forall id ensures id in ImageIds(images) <==> id in Unprotected(v, excluded) {
      assert id in ImageIds(images) <==> id in Elems(ImageIds(images));
    }
  }
}
