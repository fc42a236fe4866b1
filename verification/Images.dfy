/** Images as the runtime lists them and as eraser describes them to its other containers. */
module Images {
  import opened Text

  /** An entry of the runtime's image listing; a repo digest reads `repository@digest`. */
  datatype RawImage = RawImage(id: string, repoTags: seq<string>, repoDigests: seq<string>)

  datatype Image = Image(id: string, names: seq<string>, digests: seq<string>)

  function Elems(s: seq<string>): set<string> {
    set x | x in s
  }

  ghost predicate NoDuplicates<T>(s: seq<T>) {
    forall i, j :: 0 <= i < j < |s| ==> s[i] != s[j]
  }

  /** A Go `range` over a map: every key once, in an order nothing is known about. */
  method Range(keys: set<string>) returns (order: seq<string>)
    ensures NoDuplicates(order) && Elems(order) == keys
  {
    order := [];
    var rest := keys;
    while rest != {}
      invariant NoDuplicates(order) && Elems(order) !! rest && Elems(order) + rest == keys
    {
      var key :| key in rest;
      rest := rest - {key};
      order := order + [key];
    }
  }

  // ---- repo digests

  predicate WellFormedDigest(repoDigest: string) {
    |Split(repoDigest, '@')| >= 2
  }

  function DigestPart(repoDigest: string): string
    requires WellFormedDigest(repoDigest)
  {
    Split(repoDigest, '@')[1]
  }

  ghost function DigestSet(repoDigests: seq<string>): set<string> {
    set d | d in repoDigests && WellFormedDigest(d) :: DigestPart(d)
  }

  function Malformed(repoDigests: seq<string>): seq<string> {
    if repoDigests == [] then []
    else
      var n := |repoDigests| - 1;
      Malformed(repoDigests[..n]) + if WellFormedDigest(repoDigests[n]) then [] else [repoDigests[n]]
  }

  /** A repo digest is malformed exactly when it has no `@`; otherwise its digest is the text after the
      first `@`, up to the next. */
  lemma DigestPartMeaning(repository: string, digest: string)
    requires '@' !in repository && '@' !in digest
    ensures !WellFormedDigest(repository)
    ensures WellFormedDigest(repository + "@" + digest)
    ensures DigestPart(repository + "@" + digest) == digest
  {
    FreeOfSeparator(repository, '@');
    FreeOfSeparator(digest, '@');
    SplitAfterHead(repository, '@', digest);
    assert repository + "@" + digest == repository + ['@'] + digest;
  }

  /** `digest` is what `repoDigest` has after its first `@`, up to the next. */
  ghost predicate HasDigest(repoDigest: string, digest: string) {
    exists repository, rest :: CutAround(repoDigest, repository, digest, rest)
  }

  predicate CutAround(repoDigest: string, repository: string, digest: string, rest: string) {
    && '@' !in repository && '@' !in digest && (rest == "" || rest[0] == '@')
    && repoDigest == repository + ['@'] + digest + rest
  }

  /** The digests of an image are exactly those its repo digests have; entries without `@` have none. */
  lemma DigestSetMeaning(repoDigests: seq<string>, digest: string)
    ensures digest in DigestSet(repoDigests) <==> exists d :: d in repoDigests && HasDigest(d, digest)
  {
    forall d | d in repoDigests ensures HasDigest(d, digest) <==> WellFormedDigest(d) && DigestPart(d) == digest {
      HasDigestIff(d, digest);
    }
  }

  lemma HasDigestIff(repoDigest: string, digest: string)
    ensures HasDigest(repoDigest, digest) <==> WellFormedDigest(repoDigest) && DigestPart(repoDigest) == digest
  {
    if HasDigest(repoDigest, digest) {
      var repository, rest :| CutAround(repoDigest, repository, digest, rest);
      assert repoDigest == repository + ['@'] + (digest + rest);
      SplitAfterHead(repository, '@', digest + rest);
      SplitStartsWith(digest, '@', rest);
    }
    if WellFormedDigest(repoDigest) && DigestPart(repoDigest) == digest {
      var fields := Split(repoDigest, '@');
      SplitJoin(repoDigest, '@');
      var rest := if |fields| == 2 then "" else ['@'] + Join(fields[2..], '@');
      assert fields[1..][0] == fields[1] && fields[1..][1..] == fields[2..];
      assert repoDigest == fields[0] + ['@'] + Join(fields[1..], '@');
      assert Join(fields[1..], '@') == digest + rest;
      assert repoDigest == fields[0] + ['@'] + digest + rest;
      assert CutAround(repoDigest, fields[0], digest, rest);
    }
  }

  /** The first field ends where the separator first comes. */
  lemma SplitStartsWith(head: string, sep: char, rest: string)
    requires sep !in head && (rest == "" || rest[0] == sep)
    ensures Split(head + rest, sep)[0] == head
  {
    if rest == "" {
      assert head + rest == head;
      FreeOfSeparator(head, sep);
    } else {
      assert head + rest == head + [sep] + rest[1..];
      SplitAfterHead(head, sep, rest[1..]);
    }
  }

  lemma {:induction false} FreeOfSeparator(s: string, sep: char)
    requires sep !in s
    ensures Split(s, sep) == [s]
  {
    if s != "" {
      FreeOfSeparator(s[1..], sep);
      assert [s[0]] + s[1..] == s;
    }
  }

  lemma DigestSetAppend(repoDigests: seq<string>, d: string)
    ensures DigestSet(repoDigests + [d]) == DigestSet(repoDigests) + if WellFormedDigest(d) then {DigestPart(d)} else {}
    ensures Malformed(repoDigests + [d]) == Malformed(repoDigests) + if WellFormedDigest(d) then [] else [d]
  {
    var longer := repoDigests + [d];
    assert longer[..|repoDigests|] == repoDigests;
    assert forall x :: x in longer <==> x in repoDigests || x == d;
    forall x | x in DigestSet(longer)
      ensures x in DigestSet(repoDigests) || (WellFormedDigest(d) && x == DigestPart(d))
    {
      var y :| y in longer && WellFormedDigest(y) && DigestPart(y) == x;
      assert y in repoDigests || y == d;
    }
    forall x | x in DigestSet(repoDigests) ensures x in DigestSet(longer) {
      var y :| y in repoDigests && WellFormedDigest(y) && DigestPart(y) == x;
      assert y in longer;
    }
    if WellFormedDigest(d) {
      assert d in longer;
      assert DigestPart(d) in DigestSet(longer);
    }
  }

  /** The digests of one image without repetition, in whatever order the range over the set yields. */
  method ProcessRepoDigests(repoDigests: seq<string>) returns (digests: seq<string>, errs: seq<string>)
    ensures NoDuplicates(digests)
    ensures Elems(digests) == DigestSet(repoDigests)
    ensures errs == Malformed(repoDigests)
  {
    errs := [];
    var digestSet := {};
    for i := 0 to |repoDigests|
      invariant digestSet == DigestSet(repoDigests[..i])
      invariant errs == Malformed(repoDigests[..i])
    {
      var repoDigest := repoDigests[i];
      assert repoDigests[..i + 1] == repoDigests[..i] + [repoDigest];
      DigestSetAppend(repoDigests[..i], repoDigest);
      var s := Split(repoDigest, '@');
      if |s| < 2 {
        errs := errs + [repoDigest];
        continue;
      }
      digestSet := digestSet + {s[1]};
    }
    assert repoDigests[..|repoDigests|] == repoDigests;
    digests := Range(digestSet);
  }

  // ---- the description of a listing

  /** The listing by ID; of entries with the same ID the last one counts. */
  function ById(listing: seq<RawImage>): map<string, RawImage> {
    if listing == [] then map[]
    else
      var n := |listing| - 1;
      ById(listing[..n])[listing[n].id := listing[n]]
  }

  function Ids(listing: seq<RawImage>): set<string> {
    set raw | raw in listing :: raw.id
  }

  lemma {:induction false} ByIdListed(listing: seq<RawImage>)
    ensures ById(listing).Keys == Ids(listing)
    ensures forall id :: id in ById(listing) ==> ById(listing)[id] in listing && ById(listing)[id].id == id
  {
    if listing != [] {
      var n := |listing| - 1;
      ByIdListed(listing[..n]);
      assert listing == listing[..n] + [listing[n]];
      assert forall raw :: raw in listing <==> raw in listing[..n] || raw == listing[n];
    }
  }

  /** Of the entries with one ID the last one counts. */
  lemma {:induction false} LastEntryCounts(listing: seq<RawImage>, i: nat)
    requires i < |listing| && forall j :: i < j < |listing| ==> listing[j].id != listing[i].id
    ensures listing[i].id in ById(listing) && ById(listing)[listing[i].id] == listing[i]
  {
    var n := |listing| - 1;
    if i < n {
      LastEntryCounts(listing[..n], i);
    }
  }

  /** Every name and digest the runtime knows an image by, besides its ID. */
  ghost function RawAliases(raw: RawImage): set<string> {
    Elems(raw.repoTags) + DigestSet(raw.repoDigests)
  }

  /** Every reference an identifier stands for: itself, and an image's aliases if it is an image ID. */
  ghost function RefsOf(raws: map<string, RawImage>, ref: string): set<string> {
    {ref} + if ref in raws then RawAliases(raws[ref]) else {}
  }

  /** The references of a listed image, from the listing: its ID, its tags, and the digests of its repo digests. */
  lemma ReferencesOfEntry(listing: seq<RawImage>, i: nat, ref: string)
    requires i < |listing| && forall j :: i < j < |listing| ==> listing[j].id != listing[i].id
    ensures ref in RefsOf(ById(listing), listing[i].id) <==>
              || ref == listing[i].id || ref in listing[i].repoTags
              || exists d :: d in listing[i].repoDigests && HasDigest(d, ref)
  {
    LastEntryCounts(listing, i);
    DigestSetMeaning(listing[i].repoDigests, ref);
  }

  /** `img` describes `raw`, up to the order of the digests. */
  ghost predicate Describes(img: Image, raw: RawImage) {
    && img.id == raw.id
    && img.names == raw.repoTags
    && NoDuplicates(img.digests)
    && Elems(img.digests) == DigestSet(raw.repoDigests)
  }

  ghost predicate DescribesAll(idToImage: map<string, Image>, raws: map<string, RawImage>) {
    && idToImage.Keys == raws.Keys
    && forall id :: id in raws ==> Describes(idToImage[id], raws[id])
  }

  /** The zero `Image` a Go map yields for a missing key has no names and no digests. */
  function Lookup(idToImage: map<string, Image>, id: string): (img: Image)
    ensures id in idToImage ==> img == idToImage[id]
    ensures id !in idToImage ==> img.names == [] && img.digests == []
  {
    if id in idToImage then idToImage[id] else Image("", [], [])
  }

  ghost function ImageRefs(idToImage: map<string, Image>, ref: string): set<string> {
    {ref} + Elems(Lookup(idToImage, ref).names) + Elems(Lookup(idToImage, ref).digests)
  }

  lemma ImageRefsAreRefs(idToImage: map<string, Image>, raws: map<string, RawImage>, ref: string)
    requires DescribesAll(idToImage, raws)
    ensures ImageRefs(idToImage, ref) == RefsOf(raws, ref)
  {
    assert ref in idToImage <==> ref in raws;
  }

  /** The first loop of both the collector and the remover: describe the listing, and index it by ID. */
  method DescribeListing(listing: seq<RawImage>) returns (allImages: seq<Image>, idToImage: map<string, Image>)
    ensures |allImages| == |listing|
    ensures forall i :: 0 <= i < |listing| ==> Describes(allImages[i], listing[i])
    ensures DescribesAll(idToImage, ById(listing))
  {
    allImages, idToImage := [], map[];
    for i := 0 to |listing|
      invariant |allImages| == i
      invariant forall j :: 0 <= j < i ==> Describes(allImages[j], listing[j])
      invariant DescribesAll(idToImage, ById(listing[..i]))
    {
      var digests, errs := ProcessRepoDigests(listing[i].repoDigests);
      var img := Image(listing[i].id, listing[i].repoTags, digests);
      allImages := allImages + [img];
      idToImage := idToImage[listing[i].id := img];
      assert listing[..i + 1][..i] == listing[..i];
    }
    assert listing[..|listing|] == listing;
  }
}
