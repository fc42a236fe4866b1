/** Which images an exclusion list protects. */
module Exclusion {
  import opened Text
  import opened Images

  /** An exclusion entry covers a reference it equals, or one that starts with the entry's prefix when the
      entry ends in a wildcard. The prefix ends at the entry's first `*`, or at its first `:`. */
  predicate Covers(key: string, ref: string) {
    || key == ref
    || (HasSuffix(key, "/*") && HasPrefix(ref, Split(key, '*')[0]))
    || (HasSuffix(key, ":*") && HasPrefix(ref, Split(key, ':')[0]))
  }

  /** Some entry covers some reference of the image. */
  ghost predicate Excluded(excluded: set<string>, refs: set<string>) {
    exists key, ref :: key in excluded && ref in refs && Covers(key, ref)
  }

  // ---- the merge of the exclusion files

  /** `ParseExcluded` keeps every entry of every file. */
  method MergeExcluded(files: seq<seq<string>>) returns (excluded: set<string>)
    ensures forall key :: key in excluded <==> exists f :: 0 <= f < |files| && key in files[f]
  {
    var excludedList := [];
    for f := 0 to |files|
      invariant forall key :: key in excludedList <==> exists g :: 0 <= g < f && key in files[g]
    {
      excludedList := excludedList + files[f];
    }
    excluded := {};
    for i := 0 to |excludedList|
      invariant forall key :: key in excluded <==> key in excludedList[..i]
    {
      assert forall key :: key in excludedList[..i + 1] <==> key in excludedList[..i] || key == excludedList[i];
      excluded := excluded + {excludedList[i]};
    }
    assert excludedList[..|excludedList|] == excludedList;
  }

  // ---- the test itself

  method AnyMember(refs: seq<string>, excluded: set<string>) returns (found: bool)
    ensures found <==> exists r :: r in refs && r in excluded
  {
    for i := 0 to |refs|
      invariant forall j :: 0 <= j < i ==> refs[j] !in excluded
    {
      if refs[i] in excluded {
        return true;
      }
    }
    return false;
  }

  method AnyWithPrefix(refs: seq<string>, prefix: string) returns (found: bool)
    ensures found <==> exists r :: r in refs && HasPrefix(r, prefix)
  {
    for i := 0 to |refs|
      invariant forall j :: 0 <= j < i ==> !HasPrefix(refs[j], prefix)
    {
      if HasPrefix(refs[i], prefix) {
        return true;
      }
    }
    return false;
  }

  /** The exact matches are tried first, then the wildcard entries in whatever order the range yields them. */
  method IsExcluded(excluded: set<string>, img: string, idToImage: map<string, Image>) returns (r: bool)
    ensures r <==> Excluded(excluded, ImageRefs(idToImage, img))
  {
    if excluded == {} {
      return false;
    }
    if img in excluded {
      assert Covers(img, img);
      return true;
    }
    var names, digests := Lookup(idToImage, img).names, Lookup(idToImage, img).digests;
    ghost var refs := ImageRefs(idToImage, img);
    assert forall ref :: ref in refs <==> ref == img || ref in names || ref in digests;
    var hit := AnyMember(names, excluded);
    if hit {
      var ref :| ref in names && ref in excluded;
      assert Covers(ref, ref);
      return true;
    }
    hit := AnyMember(digests, excluded);
    if hit {
      var ref :| ref in digests && ref in excluded;
      assert Covers(ref, ref);
      return true;
    }
    var rest := excluded;
    while rest != {}
      invariant rest <= excluded
      invariant forall key, ref :: key in excluded - rest && ref in refs ==> !Covers(key, ref)
    {
      var key :| key in rest;
      rest := rest - {key};
      if HasSuffix(key, "/*") {
        var repo := Split(key, '*');
        if HasPrefix(img, repo[0]) {
          assert Covers(key, img);
          return true;
        }
        hit := AnyWithPrefix(names, repo[0]);
        if hit { return true; }
        hit := AnyWithPrefix(digests, repo[0]);
        if hit { return true; }
      }
      if HasSuffix(key, ":*") {
        var imagePath := Split(key, ':');
        if HasPrefix(img, imagePath[0]) {
          assert Covers(key, img);
          return true;
        }
        hit := AnyWithPrefix(names, imagePath[0]);
        if hit { return true; }
        hit := AnyWithPrefix(digests, imagePath[0]);
        if hit { return true; }
      }
      assert key !in refs;
    }
    return false;
  }

  // ---- what the predicate promises

  /** Exclusion lists compose: merging lists protects what either protects, and nothing else. */
  lemma ExcludedByUnion(a: set<string>, b: set<string>, refs: set<string>)
    ensures Excluded(a + b, refs) <==> Excluded(a, refs) || Excluded(b, refs)
  {
    if Excluded(a + b, refs) {
      var key, ref :| key in a + b && ref in refs && Covers(key, ref);
      assert key in a || key in b;
    }
  }

  /** More entries or more aliases never protect less. */
  lemma ExcludedIsMonotone(a: set<string>, b: set<string>, refs: set<string>, more: set<string>)
    requires a <= b && refs <= more
    ensures Excluded(a, refs) ==> Excluded(b, more)
  {
    if Excluded(a, refs) {
      var key, ref :| key in a && ref in refs && Covers(key, ref);
      assert key in b && ref in more;
    }
  }

  /** An entry without a wildcard covers itself and nothing else. */
  lemma PlainEntry(key: string, ref: string)
    requires |key| < 2 || key[|key| - 1] != '*' || key[|key| - 2] !in {'/', ':'}
    ensures Covers(key, ref) <==> key == ref
  {
    if |key| >= 2 {
      assert key[|key| - 2..] == [key[|key| - 2], key[|key| - 1]];
    }
  }

  // A repository wildcard covers the references below the repository, and nothing else if the repository
  // itself holds no `*`; a `*` inside it widens the entry to everything that starts with the part before
  // that `*`.
  lemma RepositoryWildcard(repo: string, ref: string)
    ensures HasPrefix(ref, repo + "/") ==> Covers(repo + "/*", ref)
    ensures Covers(repo + "/*", ref) <==> HasPrefix(ref, Split(repo + "/", '*')[0])
    ensures '*' !in repo ==> (Covers(repo + "/*", ref) <==> HasPrefix(ref, repo + "/"))
  {
    var key := repo + "/*";
    var dir := repo + "/";
    assert key[|key| - 2..] == "/*";
    assert key[|key| - 1] == '*';
    FirstField(dir, '*');
    assert key == dir + ['*'] + "";
    FirstFieldOfAppend(dir, '*', "");
    var cut := Split(dir, '*')[0];
    assert cut <= dir <= key;
    if '*' !in repo {
      FreeOfSeparator(dir, '*');
    }
    assert !HasSuffix(key, ":*") by { assert key[|key| - 2] == '/'; }
  }

  /** `name:*` covers every tag of the name, but is cut at the first `:` of the whole entry: it covers exactly
      the references that start with the part of the name before its own first `:`. That is never just the
      tags of the name: the cut name itself is covered and is none of them. */
  lemma TagWildcard(name: string, ref: string)
    ensures HasPrefix(ref, name + ":") ==> Covers(name + ":*", ref)
    ensures Covers(name + ":*", ref) <==> HasPrefix(ref, Split(name, ':')[0])
    ensures Covers(name + ":*", Split(name, ':')[0]) && !HasPrefix(Split(name, ':')[0], name + ":")
  {
    var key := name + ":*";
    assert key[|key| - 2..] == ":*";
    assert key == name + [':'] + "*";
    FirstFieldOfAppend(name, ':', "*");
    FirstField(name, ':');
    var cut := Split(name, ':')[0];
    assert cut <= name <= name + ":" && cut <= name <= key;
    assert !HasSuffix(key, "/*") by { assert key[|key| - 2] == ':'; }
    assert HasPrefix(cut, cut);
  }
}
