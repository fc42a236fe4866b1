/** The scanner's verdicts: on one image by its references, and on the whole list under a total timeout. */
module Scanner {
  import opened Images

  // ---- one image

  /** One run of the vulnerability scanner on a reference: it fails, prints something that is no report, or reports
      whether the operating system is known to be out of support and how many findings each result holds. */
  datatype Attempt =
    | RunError
    | BadReport
    | Report(endOfLife: bool, findings: seq<nat>)

  datatype Status = StatusFailed | StatusNonCompliant | StatusOK

  function References(img: Image): seq<string> {
    img.digests + img.names
  }

  predicate NonCompliant(report: Attempt, deleteEOLImages: bool)
    requires report.Report?
  {
    || (deleteEOLImages && report.endOfLife)
    || exists j :: 0 <= j < |report.findings| && report.findings[j] > 0
  }

  /** The first reference, digests before names, that yields a report decides; an image none of whose references does
      is failed. */
  ghost predicate FirstReportDecides(img: Image, deleteEOLImages: bool, trivy: string -> Attempt, status: Status) {
    var refs := References(img);
    if forall i :: 0 <= i < |refs| ==> !trivy(refs[i]).Report? then
      status == StatusFailed
    else
      exists i :: 0 <= i < |refs| && trivy(refs[i]).Report?
        && (forall j :: 0 <= j < i ==> !trivy(refs[j]).Report?)
        && status == if NonCompliant(trivy(refs[i]), deleteEOLImages) then StatusNonCompliant else StatusOK
  }

  method Scan(img: Image, deleteEOLImages: bool, trivy: string -> Attempt) returns (status: Status)
    ensures FirstReportDecides(img, deleteEOLImages, trivy, status)
  {
    var refs := img.digests + img.names;
    var scanSucceeded := false;
    var i := 0;
    while i < |refs| && !scanSucceeded
      invariant 0 <= i <= |refs|
      invariant !scanSucceeded ==> forall j :: 0 <= j < i ==> !trivy(refs[j]).Report?
      invariant scanSucceeded ==>
                  && i > 0 && trivy(refs[i - 1]).Report? && !NonCompliant(trivy(refs[i - 1]), deleteEOLImages)
                  && forall j :: 0 <= j < i - 1 ==> !trivy(refs[j]).Report?
      decreases |refs| - i
    {
      var attempt := trivy(refs[i]);
      i := i + 1;
      if attempt.RunError? {
        continue;
      }
      if attempt.BadReport? {
        continue;
      }
      if deleteEOLImages {
        if attempt.endOfLife {
          return StatusNonCompliant;
        }
      }
      for j := 0 to |attempt.findings|
        invariant forall k :: 0 <= k < j ==> attempt.findings[k] == 0
      {
        if attempt.findings[j] > 0 {
          return StatusNonCompliant;
        }
      }
      scanSucceeded := true;
    }
    status := StatusOK;
    if !scanSucceeded {
      status := StatusFailed;
    }
  }

  /** The verdict is a function of what the references yield. */
  lemma VerdictIsUnique(img: Image, deleteEOLImages: bool, trivy: string -> Attempt, s1: Status, s2: Status)
    requires FirstReportDecides(img, deleteEOLImages, trivy, s1) && FirstReportDecides(img, deleteEOLImages, trivy, s2)
    ensures s1 == s2
    ensures s1 == StatusFailed <==> forall ref :: ref in References(img) ==> !trivy(ref).Report?
  {
    var refs := References(img);
    if forall i :: 0 <= i < |refs| ==> !trivy(refs[i]).Report? {
    } else {
      var i1 :| 0 <= i1 < |refs| && trivy(refs[i1]).Report? && (forall j :: 0 <= j < i1 ==> !trivy(refs[j]).Report?)
        && s1 == if NonCompliant(trivy(refs[i1]), deleteEOLImages) then StatusNonCompliant else StatusOK;
      var i2 :| 0 <= i2 < |refs| && trivy(refs[i2]).Report? && (forall j :: 0 <= j < i2 ==> !trivy(refs[j]).Report?)
        && s2 == if NonCompliant(trivy(refs[i2]), deleteEOLImages) then StatusNonCompliant else StatusOK;
      assert i1 == i2;
      assert refs[i1] in refs;
    }
  }

  /** Digests are asked first: if one of them yields a report, the first that does decides whatever the names would
      yield, and only if none does the first name that yields a report. Non-compliant means an unsupported operating
      system, if those are to go, or some finding. */
  lemma DigestsBeforeNames(img: Image, deleteEOLImages: bool, trivy: string -> Attempt, status: Status,
                           refs: seq<string>, i: nat)
    requires FirstReportDecides(img, deleteEOLImages, trivy, status)
    requires refs == img.digests || (refs == img.names && forall d :: d in img.digests ==> !trivy(d).Report?)
    requires i < |refs| && trivy(refs[i]).Report? && forall j :: 0 <= j < i ==> !trivy(refs[j]).Report?
    ensures var report := trivy(refs[i]);
            status == if (deleteEOLImages && report.endOfLife) || (exists n :: n in report.findings && n > 0)
                      then StatusNonCompliant else StatusOK
  {
    var all := References(img);
    var p := if refs == img.digests then i else |img.digests| + i;
    assert all[p] == refs[i];
    forall j | 0 <= j < p ensures !trivy(all[j]).Report? {
      if j < |img.digests| {
        assert all[j] == img.digests[j] && img.digests[j] in img.digests;
      } else {
        assert all[j] == img.names[j - |img.digests|];
      }
    }
    var k :| 0 <= k < |all| && trivy(all[k]).Report? && (forall j :: 0 <= j < k ==> !trivy(all[j]).Report?)
      && status == if NonCompliant(trivy(all[k]), deleteEOLImages) then StatusNonCompliant else StatusOK;
    assert k == p;
    var findings := trivy(refs[i]).findings;
    assert (exists n :: n in findings && n > 0) <==> exists j :: 0 <= j < |findings| && findings[j] > 0 by {
      if j :| 0 <= j < |findings| && findings[j] > 0 {
        assert findings[j] in findings;
      }
    }
  }

  // ---- the whole list

  /** What the scanner interface answers for one image. */
  datatype Outcome = Verdict(status: Status) | Error

  datatype Class = Vulnerable | Failed | Clean

  function Classify(outcome: Outcome): Class {
    match outcome
    case Error => Failed
    case Verdict(StatusFailed) => Failed
    case Verdict(StatusNonCompliant) => Vulnerable
    case Verdict(StatusOK) => Clean
  }

  /** The class of each image when the total timeout is noticed before image number `deadline`. */
  function ClassAt(outcome: nat -> Outcome, deadline: nat, i: nat): Class {
    if i < deadline then Classify(outcome(i)) else Failed
  }

  /** The images of one class, in list order. */
  function Sift(images: seq<Image>, outcome: nat -> Outcome, deadline: nat, kind: Class): seq<Image> {
    if images == [] then []
    else
      var n := |images| - 1;
      Sift(images[..n], outcome, deadline, kind) +
      if ClassAt(outcome, deadline, n) == kind then [images[n]] else []
  }

  method ScanAll(allImages: seq<Image>, outcome: nat -> Outcome, deadline: nat)
    returns (vulnerableImages: seq<Image>, failedImages: seq<Image>, timedOut: bool)
    ensures vulnerableImages == Sift(allImages, outcome, deadline, Vulnerable)
    ensures failedImages == Sift(allImages, outcome, deadline, Failed)
    ensures timedOut <==> deadline < |allImages|
  {
    vulnerableImages, failedImages := [], [];
    for idx := 0 to |allImages|
      invariant idx <= deadline
      invariant vulnerableImages == Sift(allImages[..idx], outcome, deadline, Vulnerable)
      invariant failedImages == Sift(allImages[..idx], outcome, deadline, Failed)
    {
      if idx == deadline {
        RestFails(allImages, outcome, deadline, |allImages|);
        assert allImages[..|allImages|] == allImages && allImages[idx..|allImages|] == allImages[idx..];
        failedImages := failedImages + allImages[idx..];
        return vulnerableImages, failedImages, true;
      }
      assert allImages[..idx + 1][..idx] == allImages[..idx];
      match outcome(idx) {
        case Error =>
          failedImages := failedImages + [allImages[idx]];
        case Verdict(StatusNonCompliant) =>
          vulnerableImages := vulnerableImages + [allImages[idx]];
        case Verdict(StatusFailed) =>
          failedImages := failedImages + [allImages[idx]];
        case Verdict(StatusOK) =>
      }
    }
    assert allImages[..|allImages|] == allImages;
    return vulnerableImages, failedImages, false;
  }

  /** From the timeout on every image is failed. */
  lemma {:induction false} RestFails(images: seq<Image>, outcome: nat -> Outcome, deadline: nat, n: nat)
    requires deadline <= n <= |images|
    ensures Sift(images[..n], outcome, deadline, Failed)
            == Sift(images[..deadline], outcome, deadline, Failed) + images[deadline..n]
    ensures Sift(images[..n], outcome, deadline, Vulnerable) == Sift(images[..deadline], outcome, deadline, Vulnerable)
  {
    if n > deadline {
      RestFails(images, outcome, deadline, n - 1);
      assert images[..n][..n - 1] == images[..n - 1];
      assert images[deadline..n] == images[deadline..n - 1] + [images[n - 1]];
    }
  }

  lemma SiftNothing(outcome: nat -> Outcome, deadline: nat)
    ensures forall kind :: Sift([], outcome, deadline, kind) == []
  {}

  /** For every timeout point the three classes together are the input: nothing is lost and nothing is doubled. */
  lemma {:induction false} ScanConserves(images: seq<Image>, outcome: nat -> Outcome, deadline: nat)
    ensures multiset(Sift(images, outcome, deadline, Vulnerable))
            + multiset(Sift(images, outcome, deadline, Failed))
            + multiset(Sift(images, outcome, deadline, Clean))
            == multiset(images)
  {
    SiftNothing(outcome, deadline);
    hide Sift;
    hide Grown;
    if images != [] {
      var n := |images| - 1;
      ScanConserves(images[..n], outcome, deadline);
      SiftGrows(images, outcome, deadline);
      OneGrows(Sift(images[..n], outcome, deadline, Vulnerable), Sift(images[..n], outcome, deadline, Failed),
               Sift(images[..n], outcome, deadline, Clean), Sift(images, outcome, deadline, Vulnerable),
               Sift(images, outcome, deadline, Failed), Sift(images, outcome, deadline, Clean), images[..n], images[n]);
      assert images == images[..n] + [images[n]];
    }
  }

  ghost predicate Grown<T>(a: seq<T>, b: seq<T>, c: seq<T>, a': seq<T>, b': seq<T>, c': seq<T>, x: T) {
    || (a' == a + [x] && b' == b && c' == c)
    || (a' == a && b' == b + [x] && c' == c)
    || (a' == a && b' == b && c' == c + [x])
  }

  lemma SiftGrows(images: seq<Image>, outcome: nat -> Outcome, deadline: nat)
    requires images != []
    ensures var n := |images| - 1;
            Grown(Sift(images[..n], outcome, deadline, Vulnerable), Sift(images[..n], outcome, deadline, Failed),
                  Sift(images[..n], outcome, deadline, Clean), Sift(images, outcome, deadline, Vulnerable),
                  Sift(images, outcome, deadline, Failed), Sift(images, outcome, deadline, Clean), images[n])
  {
    SiftLast(images, outcome, deadline, Vulnerable);
    SiftLast(images, outcome, deadline, Failed);
    SiftLast(images, outcome, deadline, Clean);
  }

  lemma SiftLast(images: seq<Image>, outcome: nat -> Outcome, deadline: nat, kind: Class)
    requires images != []
    ensures var n := |images| - 1;
            var before := Sift(images[..n], outcome, deadline, kind);
            Sift(images, outcome, deadline, kind)
            == if ClassAt(outcome, deadline, n) == kind then before + [images[n]] else before
  {}

  lemma OneGrows<T>(a: seq<T>, b: seq<T>, c: seq<T>, a': seq<T>, b': seq<T>, c': seq<T>, whole: seq<T>, x: T)
    requires multiset(a) + multiset(b) + multiset(c) == multiset(whole)
    requires Grown(a, b, c, a', b', c', x)
    ensures multiset(a') + multiset(b') + multiset(c') == multiset(whole + [x])
  {}

  /** Each class keeps the order of the input: its k-th image comes from an increasing sequence of positions, all of
      that class. */
  lemma {:induction false} SiftKeepsOrder(images: seq<Image>, outcome: nat -> Outcome, deadline: nat, kind: Class)
    returns (positions: seq<nat>)
    ensures |positions| == |Sift(images, outcome, deadline, kind)|
    ensures forall k :: 0 <= k < |positions| ==>
              && positions[k] < |images|
              && images[positions[k]] == Sift(images, outcome, deadline, kind)[k]
              && ClassAt(outcome, deadline, positions[k]) == kind
    ensures forall k, l :: 0 <= k < l < |positions| ==> positions[k] < positions[l]
  {
    if images == [] {
      positions := [];
    } else {
      var n := |images| - 1;
      positions := SiftKeepsOrder(images[..n], outcome, deadline, kind);
      if ClassAt(outcome, deadline, n) == kind {
        positions := positions + [n];
      }
    }
  }

  /** And every image of the class is there. */
  lemma {:induction false} SiftIsComplete(images: seq<Image>, outcome: nat -> Outcome, deadline: nat, kind: Class,
                                          p: nat)
    requires p < |images| && ClassAt(outcome, deadline, p) == kind
    ensures images[p] in Sift(images, outcome, deadline, kind)
  {
    var n := |images| - 1;
    if p < n {
      assert images[..n][p] == images[p];
      SiftIsComplete(images[..n], outcome, deadline, kind, p);
    }
  }

  // ---- the two together: a scan whose verdicts come from `Scan`

  /** The outcome for each image is the verdict `Scan` reaches on it; `trivy(i)` is what the references yield then. */
  ghost predicate ScansWith(outcome: nat -> Outcome, images: seq<Image>, deleteEOLImages: bool,
                            trivy: nat -> string -> Attempt)
  {
    forall i: nat :: i < |images| ==>
      outcome(i).Verdict? && FirstReportDecides(images[i], deleteEOLImages, trivy(i), outcome(i).status)
  }

  /** The class of an image says what its references yielded, unless the timeout came first. */
  lemma ClassMeaning(outcome: nat -> Outcome, images: seq<Image>, deleteEOLImages: bool,
                     trivy: nat -> string -> Attempt, deadline: nat, p: nat)
    requires ScansWith(outcome, images, deleteEOLImages, trivy) && p < |images|
    ensures ClassAt(outcome, deadline, p) == Vulnerable <==>
              p < deadline && FirstReportDecides(images[p], deleteEOLImages, trivy(p), StatusNonCompliant)
    ensures ClassAt(outcome, deadline, p) == Failed <==>
              p >= deadline || forall ref :: ref in References(images[p]) ==> !trivy(p)(ref).Report?
    ensures ClassAt(outcome, deadline, p) == Clean <==>
              p < deadline && FirstReportDecides(images[p], deleteEOLImages, trivy(p), StatusOK)
  {
    var verdict := outcome(p).status;
    VerdictIsUnique(images[p], deleteEOLImages, trivy(p), verdict, verdict);
    if FirstReportDecides(images[p], deleteEOLImages, trivy(p), StatusNonCompliant) {
      VerdictIsUnique(images[p], deleteEOLImages, trivy(p), verdict, StatusNonCompliant);
    }
    if FirstReportDecides(images[p], deleteEOLImages, trivy(p), StatusOK) {
      VerdictIsUnique(images[p], deleteEOLImages, trivy(p), verdict, StatusOK);
    }
  }

  /** `SendImages`: the failed images go along if the scanner is configured to have them deleted. */
  function ImagesToSend(nonCompliantImages: seq<Image>, failedImages: seq<Image>, deleteScanFailedImages: bool):
    seq<Image>
  {
    if deleteScanFailedImages then nonCompliantImages + failedImages else nonCompliantImages
  }
}
