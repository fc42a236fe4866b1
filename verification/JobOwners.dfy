/** The selection of an owner's jobs from a listing. */
module JobOwners {
  /** A listed job and the uids of its owner references. */
  datatype ListedJob = ListedJob(name: nat, ownerUids: seq<nat>)

  /** The jobs with an owner reference to `uid`, in listing order. */
  function OwnedBy(jobs: seq<ListedJob>, uid: nat): seq<ListedJob> {
    if jobs == [] then []
    else
      var n := |jobs| - 1;
      var owned := OwnedBy(jobs[..n], uid);
      if uid in jobs[n].ownerUids then owned + [jobs[n]] else owned
  }

  method FilterJobListByOwner(jobs: seq<ListedJob>, uid: nat) returns (ret: seq<ListedJob>)
    ensures ret == OwnedBy(jobs, uid)
  {
    ret := [];
    for i := 0 to |jobs|
      invariant ret == OwnedBy(jobs[..i], uid)
    {
      assert jobs[..i + 1][..i] == jobs[..i];
      ghost var before := ret;
      for j := 0 to |jobs[i].ownerUids|
        invariant ret == before && uid !in jobs[i].ownerUids[..j]
      {
        if jobs[i].ownerUids[j] == uid {
          ret := ret + [jobs[i]];
          break;
        }
      }
    }
    assert jobs[..|jobs|] == jobs;
  }

  /** Every owned job, each as often as it is listed however many references it has, from increasing positions. */
  lemma {:induction false} OwnedByMeaning(jobs: seq<ListedJob>, uid: nat) returns (positions: seq<nat>)
    ensures forall job :: job in OwnedBy(jobs, uid) <==> job in jobs && uid in job.ownerUids
    ensures |positions| == |OwnedBy(jobs, uid)|
    ensures forall k :: 0 <= k < |positions| ==>
              positions[k] < |jobs| && jobs[positions[k]] == OwnedBy(jobs, uid)[k]
    ensures forall k, l :: 0 <= k < l < |positions| ==> positions[k] < positions[l]
  {
    positions := [];
    if jobs != [] {
      var n := |jobs| - 1;
      positions := OwnedByMeaning(jobs[..n], uid);
      assert jobs == jobs[..n] + [jobs[n]];
      if uid in jobs[n].ownerUids {
        positions := positions + [n];
      }
    }
  }
}
