/** Where the lists come from: what the remover acts on goes back to what the collector gathered, by way of what the
    scanner selected if there is one. */
module HandshakeLists {
  import opened Images
  import opened Fifo
  import opened Handshake
  import opened HandshakeSafety

  predicate Is(e: Event, p: Process) {
    e.Move? && e.p == p
  }

  /** Event number `i` is the collector's `getImages`; what it found is `events[i].images`. */
  ghost predicate GathersAt(scannerOn: bool, capacity: nat, events: seq<Event>, i: nat) {
    && i < |events| && Is(events[i], TheCollector)
    && Run(Init(scannerOn, capacity), events[..i]).c.CGather?
  }

  /** Event number `i` is the scan; what it selected is `events[i].images`. */
  ghost predicate SelectsAt(scannerOn: bool, capacity: nat, events: seq<Event>, i: nat) {
    && i < |events| && Is(events[i], TheScanner)
    && Run(Init(scannerOn, capacity), events[..i]).s.SScan?
  }

  // ---- each list is fixed once, by that step

  predicate BeforeScan(s: ScannerPc) {
    s.SAbsent? || s.SMakeDone? || s.SOpenList? || s.SWaitList? || s.SReadList?
  }

  /** All that a step leaves alone, by process. */
  ghost predicate ByCollector(st: State, images: seq<Image>, after: State) {
    && after.lists == (if st.c.CGather? then st.lists.(collected := images) else st.lists)
    && !after.c.CGather? && after.s == st.s && after.scannerOn == st.scannerOn
    && (st.scannerOn ==> after.pipes.scanErase.made == st.pipes.scanErase.made)
  }

  ghost predicate ByScanner(st: State, images: seq<Image>, after: State) {
    && after.lists.collected == st.lists.collected && after.c == st.c && after.scannerOn == st.scannerOn
    && after.lists.selected == (if st.s.SScan? then images else st.lists.selected)
    && (BeforeScan(st.s) || (!BeforeScan(after.s) && !after.s.SScan?))
    && after.pipes.collectScan.made == st.pipes.collectScan.made
    && (BeforeScan(st.s) || st.s.SScan? ==> after.pipes.scanErase.made == st.pipes.scanErase.made)
  }

  ghost predicate ByOther(st: State, after: State) {
    && after.lists.collected == st.lists.collected && after.lists.selected == st.lists.selected
    && (after.c == st.c || after.c == CExit(false)) && (after.s == st.s || after.s == SExit(false))
    && after.scannerOn == st.scannerOn && after.pipes.collectScan.made == st.pipes.collectScan.made
    && after.pipes.scanErase.made == st.pipes.scanErase.made
  }

  lemma CollectorStepsEarly(st: State, images: seq<Image>)
    requires CollectorNext(st, images).Some? && (st.c.CGather? || st.c.CMakeList? || st.c.COpenList? || st.c.CWaitList?)
    ensures ByCollector(st, images, CollectorNext(st, images).value)
  {}

  lemma CollectorStepsOn(st: State, images: seq<Image>)
    requires CollectorNext(st, images).Some? && (st.c.CWriteList? || st.c.CCloseList?)
    ensures ByCollector(st, images, CollectorNext(st, images).value)
  {
    hide Encode;
  }

  lemma CollectorStepsLate(st: State, images: seq<Image>)
    requires CollectorNext(st, images).Some?
    requires st.c.CMakeDone? || st.c.COpenDone? || st.c.CWaitDone? || st.c.CReadDone? || st.c.CCloseDone?
    ensures ByCollector(st, images, CollectorNext(st, images).value)
  {}

  lemma CollectorSteps(st: State, images: seq<Image>)
    requires CollectorNext(st, images).Some?
    ensures ByCollector(st, images, CollectorNext(st, images).value)
  {
    hide ByCollector;
    assert !st.c.CExit?;
    if st.c.CGather? || st.c.CMakeList? || st.c.COpenList? || st.c.CWaitList? {
      CollectorStepsEarly(st, images);
    } else if st.c.CWriteList? || st.c.CCloseList? {
      CollectorStepsOn(st, images);
    } else {
      CollectorStepsLate(st, images);
    }
  }

  lemma ScannerStepsEarly(st: State, images: seq<Image>)
    requires ScannerNext(st, images).Some? && BeforeScan(st.s) && !st.s.SReadList?
    ensures ByScanner(st, images, ScannerNext(st, images).value)
  {}

  lemma ScannerStepsReading(st: State, images: seq<Image>)
    requires ScannerNext(st, images).Some? && (st.s.SReadList? || st.s.SScan?)
    ensures ByScanner(st, images, ScannerNext(st, images).value)
  {
    hide Decode;
  }

  lemma ScannerStepsOn(st: State, images: seq<Image>)
    requires ScannerNext(st, images).Some?
    requires st.s.SMakeSend? || st.s.SOpenSend? || st.s.SWaitSend? || st.s.SWriteSend? || st.s.SCloseSend?
    ensures ByScanner(st, images, ScannerNext(st, images).value)
  {
    hide Encode;
  }

  lemma ScannerStepsLate(st: State, images: seq<Image>)
    requires ScannerNext(st, images).Some?
    requires st.s.SOpenDone? || st.s.SWaitDone? || st.s.SReadDone? || st.s.SCloseDone?
    ensures ByScanner(st, images, ScannerNext(st, images).value)
  {}

  lemma ScannerSteps(st: State, images: seq<Image>)
    requires ScannerNext(st, images).Some?
    ensures ByScanner(st, images, ScannerNext(st, images).value)
  {
    hide ByScanner;
    assert !st.s.SExit?;
    if st.s.SReadList? || st.s.SScan? {
      ScannerStepsReading(st, images);
    } else if BeforeScan(st.s) {
      ScannerStepsEarly(st, images);
    } else if st.s.SMakeSend? || st.s.SOpenSend? || st.s.SWaitSend? || st.s.SWriteSend? || st.s.SCloseSend? {
      ScannerStepsOn(st, images);
    } else {
      ScannerStepsLate(st, images);
    }
  }

  lemma RemoverStepsEarly(st: State)
    requires RemoverNext(st).Some? && (st.r.ROpenList? || st.r.RWaitList? || st.r.RReadList? || st.r.RRemove?)
    ensures ByOther(st, RemoverNext(st).value)
  {
    hide Decode;
  }

  lemma RemoverStepsOn(st: State)
    requires RemoverNext(st).Some?
    requires st.r.ROpenCollect? || st.r.RWaitCollect? || st.r.RWriteCollect? || st.r.RCloseCollect?
    ensures ByOther(st, RemoverNext(st).value)
  {}

  lemma RemoverStepsLate(st: State)
    requires RemoverNext(st).Some? && (st.r.ROpenScan? || st.r.RWaitScan? || st.r.RWriteScan? || st.r.RCloseScan?)
    ensures ByOther(st, RemoverNext(st).value)
  {}

  lemma StopSteps(st: State, p: Process)
    ensures ByOther(st, Stopped(st, p))
  {
  }

  ghost predicate By(st: State, e: Event, after: State) {
    match e
    case Move(TheCollector, images) =>
      if CollectorNext(st, images).Some? then ByCollector(st, images, after) else after == st
    case Move(TheScanner, images) =>
      if ScannerNext(st, images).Some? then ByScanner(st, images, after) else after == st
    case Move(TheRemover, _) => ByOther(st, after)
    case Stop(_) => ByOther(st, after)
  }

  lemma Steps(st: State, e: Event)
    ensures By(st, e, Apply(st, e))
  {
    hide Stopped;
    hide CollectorNext;
    hide ScannerNext;
    hide RemoverNext;
    hide ByCollector;
    hide ByScanner;
    match e {
      case Move(TheCollector, images) => if CollectorNext(st, images).Some? { CollectorSteps(st, images); }
      case Move(TheScanner, images) => if ScannerNext(st, images).Some? { ScannerSteps(st, images); }
      case Move(TheRemover, _) => if RemoverNext(st).Some? { RemoverSteps(st); }
      case Stop(p) => StopSteps(st, p);
    }
  }

  lemma RemoverSteps(st: State)
    requires RemoverNext(st).Some?
    ensures ByOther(st, RemoverNext(st).value)
  {
    hide ByOther;
    assert !st.r.RExit?;
    if st.r.ROpenList? || st.r.RWaitList? || st.r.RReadList? || st.r.RRemove? {
      RemoverStepsEarly(st);
    } else if st.r.ROpenCollect? || st.r.RWaitCollect? || st.r.RWriteCollect? || st.r.RCloseCollect? {
      RemoverStepsOn(st);
    } else {
      RemoverStepsLate(st);
    }
  }

  lemma AlwaysGoOn(st: State, images: seq<Image>)
    ensures st.c.CGather? ==> CollectorNext(st, images).Some?
    ensures st.s.SScan? ==> ScannerNext(st, images).Some?
    ensures st.c.CExit? ==> CollectorNext(st, images).None?
    ensures st.s.SExit? ==> ScannerNext(st, images).None?
  {}

  /** What a step does to the lists, summed up. */
  lemma StepFixes(st: State, e: Event)
    ensures var after := Apply(st, e);
            var gathers, selects := Is(e, TheCollector) && st.c.CGather?, Is(e, TheScanner) && st.s.SScan?;
            && after.lists.collected == (if gathers then e.images else st.lists.collected)
            && after.lists.selected == (if selects then e.images else st.lists.selected)
            && (gathers || !st.c.CGather? ==> !after.c.CGather?)
            && (selects || !(BeforeScan(st.s) || st.s.SScan?) ==> !BeforeScan(after.s) && !after.s.SScan?)
            && after.scannerOn == st.scannerOn
  {
    hide Apply;
    hide CollectorNext;
    hide ScannerNext;
    Steps(st, e);
    if e.Move? {
      AlwaysGoOn(st, e.images);
    }
  }

  /** What the collector gathered stays its list. */
  lemma {:induction false} GatheredStays(scannerOn: bool, capacity: nat, events: seq<Event>, i: nat)
    requires GathersAt(scannerOn, capacity, events, i)
    ensures var st := Run(Init(scannerOn, capacity), events);
            st.lists.collected == events[i].images && !st.c.CGather?
  {
    hide Apply;
    var n := |events| - 1;
    var before := events[..n];
    StepFixes(Run(Init(scannerOn, capacity), before), events[n]);
    if i < n {
      assert before[..i] == events[..i];
      GatheredStays(scannerOn, capacity, before, i);
    }
  }

  /** What the scanner selected stays its list. */
  lemma {:induction false} SelectedStays(scannerOn: bool, capacity: nat, events: seq<Event>, i: nat)
    requires SelectsAt(scannerOn, capacity, events, i)
    ensures var st := Run(Init(scannerOn, capacity), events);
            st.lists.selected == events[i].images && !BeforeScan(st.s) && !st.s.SScan?
  {
    hide Apply;
    var n := |events| - 1;
    var before := events[..n];
    StepFixes(Run(Init(scannerOn, capacity), before), events[n]);
    if i < n {
      assert before[..i] == events[..i];
      SelectedStays(scannerOn, capacity, before, i);
    }
  }

  // ---- no list is passed on before that step

  /** The collector has not gathered, so its list has not been passed on. */
  ghost predicate NothingGathered(st: State) {
    && (st.c.CGather? || st.c == CExit(false))
    && !ListPipe(st).made
    && (st.s.SAbsent? || st.s.SMakeDone? || st.s.SOpenList? || st.s.SExit?)
  }

  /** The scanner has not selected, so its list has not been passed on. */
  ghost predicate NothingSelected(st: State) {
    (BeforeScan(st.s) || st.s.SScan? || st.s.SExit?) && (st.scannerOn ==> !st.pipes.scanErase.made)
  }

  lemma NothingGatheredStep(st: State, e: Event)
    requires NothingGathered(st) && !(Is(e, TheCollector) && st.c.CGather?) && (st.scannerOn <==> !st.s.SAbsent?)
    ensures NothingGathered(Apply(st, e))
  {
    hide CollectorNext;
    hide ScannerNext;
    hide RemoverNext;
    hide Stopped;
    Steps(st, e);
    if e.Move? {
      AlwaysGoOn(st, e.images);
      if e.p == TheScanner && ScannerNext(st, e.images).Some? {
        NoListToOpen(st, e.images);
      }
    }
  }

  lemma NoListToOpen(st: State, images: seq<Image>)
    requires NothingGathered(st) && (st.scannerOn <==> !st.s.SAbsent?) && ScannerNext(st, images).Some?
    ensures var after := ScannerNext(st, images).value; after.s.SOpenList? || after.s.SExit?
  {}

  lemma NothingSelectedStep(st: State, e: Event)
    requires NothingSelected(st) && !(Is(e, TheScanner) && st.s.SScan?)
    ensures NothingSelected(Apply(st, e))
  {
    hide CollectorNext;
    hide ScannerNext;
    hide RemoverNext;
    hide Stopped;
    Steps(st, e);
    if e.Move? {
      AlwaysGoOn(st, e.images);
      if e.p == TheScanner && ScannerNext(st, e.images).Some? {
        StillBeforeScan(st, e.images);
      }
    }
  }

  lemma StillBeforeScan(st: State, images: seq<Image>)
    requires NothingSelected(st) && !st.s.SScan? && ScannerNext(st, images).Some?
    ensures var after := ScannerNext(st, images).value; BeforeScan(after.s) || after.s.SScan? || after.s.SExit?
  {}

  lemma {:induction false} GatheredOrNothing(scannerOn: bool, capacity: nat, events: seq<Event>)
    ensures || (exists i: nat :: GathersAt(scannerOn, capacity, events, i))
            || NothingGathered(Run(Init(scannerOn, capacity), events))
  {
    hide Apply;
    if events == [] {
      assert NothingGathered(Init(scannerOn, capacity));
    } else {
      var n := |events| - 1;
      var before := events[..n];
      GatheredOrNothing(scannerOn, capacity, before);
      if i: nat :| GathersAt(scannerOn, capacity, before, i) {
        assert before[..i] == events[..i];
        assert GathersAt(scannerOn, capacity, events, i);
      } else if !GathersAt(scannerOn, capacity, events, n) {
        SafeRun(scannerOn, capacity, before);
        NothingGatheredStep(Run(Init(scannerOn, capacity), before), events[n]);
      }
    }
  }

  lemma {:induction false} SelectedOrNothing(scannerOn: bool, capacity: nat, events: seq<Event>)
    ensures || (exists i: nat :: SelectsAt(scannerOn, capacity, events, i))
            || NothingSelected(Run(Init(scannerOn, capacity), events))
  {
    hide Apply;
    if events == [] {
      assert NothingSelected(Init(scannerOn, capacity));
    } else {
      var n := |events| - 1;
      var before := events[..n];
      SelectedOrNothing(scannerOn, capacity, before);
      if i: nat :| SelectsAt(scannerOn, capacity, before, i) {
        assert before[..i] == events[..i];
        assert SelectsAt(scannerOn, capacity, events, i);
      } else if !SelectsAt(scannerOn, capacity, events, n) {
        NothingSelectedStep(Run(Init(scannerOn, capacity), before), events[n]);
      }
    }
  }

  // ---- where what a process acts on comes from

  lemma {:induction false} ScannerStays(scannerOn: bool, capacity: nat, events: seq<Event>)
    ensures Run(Init(scannerOn, capacity), events).scannerOn == scannerOn
  {
    hide Apply;
    if events != [] {
      ScannerStays(scannerOn, capacity, events[..|events| - 1]);
      StepFixes(Run(Init(scannerOn, capacity), events[..|events| - 1]), events[|events| - 1]);
    }
  }

  /** Whoever scans, scans what the collector gathered. */
  lemma ScannedWasGathered(scannerOn: bool, capacity: nat, events: seq<Event>)
    requires ScannerHasList(Run(Init(scannerOn, capacity), events).s)
    ensures exists i: nat :: GathersAt(scannerOn, capacity, events, i)
              && Run(Init(scannerOn, capacity), events).lists.received == events[i].images
  {
    GatheredOrNothing(scannerOn, capacity, events);
    var i: nat :| GathersAt(scannerOn, capacity, events, i);
    GatheredStays(scannerOn, capacity, events, i);
    Causality(scannerOn, capacity, events);
  }

  /** Over every schedule of steps and stops: without a scanner the remover acts on exactly what the collector gathered;
      with one, on exactly what the scanner selected, and when it did so the scanner held exactly what the collector had
      gathered before. */
  lemma Provenance(scannerOn: bool, capacity: nat, events: seq<Event>)
    requires var st := Run(Init(scannerOn, capacity), events); RemoverHasList(st.r) || st.removed
    ensures var imagelist := Run(Init(scannerOn, capacity), events).lists.imagelist;
            if scannerOn then
              exists j: nat :: SelectsAt(scannerOn, capacity, events, j) && imagelist == events[j].images
                && exists i: nat :: GathersAt(scannerOn, capacity, events[..j], i)
                     && Run(Init(scannerOn, capacity), events[..j]).lists.received == events[i].images
            else
              exists i: nat :: GathersAt(scannerOn, capacity, events, i) && imagelist == events[i].images
  {
    hide Safe;
    hide Run;
    var st := Run(Init(scannerOn, capacity), events);
    Causality(scannerOn, capacity, events);
    ScannerStays(scannerOn, capacity, events);
    if scannerOn {
      var j := RemovedWasSelected(capacity, events);
      ScannedWasGathered(true, capacity, events[..j]);
      var i: nat :| GathersAt(true, capacity, events[..j], i)
        && Run(Init(true, capacity), events[..j]).lists.received == events[..j][i].images;
      assert events[..j][i] == events[i];
    } else {
      var i := RemovedWasGathered(capacity, events);
    }
  }

  lemma RemovedWasSelected(capacity: nat, events: seq<Event>) returns (j: nat)
    requires var st := Run(Init(true, capacity), events); RemoverHasList(st.r) || st.removed
    ensures SelectsAt(true, capacity, events, j)
    ensures Run(Init(true, capacity), events).lists.selected == events[j].images
    ensures Run(Init(true, capacity), events[..j]).s.SScan?
  {
    hide Run;
    SafeRun(true, capacity, events);
    ScannerStays(true, capacity, events);
    SelectedOrNothing(true, capacity, events);
    j :| SelectsAt(true, capacity, events, j);
    SelectedStays(true, capacity, events, j);
  }

  lemma RemovedWasGathered(capacity: nat, events: seq<Event>) returns (i: nat)
    requires var st := Run(Init(false, capacity), events); RemoverHasList(st.r) || st.removed
    ensures GathersAt(false, capacity, events, i)
    ensures Run(Init(false, capacity), events).lists.collected == events[i].images
  {
    hide Run;
    SafeRun(false, capacity, events);
    ScannerStays(false, capacity, events);
    GatheredOrNothing(false, capacity, events);
    i :| GathersAt(false, capacity, events, i);
    GatheredStays(false, capacity, events, i);
  }
}
