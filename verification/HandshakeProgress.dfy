/** What the handshake guarantees if no process stops: it either ends with every process finished, or in one deadlock,
    and which of the two is decided by a single race. */
module HandshakeProgress {
  import opened Wrappers
  import opened Images
  import opened Fifo
  import opened Handshake
  import opened Channel
  import opened HandshakeSafety

  // ---- which end of which pipe a process holds, by its program counter

  function CollectorListEnd(c: CollectorPc): End {
    if c.CGather? || c.CMakeList? || c.COpenList? then Free
    else if c.CWaitList? || c.CWriteList? || c.CCloseList? then Held
    else Shut
  }

  function CollectorDoneEnd(c: CollectorPc): End {
    if c.CWaitDone? || c.CReadDone? || c.CCloseDone? then Held
    else if c.CExit? then Shut
    else Free
  }

  function ScannerListEnd(s: ScannerPc): End {
    if s.SAbsent? || s.SMakeDone? || s.SOpenList? then Free
    else if s.SExit? then Shut
    else Held
  }

  function ScannerSendEnd(s: ScannerPc): End {
    if ScannerBeforeSend(s) || s.SOpenSend? then Free
    else if s.SWaitSend? || s.SWriteSend? || s.SCloseSend? then Held
    else Shut
  }

  function ScannerDoneEnd(s: ScannerPc): End {
    if s.SWaitDone? || s.SReadDone? || s.SCloseDone? then Held
    else if s.SExit? then Shut
    else Free
  }

  function RemoverListEnd(r: RemoverPc): End {
    if r.ROpenList? then Free
    else if r.RWaitList? || r.RReadList? then Held
    else Shut
  }

  function RemoverCollectEnd(r: RemoverPc): End {
    if r.RWaitCollect? || r.RWriteCollect? || r.RCloseCollect? then Held
    else if r.ROpenScan? || r.RWaitScan? || r.RWriteScan? || r.RCloseScan? || r == RExit(true) then Shut
    else Free
  }

  predicate RemoverBeforeTelling(r: RemoverPc) {
    RemoverListEnd(r) != Shut || r.RRemove? || r.ROpenCollect? || r.RWaitCollect?
  }

  function RemoverScanEnd(st: State): End {
    if st.r.RWaitScan? || st.r.RWriteScan? || st.r.RCloseScan? then Held
    else if st.r == RExit(true) && st.scannerOn then Shut
    else Free
  }

  /** Both ends meet, and neither is let go of before that. */
  ghost predicate Joined(p: Pipe) {
    && (p.joined <==> p.reader != Free && p.writer != Free)
    && (p.reader == Shut || p.writer == Shut ==> p.joined)
  }

  ghost predicate CollectScanEnds(st: State) {
    && st.pipes.collectScan.writer == (if st.scannerOn then CollectorListEnd(st.c) else Free)
    && st.pipes.collectScan.reader == ScannerListEnd(st.s)
    && Joined(st.pipes.collectScan)
  }

  ghost predicate ScanEraseEnds(st: State) {
    && st.pipes.scanErase.writer == (if st.scannerOn then ScannerSendEnd(st.s) else CollectorListEnd(st.c))
    && st.pipes.scanErase.reader == RemoverListEnd(st.r)
    && Joined(st.pipes.scanErase)
  }

  ghost predicate DoneCollectEnds(st: State) {
    && st.pipes.doneCollect.writer == RemoverCollectEnd(st.r)
    && st.pipes.doneCollect.reader == CollectorDoneEnd(st.c)
    && Joined(st.pipes.doneCollect)
  }

  ghost predicate DoneScanEnds(st: State) {
    && st.pipes.doneScan.writer == RemoverScanEnd(st)
    && st.pipes.doneScan.reader == ScannerDoneEnd(st.s)
    && Joined(st.pipes.doneScan)
  }

  ghost predicate Ends(st: State) {
    CollectScanEnds(st) && ScanEraseEnds(st) && DoneCollectEnds(st) && DoneScanEnds(st)
  }

  ghost predicate Made(st: State) {
    && (ListPipe(st).made <==> !st.c.CGather? && !st.c.CMakeList?)
    && (st.pipes.doneCollect.made <==> CollectorListEnd(st.c) == Shut && !st.c.CMakeDone?)
    && (st.pipes.doneScan.made <==> !st.s.SAbsent? && !st.s.SMakeDone?)
    && (st.scannerOn ==> (st.pipes.scanErase.made <==> !ScannerBeforeSend(st.s)))
  }

  /** Nobody is ahead of whom it waits for, and the only failure is the remover's when it loses the race. */
  ghost predicate InStep(st: State) {
    && (ScannerHasList(st.s) || st.s.SExit? ==> CollectorListEnd(st.c) == Shut)
    && (RemoverListEnd(st.r) == Shut ==> st.pipes.scanErase.writer == Shut)
    && (st.c.CCloseDone? || st.c.CExit? ==> st.pipes.doneCollect.writer == Shut)
    && (st.s.SCloseDone? || st.s.SExit? ==> st.r == RExit(true))
    && (st.scannerOn && ScannerSendEnd(st.s) == Shut ==> st.pipes.scanErase.log == Encode(st.lists.selected))
    && st.c != CExit(false) && st.s != SExit(false)
    && (st.r == RExit(false) <==> st.lost)
    && st.capacity >= 1
  }

  ghost predicate Live(st: State) {
    Ends(st) && Made(st) && InStep(st)
  }

  lemma LiveInit(scannerOn: bool, capacity: nat)
    requires capacity >= 1
    ensures Live(Init(scannerOn, capacity))
  {}

  lemma LiveInParts(st: State)
    requires CollectScanEnds(st) && ScanEraseEnds(st)
    requires DoneCollectEnds(st) && DoneScanEnds(st)
    requires Made(st) && InStep(st)
    ensures Live(st)
  {}

  // ---- no step leaves it

  /** Who is past an open finds the pipe joined. */
  lemma PastOpensJoined(st: State)
    requires Safe(st)
    ensures st.c.CWriteList? || st.c.CCloseList? ==> ListPipe(st).joined
    ensures st.c.CReadDone? || st.c.CCloseDone? ==> st.pipes.doneCollect.joined
    ensures st.s.SReadList? ==> st.pipes.collectScan.joined
    ensures st.s.SWriteSend? || st.s.SCloseSend? ==> st.pipes.scanErase.joined
    ensures st.s.SReadDone? ==> st.pipes.doneScan.joined
    ensures ScannerHasList(st.s) ==> st.pipes.collectScan.joined
    ensures st.r.RReadList? || RemoverHasList(st.r) ==> st.pipes.scanErase.joined
    ensures st.r.RWriteCollect? || st.r.RCloseCollect? ==> st.pipes.doneCollect.joined
    ensures st.r.RWriteScan? || st.r.RCloseScan? ==> st.pipes.doneScan.joined
  {}

  /** The collector never takes an error exit. */
  lemma CollectorDoesNotFail(st: State)
    requires Safe(st) && Live(st)
    ensures st.c.CMakeList? ==> !ListPipe(st).made
    ensures st.c.CWriteList? ==> ListPipe(st).reader == Held
    ensures st.c.CMakeDone? ==> !st.pipes.doneCollect.made
    ensures st.c.CCloseDone? ==> st.c.data == [Complete]
  {
    PastOpensJoined(st);
    if st.c.CCloseDone? {
      assert Carries(st.pipes.doneCollect, RemoverTellsCollector(st.r), Received(st.c.data));
    }
  }

  lemma LiveCollectorMakesList(st: State, images: seq<Image>)
    requires Safe(st) && Live(st) && CollectorNext(st, images).Some?
    requires st.c.CGather? || st.c.CMakeList? || st.c.COpenList?
    ensures Live(CollectorNext(st, images).value)
  {
    PastOpensJoined(st);
    CollectorDoesNotFail(st);
    LiveInParts(CollectorNext(st, images).value);
  }

  lemma LiveCollectorOpensList(st: State, images: seq<Image>)
    requires Safe(st) && Live(st) && CollectorNext(st, images).Some?
    requires st.c.CWaitList?
    ensures Live(CollectorNext(st, images).value)
  {
    PastOpensJoined(st);
    CollectorDoesNotFail(st);
    LiveInParts(CollectorNext(st, images).value);
  }

  lemma LiveCollectorWritesList(st: State, images: seq<Image>)
    requires Safe(st) && Live(st) && CollectorNext(st, images).Some?
    requires st.c.CWriteList?
    ensures Live(CollectorNext(st, images).value)
  {
    PastOpensJoined(st);
    CollectorDoesNotFail(st);
    LiveInParts(CollectorNext(st, images).value);
  }

  lemma LiveCollectorClosesList(st: State, images: seq<Image>)
    requires Safe(st) && Live(st) && CollectorNext(st, images).Some?
    requires st.c.CCloseList?
    ensures Live(CollectorNext(st, images).value)
  {
    PastOpensJoined(st);
    CollectorDoesNotFail(st);
    LiveInParts(CollectorNext(st, images).value);
  }

  lemma LiveCollectorOffersDone(st: State, images: seq<Image>)
    requires Safe(st) && Live(st) && CollectorNext(st, images).Some?
    requires st.c.CMakeDone? || st.c.COpenDone?
    ensures Live(CollectorNext(st, images).value)
  {
    PastOpensJoined(st);
    CollectorDoesNotFail(st);
    LiveInParts(CollectorNext(st, images).value);
  }

  lemma LiveCollectorOpensDone(st: State, images: seq<Image>)
    requires Safe(st) && Live(st) && CollectorNext(st, images).Some?
    requires st.c.CWaitDone?
    ensures Live(CollectorNext(st, images).value)
  {
    PastOpensJoined(st);
    CollectorDoesNotFail(st);
    LiveInParts(CollectorNext(st, images).value);
  }

  lemma LiveCollectorReadsDone(st: State, images: seq<Image>)
    requires Safe(st) && Live(st) && CollectorNext(st, images).Some?
    requires st.c.CReadDone?
    ensures Live(CollectorNext(st, images).value)
  {
    PastOpensJoined(st);
    var p, after := st.pipes.doneCollect, CollectorNext(st, images).value;
    if p.buf != [] {
      assert after == st.(pipes := st.pipes.(doneCollect := Take(p)), c := CReadDone(st.c.got + [p.buf[0]]));
    } else {
      assert after == st.(c := CCloseDone(st.c.got)) && p.writer == Shut;
    }
  }

  lemma LiveCollectorFinishes(st: State, images: seq<Image>)
    requires Safe(st) && Live(st) && CollectorNext(st, images).Some?
    requires st.c.CCloseDone?
    ensures Live(CollectorNext(st, images).value)
  {
    PastOpensJoined(st);
    CollectorDoesNotFail(st);
    LiveInParts(CollectorNext(st, images).value);
  }

  /** Nor does the scanner. */
  lemma ScannerDoesNotFail(st: State)
    requires Safe(st) && Live(st)
    ensures st.s.SMakeDone? ==> !st.pipes.doneScan.made
    ensures st.s.SReadList? && AtEnd(st.pipes.collectScan) ==> Decode(st.s.got).Some?
    ensures st.s.SMakeSend? ==> !st.pipes.scanErase.made
    ensures st.s.SWriteSend? ==> st.pipes.scanErase.reader == Held
    ensures st.s.SCloseSend? ==> st.pipes.scanErase.log == Encode(st.lists.selected)
  {
    PastOpensJoined(st);
    if st.s.SReadList? && AtEnd(st.pipes.collectScan) {
      ReadEnds(st.pipes.collectScan, CollectorSends(st), st.s.got);
      DecodeMeaning(st.s.got, st.lists.collected);
    }
  }

  lemma LiveScannerOpensList(st: State, images: seq<Image>)
    requires Safe(st) && Live(st) && ScannerNext(st, images).Some?
    requires st.s.SMakeDone? || st.s.SOpenList? || st.s.SWaitList?
    ensures Live(ScannerNext(st, images).value)
  {
    PastOpensJoined(st);
    ScannerDoesNotFail(st);
    LiveInParts(ScannerNext(st, images).value);
  }

  lemma LiveScannerReadsAndScans(st: State, images: seq<Image>)
    requires Safe(st) && Live(st) && ScannerNext(st, images).Some?
    requires st.s.SReadList? || st.s.SScan? || st.s.SMakeSend?
    ensures Live(ScannerNext(st, images).value)
  {
    PastOpensJoined(st);
    ScannerDoesNotFail(st);
    LiveInParts(ScannerNext(st, images).value);
  }

  lemma LiveScannerOpensSend(st: State, images: seq<Image>)
    requires Safe(st) && Live(st) && ScannerNext(st, images).Some?
    requires st.s.SOpenSend? || st.s.SWaitSend?
    ensures Live(ScannerNext(st, images).value)
  {
    PastOpensJoined(st);
    ScannerDoesNotFail(st);
    LiveInParts(ScannerNext(st, images).value);
  }

  lemma LiveScannerSendsOn(st: State, images: seq<Image>)
    requires Safe(st) && Live(st) && ScannerNext(st, images).Some?
    requires st.s.SWriteSend? || st.s.SCloseSend?
    ensures Live(ScannerNext(st, images).value)
  {
    hide Safe;
    hide Encode;
    hide Decode;
    PastOpensJoined(st);
    ScannerDoesNotFail(st);
    LiveInParts(ScannerNext(st, images).value);
  }

  lemma LiveScannerOpensDone(st: State, images: seq<Image>)
    requires Safe(st) && Live(st) && ScannerNext(st, images).Some?
    requires st.s.SOpenDone? || st.s.SWaitDone?
    ensures Live(ScannerNext(st, images).value)
  {
    PastOpensJoined(st);
    ScannerDoesNotFail(st);
    LiveInParts(ScannerNext(st, images).value);
  }

  lemma LiveScannerHearsOut(st: State, images: seq<Image>)
    requires Safe(st) && Live(st) && ScannerNext(st, images).Some?
    requires st.s.SReadDone? || st.s.SCloseDone?
    ensures Live(ScannerNext(st, images).value)
  {
    PastOpensJoined(st);
    ScannerDoesNotFail(st);
    LiveInParts(ScannerNext(st, images).value);
  }

  /** The remover fails only by losing the race. */
  lemma RemoverDoesNotFail(st: State)
    requires Safe(st) && Live(st)
    ensures st.r.RReadList? && AtEnd(st.pipes.scanErase) ==> Decode(st.r.got).Some?
    ensures st.r.RWriteCollect? ==> st.pipes.doneCollect.reader == Held
    ensures st.r.ROpenScan? && st.scannerOn ==> st.pipes.doneScan.made
    ensures st.r.RWriteScan? ==> st.pipes.doneScan.reader == Held
  {
    PastOpensJoined(st);
    if st.r.RReadList? && AtEnd(st.pipes.scanErase) {
      ReadEnds(st.pipes.scanErase, if st.scannerOn then ScannerSends(st) else CollectorSends(st), st.r.got);
      DecodeMeaning(st.r.got, SenderList(st));
    }
  }

  lemma LiveRemoverOpensList(st: State)
    requires Safe(st) && Live(st) && RemoverNext(st).Some?
    requires st.r.ROpenList? || st.r.RWaitList?
    ensures Live(RemoverNext(st).value)
  {
    PastOpensJoined(st);
    RemoverDoesNotFail(st);
    LiveInParts(RemoverNext(st).value);
  }

  lemma LiveRemoverReadsList(st: State)
    requires Safe(st) && Live(st) && RemoverNext(st).Some?
    requires st.r.RReadList?
    ensures Live(RemoverNext(st).value)
  {
    PastOpensJoined(st);
    RemoverDoesNotFail(st);
    var p, after := st.pipes.scanErase, RemoverNext(st).value;
    if p.buf != [] {
      assert after == st.(pipes := st.pipes.(scanErase := Take(p)), r := RReadList(st.r.got + [p.buf[0]]));
    } else {
      var lists := st.lists.(imagelist := Decode(st.r.got).value);
      assert after == st.(pipes := st.pipes.(scanErase := CloseReader(p)), lists := lists, r := RRemove);
    }
  }

  lemma LiveRemoverReachesCollector(st: State)
    requires Safe(st) && Live(st) && RemoverNext(st).Some?
    requires st.r.RRemove? || st.r.ROpenCollect? || st.r.RWaitCollect?
    ensures Live(RemoverNext(st).value)
  {
    PastOpensJoined(st);
    RemoverDoesNotFail(st);
    LiveInParts(RemoverNext(st).value);
  }

  lemma LiveRemoverTellsCollectorOn(st: State)
    requires Safe(st) && Live(st) && RemoverNext(st).Some?
    requires st.r.RWriteCollect? || st.r.RCloseCollect?
    ensures Live(RemoverNext(st).value)
  {
    PastOpensJoined(st);
    RemoverDoesNotFail(st);
    LiveInParts(RemoverNext(st).value);
  }

  lemma LiveRemoverReachesScanner(st: State)
    requires Safe(st) && Live(st) && RemoverNext(st).Some?
    requires st.r.ROpenScan? || st.r.RWaitScan?
    ensures Live(RemoverNext(st).value)
  {
    PastOpensJoined(st);
    RemoverDoesNotFail(st);
    LiveInParts(RemoverNext(st).value);
  }

  lemma LiveRemoverTellsScannerOn(st: State)
    requires Safe(st) && Live(st) && RemoverNext(st).Some?
    requires st.r.RWriteScan? || st.r.RCloseScan?
    ensures Live(RemoverNext(st).value)
  {
    PastOpensJoined(st);
    RemoverDoesNotFail(st);
    LiveInParts(RemoverNext(st).value);
  }

  lemma LiveCollector(st: State, images: seq<Image>)
    requires Safe(st) && Live(st) && CollectorNext(st, images).Some?
    ensures Live(CollectorNext(st, images).value)
  {
    assert !st.c.CExit?;
    if st.c.CGather? || st.c.CMakeList? || st.c.COpenList? {
      LiveCollectorMakesList(st, images);
    } else if st.c.CWaitList? {
      LiveCollectorOpensList(st, images);
    } else if st.c.CWriteList? {
      LiveCollectorWritesList(st, images);
    } else if st.c.CCloseList? {
      LiveCollectorClosesList(st, images);
    } else if st.c.CMakeDone? || st.c.COpenDone? {
      LiveCollectorOffersDone(st, images);
    } else if st.c.CWaitDone? {
      LiveCollectorOpensDone(st, images);
    } else if st.c.CReadDone? {
      LiveCollectorReadsDone(st, images);
    } else {
      LiveCollectorFinishes(st, images);
    }
  }

  lemma LiveScanner(st: State, images: seq<Image>)
    requires Safe(st) && Live(st) && ScannerNext(st, images).Some?
    ensures Live(ScannerNext(st, images).value)
  {
    assert !st.s.SExit? && !st.s.SAbsent?;
    if st.s.SMakeDone? || st.s.SOpenList? || st.s.SWaitList? {
      LiveScannerOpensList(st, images);
    } else if st.s.SReadList? || st.s.SScan? || st.s.SMakeSend? {
      LiveScannerReadsAndScans(st, images);
    } else if st.s.SOpenSend? || st.s.SWaitSend? {
      LiveScannerOpensSend(st, images);
    } else if st.s.SWriteSend? || st.s.SCloseSend? {
      LiveScannerSendsOn(st, images);
    } else if st.s.SOpenDone? || st.s.SWaitDone? {
      LiveScannerOpensDone(st, images);
    } else {
      LiveScannerHearsOut(st, images);
    }
  }

  lemma LiveRemover(st: State)
    requires Safe(st) && Live(st) && RemoverNext(st).Some?
    ensures Live(RemoverNext(st).value)
  {
    assert !st.r.RExit?;
    if st.r.ROpenList? || st.r.RWaitList? {
      LiveRemoverOpensList(st);
    } else if st.r.RReadList? {
      LiveRemoverReadsList(st);
    } else if st.r.RRemove? || st.r.ROpenCollect? || st.r.RWaitCollect? {
      LiveRemoverReachesCollector(st);
    } else if st.r.RWriteCollect? || st.r.RCloseCollect? {
      LiveRemoverTellsCollectorOn(st);
    } else if st.r.ROpenScan? || st.r.RWaitScan? {
      LiveRemoverReachesScanner(st);
    } else {
      LiveRemoverTellsScannerOn(st);
    }
  }

  // ---- how a run without stops can end

  predicate CanMove(st: State, p: Process) {
    Next(st, p, []).Some?
  }

  predicate Finished(st: State) {
    st.c == CExit(true) && st.r == RExit(true) && (st.scannerOn ==> st.s == SExit(true))
  }

  /** The remover gave up on the missing pipe; the collector waits for it for ever, and so does the scanner. */
  predicate Deadlocked(st: State) {
    st.lost && st.r == RExit(false) && st.c == CWaitDone && (st.scannerOn ==> st.s == SWaitDone)
  }

  lemma WhoCanMove(st: State)
    requires Safe(st) && Live(st)
    requires !CanMove(st, TheCollector) && !CanMove(st, TheScanner) && !CanMove(st, TheRemover)
    ensures st.c.CExit? || st.c.CWaitDone?
    ensures st.s.SAbsent? || st.s.SExit? || st.s.SWaitDone?
    ensures st.r.RExit?
  {
    PastOpensJoined(st);
    BuffersDrain(st);
  }

  /** A writer that waits for room waits for a reader that is reading. */
  lemma BuffersDrain(st: State)
    requires Safe(st) && Live(st)
    ensures st.r.RWriteCollect? ==> st.pipes.doneCollect.buf == []
    ensures st.r.RWriteScan? ==> st.pipes.doneScan.buf == []
  {
    assert [Complete][..0] == [];
  }

  /** Progress: a run in which no process stops ends with all of them finished, unless the remover lost the race for
      `eraseCompleteCollect`; then it ends in the deadlock. Nothing else is possible. */
  lemma OutcomeOfCompleteRun(st: State)
    requires Safe(st) && Live(st)
    requires !CanMove(st, TheCollector) && !CanMove(st, TheScanner) && !CanMove(st, TheRemover)
    ensures if st.lost then Deadlocked(st) else Finished(st)
  {
    WhoCanMove(st);
  }

  /** The race is lost exactly if the remover's step finds the collector between closing its list and its next
      statement. */
  lemma RaceWindow(st: State)
    requires Safe(st) && Live(st) && RemoverNext(st).Some? && !st.lost
    ensures RemoverNext(st).value.lost <==> st.r.ROpenCollect? && st.c.CMakeDone?
  {
    hide Carries;
    hide Encode;
  }

  // ---- termination

  function CollectorRank(c: CollectorPc): nat {
    match c
    case CGather => 11
    case CMakeList => 10
    case COpenList => 9
    case CWaitList => 8
    case CWriteList(_) => 7
    case CCloseList => 6
    case CMakeDone => 5
    case COpenDone => 4
    case CWaitDone => 3
    case CReadDone(_) => 2
    case CCloseDone(_) => 1
    case CExit(_) => 0
  }

  function ScannerRank(s: ScannerPc): nat {
    match s
    case SAbsent => 0
    case SMakeDone => 14
    case SOpenList => 13
    case SWaitList => 12
    case SReadList(_) => 11
    case SScan => 10
    case SMakeSend => 9
    case SOpenSend => 8
    case SWaitSend => 7
    case SWriteSend(_) => 6
    case SCloseSend => 5
    case SOpenDone => 4
    case SWaitDone => 3
    case SReadDone(_) => 2
    case SCloseDone => 1
    case SExit(_) => 0
  }

  function RemoverRank(r: RemoverPc): nat {
    match r
    case ROpenList => 12
    case RWaitList => 11
    case RReadList(_) => 10
    case RRemove => 9
    case ROpenCollect => 8
    case RWaitCollect => 7
    case RWriteCollect => 6
    case RCloseCollect => 5
    case ROpenScan => 4
    case RWaitScan => 3
    case RWriteScan => 2
    case RCloseScan => 1
    case RExit(_) => 0
  }

  function Rank(st: State): nat {
    CollectorRank(st.c) + ScannerRank(st.s) + RemoverRank(st.r)
  }

  /** The tokens still to be written by whoever is writing a list. */
  function ToWrite(st: State): nat {
    var cData, sData := |Encode(st.lists.collected)|, |Encode(st.lists.selected)|;
    (if st.c.CWriteList? && st.c.n <= cData then cData - st.c.n else 0) +
    (if st.s.SWriteSend? && st.s.n <= sData then sData - st.s.n else 0)
  }

  function Buffered(st: State): nat {
    |st.pipes.collectScan.buf| + |st.pipes.scanErase.buf| + |st.pipes.doneCollect.buf| + |st.pipes.doneScan.buf|
  }

  /** Closer to the end: first by the program counters, then by what is left to write, then by what is left to read.
      The lists may have any length, which is not known until they are gathered and scanned. */
  ghost predicate Closer(st: State, after: State) {
    || Rank(after) < Rank(st)
    || (Rank(after) == Rank(st) && ToWrite(after) < ToWrite(st))
    || (Rank(after) == Rank(st) && ToWrite(after) == ToWrite(st) && Buffered(after) < Buffered(st))
  }

  lemma CollectorAdvances(st: State, images: seq<Image>)
    requires CollectorNext(st, images).Some? && !st.c.CWriteList? && !st.c.CReadDone?
    ensures CollectorRank(CollectorNext(st, images).value.c) < CollectorRank(st.c)
    ensures CollectorNext(st, images).value.s == st.s && CollectorNext(st, images).value.r == st.r
  {
    hide Encode;
    hide Decode;
    var after := CollectorNext(st, images).value;
    match st.c {
      case CGather => assert after.c == CMakeList;
      case CMakeList => assert after.c in {COpenList, CExit(false)};
      case COpenList => assert after.c == CWaitList;
      case CWaitList => assert after.c == CWriteList(0);
      case CCloseList => assert after.c == CMakeDone;
      case CMakeDone => assert after.c in {COpenDone, CExit(false)};
      case COpenDone => assert after.c == CWaitDone;
      case CWaitDone => assert after.c == CReadDone([]);
      case CCloseDone(_) => assert after.c.CExit?;
    }
  }

  lemma CollectorWritesOn(st: State, images: seq<Image>)
    requires CollectorNext(st, images).Some? && st.c.CWriteList?
    ensures Closer(st, CollectorNext(st, images).value)
  {
    hide Encode;
    hide ScannerRank;
    hide RemoverRank;
  }

  lemma CollectorHearsOn(st: State, images: seq<Image>)
    requires CollectorNext(st, images).Some? && st.c.CReadDone?
    ensures Closer(st, CollectorNext(st, images).value)
  {
  }

  lemma ScannerAdvances(st: State, images: seq<Image>)
    requires ScannerNext(st, images).Some? && !st.s.SReadList? && ScannerBeforeSend(st.s)
    ensures ScannerRank(ScannerNext(st, images).value.s) < ScannerRank(st.s)
    ensures ScannerNext(st, images).value.c == st.c && ScannerNext(st, images).value.r == st.r
  {
    var after := ScannerNext(st, images).value;
    match st.s {
      case SMakeDone => assert after.s in {SOpenList, SExit(false)};
      case SOpenList => assert after.s == SWaitList;
      case SWaitList => assert after.s == SReadList([]);
      case SScan => assert after.s == SMakeSend;
      case SMakeSend => assert after.s in {SOpenSend, SOpenDone};
    }
  }

  lemma ScannerAdvancesLate(st: State, images: seq<Image>)
    requires ScannerNext(st, images).Some? && !st.s.SWriteSend? && !st.s.SReadDone? && !ScannerBeforeSend(st.s)
    ensures ScannerRank(ScannerNext(st, images).value.s) < ScannerRank(st.s)
    ensures ScannerNext(st, images).value.c == st.c && ScannerNext(st, images).value.r == st.r
  {
    var after := ScannerNext(st, images).value;
    match st.s {
      case SOpenSend => assert after.s == SWaitSend;
      case SWaitSend => assert after.s == SWriteSend(0);
      case SCloseSend => assert after.s == SOpenDone;
      case SOpenDone => assert after.s == SWaitDone;
      case SWaitDone => assert after.s == SReadDone([]);
      case SCloseDone => assert after.s == SExit(true);
    }
  }

  lemma ScannerReadsOn(st: State, images: seq<Image>)
    requires ScannerNext(st, images).Some? && st.s.SReadList?
    ensures Closer(st, ScannerNext(st, images).value)
  {
    hide Encode;
    hide Decode;
    hide CollectorRank;
    hide RemoverRank;
  }

  lemma ScannerWritesOn(st: State, images: seq<Image>)
    requires ScannerNext(st, images).Some? && st.s.SWriteSend?
    ensures Closer(st, ScannerNext(st, images).value)
  {
    hide Encode;
    hide Decode;
    hide CollectorRank;
    hide RemoverRank;
  }

  lemma ScannerHearsOn(st: State, images: seq<Image>)
    requires ScannerNext(st, images).Some? && st.s.SReadDone?
    ensures Closer(st, ScannerNext(st, images).value)
  {
    hide Encode;
    hide Decode;
    hide CollectorRank;
    hide RemoverRank;
  }

  lemma RemoverAdvances(st: State)
    requires RemoverNext(st).Some? && !st.r.RReadList? && RemoverBeforeTelling(st.r)
    ensures RemoverRank(RemoverNext(st).value.r) < RemoverRank(st.r)
    ensures RemoverNext(st).value.c == st.c && RemoverNext(st).value.s == st.s
  {
    match st.r {
      case ROpenList => assert RemoverNext(st).value.r == RWaitList;
      case RWaitList => assert RemoverNext(st).value.r == RReadList([]);
      case RRemove => assert RemoverNext(st).value.r == ROpenCollect;
      case ROpenCollect => assert RemoverNext(st).value.r in {RWaitCollect, RExit(false)};
      case RWaitCollect => assert RemoverNext(st).value.r == RWriteCollect;
    }
  }

  lemma RemoverTells(st: State)
    requires RemoverNext(st).Some? && !st.r.RReadList? && !RemoverBeforeTelling(st.r)
    ensures RemoverRank(RemoverNext(st).value.r) < RemoverRank(st.r)
    ensures RemoverNext(st).value.c == st.c && RemoverNext(st).value.s == st.s
  {
    match st.r {
      case RWriteCollect => assert RemoverNext(st).value.r in {RCloseCollect, RExit(false)};
      case RCloseCollect => assert RemoverNext(st).value.r == ROpenScan;
      case ROpenScan => assert RemoverNext(st).value.r in {RWaitScan, RExit(true)};
      case RWaitScan => assert RemoverNext(st).value.r == RWriteScan;
      case RWriteScan => assert RemoverNext(st).value.r in {RCloseScan, RExit(false)};
      case RCloseScan => assert RemoverNext(st).value.r == RExit(true);
    }
  }

  lemma RemoverReadsOn(st: State)
    requires RemoverNext(st).Some? && st.r.RReadList?
    ensures Closer(st, RemoverNext(st).value)
  {
    hide Encode;
    hide Decode;
    hide CollectorRank;
    hide ScannerRank;
  }

  /** Every step of every process gets closer to the end. */
  lemma StepsDecrease(st: State, p: Process, images: seq<Image>)
    requires Next(st, p, images).Some?
    ensures Closer(st, Next(st, p, images).value)
  {
    match p {
      case TheCollector =>
        if st.c.CWriteList? {
          CollectorWritesOn(st, images);
        } else if st.c.CReadDone? {
          CollectorHearsOn(st, images);
        } else {
          CollectorAdvances(st, images);
        }
      case TheScanner =>
        if st.s.SReadList? {
          ScannerReadsOn(st, images);
        } else if st.s.SWriteSend? {
          ScannerWritesOn(st, images);
        } else if st.s.SReadDone? {
          ScannerHearsOn(st, images);
        } else if ScannerBeforeSend(st.s) {
          ScannerAdvances(st, images);
        } else {
          ScannerAdvancesLate(st, images);
        }
      case TheRemover =>
        if st.r.RReadList? {
          RemoverReadsOn(st);
        } else if RemoverBeforeTelling(st.r) {
          RemoverAdvances(st);
        } else {
          RemoverTells(st);
        }
    }
  }

  ghost predicate IsStep(st: State, after: State) {
    exists p: Process, images: seq<Image> :: Next(st, p, images) == Some(after)
  }

  /** So there is no infinite run. */
  lemma {:induction false} NoInfiniteRun(run: nat -> State)
    requires forall i: nat :: IsStep(run(i), run(i + 1))
    ensures false
    decreases Rank(run(0)), ToWrite(run(0)), Buffered(run(0))
  {
    hide Next;
    hide Rank;
    hide ToWrite;
    hide Buffered;
    var p, images :| Next(run(0), p, images) == Some(run(0 + 1));
    StepsDecrease(run(0), p, images);
    var tail := (i: nat) => run(i + 1);
    forall i: nat ensures IsStep(tail(i), tail(i + 1)) {
      assert IsStep(run(i + 1), run(i + 1 + 1));
    }
    NoInfiniteRun(tail);
  }

  // ---- every schedule without stops

  ghost predicate NoStops(events: seq<Event>) {
    forall e :: e in events ==> e.Move?
  }

  lemma {:induction false} LiveRun(scannerOn: bool, capacity: nat, events: seq<Event>)
    requires NoStops(events) && capacity >= 1
    ensures var st := Run(Init(scannerOn, capacity), events); Safe(st) && Live(st)
  {
    if events == [] {
      SafeInit(scannerOn, capacity);
      LiveInit(scannerOn, capacity);
    } else {
      var before := events[..|events| - 1];
      assert events[|events| - 1] in events && forall e :: e in before ==> e in events;
      LiveRun(scannerOn, capacity, before);
      LiveApply(Run(Init(scannerOn, capacity), before), events[|events| - 1]);
    }
  }

  lemma LiveApply(st: State, e: Event)
    requires Safe(st) && Live(st) && e.Move?
    ensures Safe(Apply(st, e)) && Live(Apply(st, e))
  {
    SafeApply(st, e);
    match e {
      case Move(TheCollector, images) => if CollectorNext(st, images).Some? { LiveCollector(st, images); }
      case Move(TheScanner, images) => if ScannerNext(st, images).Some? { LiveScanner(st, images); }
      case Move(TheRemover, _) => if RemoverNext(st).Some? { LiveRemover(st); }
    }
  }

  /** Event number `i` is the remover opening `eraseCompleteCollect` while the collector has closed its list but not
      yet created that pipe. */
  ghost predicate LosesAt(scannerOn: bool, capacity: nat, events: seq<Event>, i: nat) {
    && i < |events| && events[i].Move? && events[i].p == TheRemover
    && var st := Run(Init(scannerOn, capacity), events[..i]); st.r.ROpenCollect? && st.c.CMakeDone?
  }

  lemma LostStep(st: State, e: Event)
    requires Safe(st) && Live(st) && e.Move?
    ensures Apply(st, e).lost <==> st.lost || (e.p == TheRemover && st.r.ROpenCollect? && st.c.CMakeDone?)
  {
    match e.p {
      case TheCollector => CollectorLeavesFlag(st, e.images);
      case TheScanner => ScannerLeavesFlag(st, e.images);
      case TheRemover =>
        if RemoverNext(st).Some? && !st.lost {
          RaceWindow(st);
        }
        RemoverKeepsFlag(st);
    }
  }

  lemma CollectorLeavesFlag(st: State, images: seq<Image>)
    ensures CollectorNext(st, images).Some? ==> CollectorNext(st, images).value.lost == st.lost
  {
    hide Encode;
  }

  lemma ScannerLeavesFlag(st: State, images: seq<Image>)
    ensures ScannerNext(st, images).Some? ==> ScannerNext(st, images).value.lost == st.lost
  {
  }

  lemma RemoverKeepsFlag(st: State)
    ensures st.r.ROpenCollect? ==> RemoverNext(st).Some?
    ensures RemoverNext(st).Some? && st.lost ==> RemoverNext(st).value.lost
  {
  }

  /** The race is lost in a schedule exactly if the remover takes that step in it. */
  lemma {:induction false} LostIff(scannerOn: bool, capacity: nat, events: seq<Event>)
    requires NoStops(events) && capacity >= 1
    ensures Run(Init(scannerOn, capacity), events).lost <==> exists i :: LosesAt(scannerOn, capacity, events, i)
  {
    if events != [] {
      var n := |events| - 1;
      var before := events[..n];
      assert events[n] in events && forall e :: e in before ==> e in events;
      LostIff(scannerOn, capacity, before);
      LiveRun(scannerOn, capacity, before);
      LostStep(Run(Init(scannerOn, capacity), before), events[n]);
      LosesOneMore(scannerOn, capacity, events);
    }
  }

  lemma LosesOneMore(scannerOn: bool, capacity: nat, events: seq<Event>)
    requires events != []
    ensures var n := |events| - 1;
            (exists i :: LosesAt(scannerOn, capacity, events, i)) <==>
            (exists i :: LosesAt(scannerOn, capacity, events[..n], i)) || LosesAt(scannerOn, capacity, events, n)
  {
    var n := |events| - 1;
    forall i: nat | i < n
      ensures LosesAt(scannerOn, capacity, events[..n], i) <==> LosesAt(scannerOn, capacity, events, i)
    {
      assert events[..n][..i] == events[..i];
    }
  }

  /** Every schedule without stops, scanner on or off, for every pipe capacity and whatever the lists: it cannot go on
      for ever, and once no process can move all of them have finished normally, unless the remover took the losing
      step, and then the others wait in vain. */
  lemma EveryCompleteRun(scannerOn: bool, capacity: nat, events: seq<Event>)
    requires NoStops(events) && capacity >= 1
    ensures var st := Run(Init(scannerOn, capacity), events);
            !CanMove(st, TheCollector) && !CanMove(st, TheScanner) && !CanMove(st, TheRemover) ==>
              if exists i :: LosesAt(scannerOn, capacity, events, i) then Deadlocked(st) && !Finished(st)
              else Finished(st)
  {
    LiveRun(scannerOn, capacity, events);
    LostIff(scannerOn, capacity, events);
    var st := Run(Init(scannerOn, capacity), events);
    if !CanMove(st, TheCollector) && !CanMove(st, TheScanner) && !CanMove(st, TheRemover) {
      OutcomeOfCompleteRun(st);
    }
  }

  // ---- the race can be lost

  lemma OneMore(init: State, events: seq<Event>, st: State, p: Process) returns (more: seq<Event>, after: State)
    requires Run(init, events) == st && NoStops(events)
    ensures Run(init, more) == after == Apply(st, Move(p, [])) && NoStops(more)
  {
    more, after := events + [Move(p, [])], Apply(st, Move(p, []));
    assert more[..|more| - 1] == events;
  }

  /** Without a scanner, the collector and the remover open the pipe for the list. */
  lemma RaceOpens(capacity: nat) returns (events: seq<Event>, st: State)
    ensures NoStops(events) && Run(Init(false, capacity), events) == st
    ensures st == Init(false, capacity).(
                    c := CWriteList(0), r := RReadList([]),
                    pipes := Pipes(NO_PIPE, Pipe(true, Held, Held, true, [], []), NO_PIPE, NO_PIPE))
  {
    var init := Init(false, capacity);
    events, st := OneMore(init, [], init, TheCollector);
    events, st := OneMore(init, events, st, TheCollector);
    events, st := OneMore(init, events, st, TheCollector);
    events, st := OneMore(init, events, st, TheRemover);
    events, st := OneMore(init, events, st, TheCollector);
    events, st := OneMore(init, events, st, TheRemover);
  }

  lemma RaceWrites(st: State, n: nat, got: seq<Token>)
    requires !st.scannerOn && st.capacity >= 1 && n < |Encode(st.lists.collected)|
    requires st.c == CWriteList(n) && st.pipes.scanErase == Pipe(true, Held, Held, true, [], got)
    ensures var token := Encode(st.lists.collected)[n];
            Apply(st, Move(TheCollector, [])) ==
            st.(c := CWriteList(n + 1),
                pipes := st.pipes.(scanErase := Pipe(true, Held, Held, true, [token], got + [token])))
  {
    hide Encode;
  }

  lemma RaceReads(st: State, token: Token, got: seq<Token>)
    requires st.r == RReadList(got) && st.pipes.scanErase == Pipe(true, Held, Held, true, [token], got + [token])
    ensures Apply(st, Move(TheRemover, [])) ==
            st.(r := RReadList(got + [token]),
                pipes := st.pipes.(scanErase := Pipe(true, Held, Held, true, [], got + [token])))
  {
    hide Encode;
    hide Decode;
    assert [token][1..] == [];
  }

  /** One token crosses the pipe. */
  lemma RacePasses(init: State, events: seq<Event>, st: State, n: nat, got: seq<Token>)
    returns (more: seq<Event>, after: State)
    requires Run(init, events) == st && NoStops(events)
    requires !st.scannerOn && st.capacity >= 1 && n < |Encode(st.lists.collected)|
    requires st.c == CWriteList(n) && st.r == RReadList(got)
    requires st.pipes.scanErase == Pipe(true, Held, Held, true, [], got)
    ensures Run(init, more) == after && NoStops(more)
    ensures var next := got + [Encode(st.lists.collected)[n]];
            after == st.(c := CWriteList(n + 1), r := RReadList(next),
                         pipes := st.pipes.(scanErase := Pipe(true, Held, Held, true, [], next)))
  {
    hide Apply;
    hide Run;
    more, after := OneMore(init, events, st, TheCollector);
    RaceWrites(st, n, got);
    RaceReads(after, Encode(st.lists.collected)[n], got);
    more, after := OneMore(init, more, after, TheRemover);
  }

  lemma EncodeNothing()
    ensures Encode([]) == [ListStart, ListEnd] && Decode([ListStart, ListEnd]) == Some([])
  {
    assert Encode([]) == [ListStart, ListEnd];
    DecodeMeaning([ListStart, ListEnd], []);
  }

  /** An empty list crosses the pipe, and the collector closes it. */
  lemma RaceSends(capacity: nat) returns (events: seq<Event>, st: State)
    requires capacity >= 1
    ensures NoStops(events) && Run(Init(false, capacity), events) == st
    ensures st == Init(false, capacity).(
                    c := CMakeDone, r := RReadList([ListStart, ListEnd]),
                    pipes := Pipes(NO_PIPE, Pipe(true, Held, Shut, true, [], [ListStart, ListEnd]), NO_PIPE, NO_PIPE))
  {
    var init := Init(false, capacity);
    EncodeNothing();
    events, st := RaceOpens(capacity);
    events, st := RacePasses(init, events, st, 0, []);
    events, st := RacePasses(init, events, st, 1, [ListStart]);
    assert [ListStart] + [ListEnd] == [ListStart, ListEnd];
    events, st := OneMore(init, events, st, TheCollector);
    events, st := OneMore(init, events, st, TheCollector);
  }

  /** Now the remover is faster: it reads the end of the list, removes and finds `eraseCompleteCollect` missing. */
  lemma RaceIsLost(capacity: nat) returns (events: seq<Event>, st: State)
    requires capacity >= 1
    ensures NoStops(events) && Run(Init(false, capacity), events) == st
    ensures st.c == CMakeDone && st.r == RExit(false) && st.s == SAbsent
    ensures st.pipes.doneCollect == NO_PIPE && st.removed && st.lost && !st.scannerOn
  {
    var init := Init(false, capacity);
    EncodeNothing();
    events, st := RaceSends(capacity);
    events, st := OneMore(init, events, st, TheRemover);
    assert st.r == RRemove && st.pipes.scanErase.reader == Shut;
    events, st := OneMore(init, events, st, TheRemover);
    events, st := OneMore(init, events, st, TheRemover);
  }

  /** Nobody can move any more, and the collector waits for ever, although everything was removed. */
  lemma RaceIsReal(capacity: nat) returns (events: seq<Event>, st: State)
    requires capacity >= 1
    ensures NoStops(events) && Run(Init(false, capacity), events) == st
    ensures !CanMove(st, TheCollector) && !CanMove(st, TheScanner) && !CanMove(st, TheRemover)
    ensures st.removed && Deadlocked(st)
  {
    hide Encode;
    hide Decode;
    var init := Init(false, capacity);
    events, st := RaceIsLost(capacity);
    events, st := OneMore(init, events, st, TheCollector);
    assert st.c == COpenDone && st.r == RExit(false);
    events, st := OneMore(init, events, st, TheCollector);
    assert st.c == CWaitDone && !st.pipes.doneCollect.joined && st.r == RExit(false) && st.s == SAbsent;
  }
}
