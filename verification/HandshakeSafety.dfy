/** What the handshake guarantees even if any process may stop at any step. */
module HandshakeSafety {
  import opened Images
  import opened Fifo
  import opened Handshake
  import opened Channel

  // ---- where each process stands on each pipe

  function CollectorSends(st: State): Writing {
    var data := Encode(st.lists.collected);
    match st.c
    case CGather => BeforeWriting
    case CMakeList => BeforeWriting
    case COpenList => BeforeWriting
    case CWaitList => WaitingToWrite(data)
    case CWriteList(n) => Sending(data, n)
    case CCloseList => Sending(data, |data|)
    case CExit(ok) => if ok then Sent(data) else WriterGone(data)
    case _ => Sent(data)
  }

  function CollectorHears(c: CollectorPc): Reading {
    match c
    case CWaitDone => WaitingToRead
    case CReadDone(got) => Receiving(got)
    case CCloseDone(data) => Received(data)
    case CExit(ok) => if ok then Received([Complete]) else ReaderGone
    case _ => BeforeReading
  }

  function ScannerReceives(st: State): Reading {
    match st.s
    case SAbsent => BeforeReading
    case SMakeDone => BeforeReading
    case SOpenList => BeforeReading
    case SWaitList => WaitingToRead
    case SReadList(got) => Receiving(got)
    case SExit(_) => ReaderGone
    case _ => Received(Encode(st.lists.received))
  }

  predicate ScannerBeforeSend(s: ScannerPc) {
    s.SAbsent? || s.SMakeDone? || s.SOpenList? || s.SWaitList? || s.SReadList? || s.SScan? || s.SMakeSend?
  }

  function ScannerSends(st: State): Writing {
    var data := Encode(st.lists.selected);
    match st.s
    case SOpenSend => BeforeWriting
    case SWaitSend => WaitingToWrite(data)
    case SWriteSend(n) => Sending(data, n)
    case SCloseSend => Sending(data, |data|)
    case s => if ScannerBeforeSend(s) then BeforeWriting else WriterGone(data)
  }

  function ScannerHears(s: ScannerPc): Reading {
    match s
    case SWaitDone => WaitingToRead
    case SReadDone(got) => Receiving(got)
    case SCloseDone => ReaderGone
    case SExit(_) => ReaderGone
    case _ => BeforeReading
  }

  function RemoverReceives(st: State): Reading {
    match st.r
    case ROpenList => BeforeReading
    case RWaitList => WaitingToRead
    case RReadList(got) => Receiving(got)
    case RExit(ok) => if ok then Received(Encode(st.lists.imagelist)) else ReaderGone
    case _ => Received(Encode(st.lists.imagelist))
  }

  function RemoverTellsCollector(r: RemoverPc): Writing {
    match r
    case RWaitCollect => WaitingToWrite([Complete])
    case RWriteCollect => Sending([Complete], 0)
    case RCloseCollect => Sending([Complete], 1)
    case ROpenScan => Sent([Complete])
    case RWaitScan => Sent([Complete])
    case RWriteScan => Sent([Complete])
    case RCloseScan => Sent([Complete])
    case RExit(ok) => if ok then Sent([Complete]) else WriterGone([Complete])
    case _ => BeforeWriting
  }

  function RemoverTellsScanner(r: RemoverPc): Writing {
    match r
    case RWaitScan => WaitingToWrite([Complete])
    case RWriteScan => Sending([Complete], 0)
    case RCloseScan => Sending([Complete], 1)
    case RExit(_) => WriterGone([Complete])
    case _ => BeforeWriting
  }

  /** The list the remover is to receive: the scanner's if there is one, else the collector's. */
  function SenderList(st: State): seq<Image> {
    if st.scannerOn then st.lists.selected else st.lists.collected
  }

  // ---- invariants

  ghost predicate CollectScanOk(st: State) {
    Carries(st.pipes.collectScan, if st.scannerOn then CollectorSends(st) else BeforeWriting, ScannerReceives(st))
  }

  ghost predicate ScanEraseOk(st: State) {
    Carries(st.pipes.scanErase, if st.scannerOn then ScannerSends(st) else CollectorSends(st), RemoverReceives(st))
  }

  ghost predicate DoneCollectOk(st: State) {
    Carries(st.pipes.doneCollect, RemoverTellsCollector(st.r), CollectorHears(st.c))
  }

  ghost predicate DoneScanOk(st: State) {
    Carries(st.pipes.doneScan, RemoverTellsScanner(st.r), ScannerHears(st.s))
  }

  /** The remover received its list and has not stopped. */
  predicate RemoverHasList(r: RemoverPc) {
    !r.ROpenList? && !r.RWaitList? && !r.RReadList? && !r.RExit?
  }

  predicate ScannerHasList(s: ScannerPc) {
    !s.SAbsent? && !s.SMakeDone? && !s.SOpenList? && !s.SWaitList? && !s.SReadList? && !s.SExit?
  }

  /** The scanner makes `eraseCompleteScan` before anything else, and no list pipe is used before its list is fixed. */
  ghost predicate Order(st: State) {
    && (st.s.SAbsent? <==> !st.scannerOn)
    && (st.scannerOn && !st.s.SMakeDone? && !st.s.SExit? ==> st.pipes.doneScan.made)
    && (st.scannerOn && st.pipes.scanErase.made ==> st.pipes.doneScan.made)
    && (st.c.CGather? || st.c.CMakeList? ==> !ListPipe(st).made)
    && (st.c.COpenList? ==> ListPipe(st).made)
    && (st.c.COpenDone? ==> st.pipes.doneCollect.made)
    && (st.s.SOpenSend? ==> st.pipes.scanErase.made)
    && (st.scannerOn && ScannerBeforeSend(st.s) ==> !st.pipes.scanErase.made)
  }

  /** Whoever has a list has its sender's. */
  ghost predicate ListsAgree(st: State) {
    && (ScannerHasList(st.s) ==> st.lists.received == st.lists.collected)
    && (RemoverHasList(st.r) || st.removed ==>
          && st.lists.imagelist == SenderList(st) && st.pipes.scanErase.made
          && st.pipes.scanErase.log == Encode(st.lists.imagelist))
    && (st.disabled ==> !st.scannerOn)
  }

  /** `Finish` got past its open. */
  predicate FinishOpened(s: ScannerPc) {
    s.SReadDone? || s.SCloseDone? || s == SExit(true)
  }

  ghost predicate SignalsFollowRemoval(st: State) {
    && (RemoverHasList(st.r) && !st.r.RRemove? ==> st.removed)
    && (st.r == RExit(true) ==> st.removed)
    && (st.pipes.doneCollect.writer != Free ==> st.removed)
    && (st.pipes.doneScan.writer != Free ==> st.removed)
    && (FinishOpened(st.s) ==> st.removed)
    && (st.c == CExit(true) ==> st.removed)
  }

  ghost predicate Safe(st: State) {
    && CollectScanOk(st) && ScanEraseOk(st) && DoneCollectOk(st) && DoneScanOk(st)
    && Order(st) && ListsAgree(st) && SignalsFollowRemoval(st)
  }

  lemma SafeInit(scannerOn: bool, capacity: nat)
    ensures Safe(Init(scannerOn, capacity))
  {}

  // ---- the collector's steps

  lemma CollectorStarts(st: State, images: seq<Image>)
    requires Safe(st) && (st.c.CGather? || st.c.CMakeList? || st.c.COpenList?)
    ensures Safe(CollectorNext(st, images).value)
  {
    var p, data := ListPipe(st), Encode(st.lists.collected);
    var r := if st.scannerOn then ScannerReceives(st) else RemoverReceives(st);
    hide Carries;
    hide Encode;
    MakeKeeps(p, BeforeWriting, r);
    if st.c.COpenList? {
      OpenToWriteKeeps(p, data, r);
    }
  }

  lemma CollectorOpensList(st: State, images: seq<Image>)
    requires Safe(st) && st.c.CWaitList? && CollectorNext(st, images).Some?
    ensures Safe(CollectorNext(st, images).value)
  {
    var p, data := ListPipe(st), Encode(st.lists.collected);
    var r := if st.scannerOn then ScannerReceives(st) else RemoverReceives(st);
    WriteOpened(p, data, r);
  }

  /** Once the remover has its list, or has acted on it, the sender has nothing left to write. */
  lemma NothingLeftToWrite(st: State)
    requires Safe(st) && (RemoverHasList(st.r) || st.removed)
    ensures !st.scannerOn && st.c.CWriteList? ==> st.c.n == |Encode(st.lists.collected)|
    ensures st.scannerOn && st.s.SWriteSend? ==> st.s.n == |Encode(st.lists.selected)|
  {}

  lemma CollectorWrites(st: State, images: seq<Image>)
    requires Safe(st) && st.c.CWriteList? && st.c.n < |Encode(st.lists.collected)| && |ListPipe(st).buf| < st.capacity
    requires ListPipe(st).reader != Shut
    ensures Safe(CollectorNext(st, images).value)
  {
    hide Carries;
    hide Encode;
    var p, data := ListPipe(st), Encode(st.lists.collected);
    var r := if st.scannerOn then ScannerReceives(st) else RemoverReceives(st);
    if RemoverHasList(st.r) || st.removed {
      NothingLeftToWrite(st);
    }
    PutKeeps(p, data, st.c.n, r);
  }

  lemma CollectorStops(st: State)
    requires Safe(st) && !st.c.CExit?
    ensures Safe(CollectorExits(st, false))
  {
    var p, w, data := ListPipe(st), CollectorSends(st), Encode(st.lists.collected);
    var r := if st.scannerOn then ScannerReceives(st) else RemoverReceives(st);
    hide Carries;
    hide Encode;
    WriterGivesUp(p, w, r, data);
    ReaderGivesUp(st.pipes.doneCollect, RemoverTellsCollector(st.r), CollectorHears(st.c));
  }

  lemma CollectorClosesList(st: State, images: seq<Image>)
    requires Safe(st) && (st.c.CCloseList? || (st.c.CWriteList? && st.c.n >= |Encode(st.lists.collected)|))
    ensures Safe(CollectorNext(st, images).value)
  {
    var p, data := ListPipe(st), Encode(st.lists.collected);
    var r := if st.scannerOn then ScannerReceives(st) else RemoverReceives(st);
    assert st.c.CWriteList? ==> st.c.n == |data|;
    if st.c.CCloseList? {
      CloseWriterKeeps(p, data, r);
    }
  }

  lemma CollectorMakesDone(st: State, images: seq<Image>)
    requires Safe(st) && st.c.CMakeDone? && !st.pipes.doneCollect.made
    ensures Safe(CollectorNext(st, images).value)
  {
    MakeKeeps(st.pipes.doneCollect, RemoverTellsCollector(st.r), BeforeReading);
  }

  lemma CollectorOpensDone(st: State, images: seq<Image>)
    requires Safe(st) && st.c.COpenDone?
    ensures Safe(CollectorNext(st, images).value)
  {
    OpenToReadKeeps(st.pipes.doneCollect, RemoverTellsCollector(st.r));
  }

  lemma CollectorIsAnswered(st: State, images: seq<Image>)
    requires Safe(st) && st.c.CWaitDone? && CollectorNext(st, images).Some?
    ensures Safe(CollectorNext(st, images).value)
  {
    ReadOpened(st.pipes.doneCollect, RemoverTellsCollector(st.r));
  }

  lemma CollectorReads(st: State, images: seq<Image>)
    requires Safe(st) && st.c.CReadDone? && CollectorNext(st, images).Some?
    ensures Safe(CollectorNext(st, images).value)
  {
    hide Carries;
    hide Encode;
    var p, w, got := st.pipes.doneCollect, RemoverTellsCollector(st.r), st.c.got;
    var after := CollectorNext(st, images).value;
    if p.buf != [] {
      TakeKeeps(p, w, got);
      assert after == st.(pipes := st.pipes.(doneCollect := Take(p)), c := CReadDone(got + [p.buf[0]]));
    } else {
      ReadEnds(p, w, got);
      assert after == st.(c := CCloseDone(got));
    }
    hide CollectorNext;
    assert CollectScanOk(after) && ScanEraseOk(after);
    assert DoneCollectOk(after) && DoneScanOk(after);
  }

  lemma CollectorFinishes(st: State)
    requires Safe(st) && st.c == CCloseDone([Complete])
    ensures Safe(CollectorExits(st, true))
  {
    var p, data := ListPipe(st), Encode(st.lists.collected);
    var r := if st.scannerOn then ScannerReceives(st) else RemoverReceives(st);
    assert st.removed;
    SentIsClosed(p, data, r);
  }

  lemma SafeCollector(st: State, images: seq<Image>)
    requires Safe(st) && CollectorNext(st, images).Some?
    ensures Safe(CollectorNext(st, images).value)
  {
    match st.c {
      case CGather => CollectorStarts(st, images);
      case CMakeList => CollectorStarts(st, images);
      case COpenList => CollectorStarts(st, images);
      case CWaitList => CollectorOpensList(st, images);
      case CWriteList(n) =>
        if n >= |Encode(st.lists.collected)| {
          CollectorClosesList(st, images);
        } else if ListPipe(st).reader == Shut {
          CollectorStops(st);
        } else {
          CollectorWrites(st, images);
        }
      case CCloseList => CollectorClosesList(st, images);
      case CMakeDone => if st.pipes.doneCollect.made { CollectorStops(st); } else { CollectorMakesDone(st, images); }
      case COpenDone => CollectorOpensDone(st, images);
      case CWaitDone => CollectorIsAnswered(st, images);
      case CReadDone(_) => CollectorReads(st, images);
      case CCloseDone(data) => if data == [Complete] { CollectorFinishes(st); } else { CollectorStops(st); }
    }
  }

  // ---- the scanner's steps

  lemma ScannerStarts(st: State, images: seq<Image>)
    requires Safe(st)
    requires (st.s.SMakeDone? && !st.pipes.doneScan.made) || (st.s.SOpenList? && st.pipes.collectScan.made)
    ensures Safe(ScannerNext(st, images).value)
  {
    var w := CollectorSends(st);
    MakeKeeps(st.pipes.doneScan, RemoverTellsScanner(st.r), BeforeReading);
    if st.s.SOpenList? {
      OpenToReadKeeps(st.pipes.collectScan, w);
    }
  }

  lemma ScannerReads(st: State, images: seq<Image>)
    requires Safe(st) && (st.s.SWaitList? || st.s.SReadList?) && ScannerNext(st, images).Some?
    requires st.s.SReadList? && AtEnd(st.pipes.collectScan) ==> Decode(st.s.got).Some?
    ensures Safe(ScannerNext(st, images).value)
  {
    hide Carries;
    hide Encode;
    hide Decode;
    var p, w := st.pipes.collectScan, CollectorSends(st);
    if st.s.SWaitList? {
      ReadOpened(p, w);
    } else if p.buf != [] {
      TakeKeeps(p, w, st.s.got);
    } else {
      ReadEnds(p, w, st.s.got);
      PrefixDoesNotDecode(st.s.got, st.lists.collected);
    }
  }

  lemma ScannerSelects(st: State, images: seq<Image>)
    requires Safe(st) && (st.s.SScan? || st.s.SMakeSend? || st.s.SOpenSend?)
    ensures Safe(ScannerNext(st, images).value)
  {
    hide Carries;
    hide Encode;
    var r := RemoverReceives(st);
    if st.s.SOpenSend? {
      OpenToWriteKeeps(st.pipes.scanErase, Encode(st.lists.selected), r);
    } else {
      assert !st.pipes.scanErase.made;
      MakeKeeps(st.pipes.scanErase, BeforeWriting, r);
    }
  }

  lemma ScannerOpensSend(st: State, images: seq<Image>)
    requires Safe(st) && (st.s.SWaitSend? || st.s.SCloseSend?) && ScannerNext(st, images).Some?
    ensures Safe(ScannerNext(st, images).value)
  {
    var p, data, r := st.pipes.scanErase, Encode(st.lists.selected), RemoverReceives(st);
    if st.s.SWaitSend? {
      WriteOpened(p, data, r);
    } else {
      WriterGivesUp(p, Sending(data, |data|), r, data);
    }
  }

  lemma CarriedBound(p: Pipe, data: seq<Token>, n: nat, r: Reading)
    requires Carries(p, Sending(data, n), r)
    ensures n <= |data|
  {}

  lemma ScannerWrites(st: State, images: seq<Image>)
    requires Safe(st) && st.s.SWriteSend? && ScannerNext(st, images).Some?
    ensures Safe(ScannerNext(st, images).value)
  {
    hide Carries;
    hide Encode;
    var p, data, r, n := st.pipes.scanErase, Encode(st.lists.selected), RemoverReceives(st), st.s.n;
    var after := ScannerNext(st, images).value;
    if RemoverHasList(st.r) || st.removed {
      NothingLeftToWrite(st);
    }
    CarriedBound(p, data, n, r);
    WriterGivesUp(p, Sending(data, n), r, data);
    if n >= |data| {
      assert after == st.(s := SCloseSend);
    } else if p.reader == Shut {
      assert after == st.(s := SOpenDone);
    } else {
      PutKeeps(p, data, n, r);
      assert after == st.(pipes := st.pipes.(scanErase := Put(p, data[n])), s := SWriteSend(n + 1));
    }
    hide ScannerNext;
    assert CollectScanOk(after) && ScanEraseOk(after);
    assert DoneCollectOk(after) && DoneScanOk(after);
  }

  lemma ScannerOpensDone(st: State, images: seq<Image>)
    requires Safe(st) && (st.s.SOpenDone? || st.s.SWaitDone?) && ScannerNext(st, images).Some?
    ensures Safe(ScannerNext(st, images).value)
  {
    hide Carries;
    hide Encode;
    var p, w := st.pipes.doneScan, RemoverTellsScanner(st.r);
    if st.s.SOpenDone? {
      OpenToReadKeeps(p, w);
    } else {
      ReadOpened(p, w);
    }
  }

  lemma ScannerHearsRemover(st: State, images: seq<Image>)
    requires Safe(st) && st.s.SReadDone? && ScannerNext(st, images).Some?
    ensures Safe(ScannerNext(st, images).value)
  {
    var p, w, got, after := st.pipes.doneScan, RemoverTellsScanner(st.r), st.s.got, ScannerNext(st, images).value;
    if p.buf != [] {
      TakeKeeps(p, w, got);
      assert after == st.(pipes := st.pipes.(doneScan := Take(p)), s := SReadDone(got + [p.buf[0]]));
    } else {
      ReaderGivesUp(p, w, Receiving(got));
      assert after == st.(s := SCloseDone);
    }
  }

  lemma ScannerLeaves(st: State, ok: bool)
    requires Safe(st) && !st.s.SExit? && !st.s.SAbsent? && (ok ==> st.s.SCloseDone?)
    ensures Safe(ScannerExits(st, ok))
  {
    var r := RemoverReceives(st);
    hide Carries;
    hide Encode;
    ReaderGivesUp(st.pipes.collectScan, CollectorSends(st), ScannerReceives(st));
    WriterGivesUp(st.pipes.scanErase, ScannerSends(st), r, Encode(st.lists.selected));
    ReaderGivesUp(st.pipes.doneScan, RemoverTellsScanner(st.r), ScannerHears(st.s));
  }

  lemma SafeScanner(st: State, images: seq<Image>)
    requires Safe(st) && ScannerNext(st, images).Some?
    ensures Safe(ScannerNext(st, images).value)
  {
    match st.s {
      case SMakeDone => if st.pipes.doneScan.made { ScannerLeaves(st, false); } else { ScannerStarts(st, images); }
      case SOpenList => ScannerStarts(st, images);
      case SWaitList => ScannerReads(st, images);
      case SReadList(got) =>
        if st.pipes.collectScan.buf == [] && Decode(got).None? {
          ScannerLeaves(st, false);
        } else {
          ScannerReads(st, images);
        }
      case SScan => ScannerSelects(st, images);
      case SMakeSend => ScannerSelects(st, images);
      case SOpenSend => ScannerSelects(st, images);
      case SWaitSend => ScannerOpensSend(st, images);
      case SWriteSend(_) => ScannerWrites(st, images);
      case SCloseSend => ScannerOpensSend(st, images);
      case SOpenDone => ScannerOpensDone(st, images);
      case SWaitDone => ScannerOpensDone(st, images);
      case SReadDone(_) => ScannerHearsRemover(st, images);
      case SCloseDone => ScannerLeaves(st, true);
    }
  }

  // ---- the remover's steps

  lemma RemoverStarts(st: State)
    requires Safe(st) && st.r.ROpenList? && st.pipes.scanErase.made
    ensures Safe(RemoverNext(st).value)
  {
    var w := if st.scannerOn then ScannerSends(st) else CollectorSends(st);
    OpenToReadKeeps(st.pipes.scanErase, w);
  }

  lemma RemoverReads(st: State)
    requires Safe(st) && RemoverNext(st).Some?
    requires st.r.RWaitList? || (st.r.RReadList? && st.pipes.scanErase.buf != [])
    ensures Safe(RemoverNext(st).value)
  {
    hide Carries;
    hide Encode;
    hide Decode;
    var w := if st.scannerOn then ScannerSends(st) else CollectorSends(st);
    if st.r.RWaitList? {
      ReadOpened(st.pipes.scanErase, w);
    } else {
      TakeKeeps(st.pipes.scanErase, w, st.r.got);
    }
    var after := RemoverNext(st).value;
    assert CollectScanOk(after) && ScanEraseOk(after);
    assert DoneCollectOk(after) && DoneScanOk(after);
  }

  /** At end of file what was read is the sender's whole list, or it does not unmarshal. */
  lemma RemoverGetsList(st: State)
    requires Safe(st) && st.r.RReadList? && AtEnd(st.pipes.scanErase) && Decode(st.r.got).Some?
    ensures Safe(RemoverNext(st).value)
  {
    var p := st.pipes.scanErase;
    var w := if st.scannerOn then ScannerSends(st) else CollectorSends(st);
    ReadEnds(p, w, st.r.got);
    PrefixDoesNotDecode(st.r.got, SenderList(st));
    assert p.log == Encode(SenderList(st)) && p.made;
  }

  lemma RemoverRemoves(st: State)
    requires Safe(st) && st.r.RRemove?
    ensures Safe(RemoverNext(st).value)
  {
  }

  lemma RemoverReachesCollector(st: State)
    requires Safe(st) && RemoverNext(st).Some? && (st.r.ROpenCollect? || st.r.RWaitCollect?)
    requires st.r.ROpenCollect? ==> st.pipes.doneCollect.made
    ensures Safe(RemoverNext(st).value)
  {
    hide Carries;
    hide Encode;
    var p, data, r := st.pipes.doneCollect, [Complete], CollectorHears(st.c);
    if st.r.ROpenCollect? {
      OpenToWriteKeeps(p, data, r);
    } else {
      WriteOpened(p, data, r);
    }
  }

  lemma RemoverTellsCollectorKeeps(st: State)
    requires Safe(st) && RemoverNext(st).Some? && (st.r.RWriteCollect? || st.r.RCloseCollect?)
    requires st.r.RWriteCollect? ==> st.pipes.doneCollect.reader != Shut
    ensures Safe(RemoverNext(st).value)
  {
    var p, data, r := st.pipes.doneCollect, [Complete], CollectorHears(st.c);
    if st.r.RWriteCollect? {
      PutKeeps(p, data, 0, r);
    } else {
      CloseWriterKeeps(p, data, r);
    }
  }

  lemma RemoverTellsScannerKeeps(st: State)
    requires Safe(st) && RemoverNext(st).Some?
    requires st.r.ROpenScan? || st.r.RWaitScan? || st.r.RWriteScan?
    requires st.r.ROpenScan? ==> st.pipes.doneScan.made
    requires st.r.RWriteScan? ==> st.pipes.doneScan.reader != Shut
    ensures Safe(RemoverNext(st).value)
  {
    var p, data, r := st.pipes.doneScan, [Complete], ScannerHears(st.s);
    hide Carries;
    hide Encode;
    match st.r {
      case ROpenScan => OpenToWriteKeeps(p, data, r);
      case RWaitScan => WriteOpened(p, data, r);
      case RWriteScan => PutKeeps(p, data, 0, r);
    }
    var after := RemoverNext(st).value;
    assert CollectScanOk(after) && ScanEraseOk(after);
    assert DoneCollectOk(after) && DoneScanOk(after);
  }

  lemma RemoverStops(st: State)
    requires Safe(st) && !st.r.RExit?
    ensures Safe(RemoverExits(st, false))
  {
    var w := if st.scannerOn then ScannerSends(st) else CollectorSends(st);
    hide Carries;
    hide Encode;
    ReaderGivesUp(st.pipes.scanErase, w, RemoverReceives(st));
    WriterGivesUp(st.pipes.doneCollect, RemoverTellsCollector(st.r), CollectorHears(st.c), [Complete]);
    WriterGivesUp(st.pipes.doneScan, RemoverTellsScanner(st.r), ScannerHears(st.s), [Complete]);
    var after := RemoverExits(st, false);
    assert CollectScanOk(after) && ScanEraseOk(after);
    assert DoneCollectOk(after) && DoneScanOk(after);
  }

  lemma LosingIsSafe(st: State)
    requires Safe(st)
    ensures Safe(st.(lost := true))
  {
  }

  /** The return for a disabled scanner is only taken when there is none. */
  lemma RemoverFinishes(st: State)
    requires Safe(st) && (st.r.RCloseScan? || (st.r.ROpenScan? && !st.pipes.doneScan.made))
    ensures Safe(RemoverNext(st).value)
  {
    hide Carries;
    var w := if st.scannerOn then ScannerSends(st) else CollectorSends(st);
    hide Encode;
    ReceivedClose(st.pipes.scanErase, w, Encode(st.lists.imagelist));
    SentIsClosed(st.pipes.doneCollect, [Complete], CollectorHears(st.c));
    WriterGivesUp(st.pipes.doneScan, RemoverTellsScanner(st.r), ScannerHears(st.s), [Complete]);
  }

  lemma SafeRemover(st: State)
    requires Safe(st) && RemoverNext(st).Some?
    ensures Safe(RemoverNext(st).value)
  {
    match st.r {
      case ROpenList => RemoverStarts(st);
      case RWaitList => RemoverReads(st);
      case RReadList(got) =>
        if st.pipes.scanErase.buf != [] {
          RemoverReads(st);
        } else if Decode(got).None? {
          RemoverStops(st);
        } else {
          RemoverGetsList(st);
        }
      case RRemove => RemoverRemoves(st);
      case ROpenCollect =>
        if st.pipes.doneCollect.made {
          RemoverReachesCollector(st);
        } else {
          RemoverStops(st);
          LosingIsSafe(RemoverExits(st, false));
        }
      case RWaitCollect => RemoverReachesCollector(st);
      case RWriteCollect =>
        if st.pipes.doneCollect.reader == Shut { RemoverStops(st); } else { RemoverTellsCollectorKeeps(st); }
      case RCloseCollect => RemoverTellsCollectorKeeps(st);
      case ROpenScan => if st.pipes.doneScan.made { RemoverTellsScannerKeeps(st); } else { RemoverFinishes(st); }
      case RWaitScan => RemoverTellsScannerKeeps(st);
      case RWriteScan =>
        if st.pipes.doneScan.reader == Shut { RemoverStops(st); } else { RemoverTellsScannerKeeps(st); }
      case RCloseScan => RemoverFinishes(st);
    }
  }

  // ---- every schedule

  lemma SafeApply(st: State, e: Event)
    requires Safe(st)
    ensures Safe(Apply(st, e))
  {
    match e {
      case Move(TheCollector, images) => if CollectorNext(st, images).Some? { SafeCollector(st, images); }
      case Move(TheScanner, images) => if ScannerNext(st, images).Some? { SafeScanner(st, images); }
      case Move(TheRemover, _) => if RemoverNext(st).Some? { SafeRemover(st); }
      case Stop(TheCollector) => if !st.c.CExit? { CollectorStops(st); }
      case Stop(TheScanner) => if !st.s.SExit? && !st.s.SAbsent? { ScannerLeaves(st, false); }
      case Stop(TheRemover) => if !st.r.RExit? { RemoverStops(st); }
    }
  }

  lemma {:induction false} SafeRun(scannerOn: bool, capacity: nat, events: seq<Event>)
    ensures Safe(Run(Init(scannerOn, capacity), events))
  {
    if events == [] {
      SafeInit(scannerOn, capacity);
    } else {
      SafeRun(scannerOn, capacity, events[..|events| - 1]);
      SafeApply(Run(Init(scannerOn, capacity), events[..|events| - 1]), events[|events| - 1]);
    }
  }

  /** Causality, over every schedule of steps and stops: the collector reports success, and the scanner's `Finish` gets
      past its open, only after `removeImages` returned without error. With a scanner present the remover never takes
      the return for a disabled one. Whoever acts on a list acts on the list its sender produced, written in full. */
  lemma Causality(scannerOn: bool, capacity: nat, events: seq<Event>)
    ensures var st := Run(Init(scannerOn, capacity), events);
            && (st.c == CExit(true) ==> st.removed)
            && (FinishOpened(st.s) ==> st.removed)
            && (st.r == RExit(true) ==> st.removed)
            && (st.disabled ==> !st.scannerOn)
            && (RemoverHasList(st.r) || st.removed ==>
                  st.lists.imagelist == SenderList(st) && st.pipes.scanErase.log == Encode(SenderList(st)))
            && (ScannerHasList(st.s) ==>
                  st.lists.received == st.lists.collected && st.pipes.collectScan.log == Encode(st.lists.collected))
  {
    SafeRun(scannerOn, capacity, events);
    var st := Run(Init(scannerOn, capacity), events);
    if ScannerHasList(st.s) {
      assert Carries(st.pipes.collectScan, CollectorSends(st), ScannerReceives(st));
    }
  }
}
