/** The protocol the collector, scanner and remover containers of one pod follow over four named pipes: which process
    waits for which, as a state machine in which any of them may take the next step. */
module Handshake {
  import opened Wrappers
  import opened Images
  import opened Fifo

  // ---- program counters: each names the statement the process executes next

  datatype CollectorPc =
    | CGather | CMakeList | COpenList | CWaitList | CWriteList(n: nat) | CCloseList
    | CMakeDone | COpenDone | CWaitDone | CReadDone(got: seq<Token>) | CCloseDone(data: seq<Token>)
    | CExit(ok: bool)

  datatype ScannerPc =
    | SAbsent
    | SMakeDone | SOpenList | SWaitList | SReadList(got: seq<Token>) | SScan
    | SMakeSend | SOpenSend | SWaitSend | SWriteSend(n: nat) | SCloseSend
    | SOpenDone | SWaitDone | SReadDone(got: seq<Token>) | SCloseDone
    | SExit(ok: bool)

  datatype RemoverPc =
    | ROpenList | RWaitList | RReadList(got: seq<Token>) | RRemove
    | ROpenCollect | RWaitCollect | RWriteCollect | RCloseCollect
    | ROpenScan | RWaitScan | RWriteScan | RCloseScan
    | RExit(ok: bool)

  datatype Pipes = Pipes(collectScan: Pipe, scanErase: Pipe, doneCollect: Pipe, doneScan: Pipe)

  /** What the collector found, the scanner received, the scanner selected, and the remover received. */
  datatype Lists = Lists(collected: seq<Image>, received: seq<Image>, selected: seq<Image>, imagelist: seq<Image>)

  /** The processes, their pipes and their lists. `removed`, `lost` and `disabled` are history: `removeImages` has
      returned without error, the remover found `eraseCompleteCollect` missing, the remover took the return for a
      disabled scanner. */
  datatype State = State(
    scannerOn: bool, capacity: nat,
    c: CollectorPc, s: ScannerPc, r: RemoverPc,
    pipes: Pipes, lists: Lists,
    removed: bool, lost: bool, disabled: bool)

  function Init(scannerOn: bool, capacity: nat): State {
    State(scannerOn, capacity, CGather, if scannerOn then SMakeDone else SAbsent, ROpenList,
          Pipes(NO_PIPE, NO_PIPE, NO_PIPE, NO_PIPE), Lists([], [], [], []), false, false, false)
  }

  /** The pipe the collector writes its list to. */
  function ListPipe(st: State): Pipe {
    if st.scannerOn then st.pipes.collectScan else st.pipes.scanErase
  }

  function SetListPipe(st: State, p: Pipe): State {
    if st.scannerOn then st.(pipes := st.pipes.(collectScan := p)) else st.(pipes := st.pipes.(scanErase := p))
  }

  // ---- leaving: the kernel closes what a process still holds

  function CollectorExits(st: State, ok: bool): State {
    var closed := SetListPipe(st, CloseWriter(ListPipe(st)));
    closed.(pipes := closed.pipes.(doneCollect := CloseReader(st.pipes.doneCollect)), c := CExit(ok))
  }

  function ScannerExits(st: State, ok: bool): State {
    st.(pipes := st.pipes.(collectScan := CloseReader(st.pipes.collectScan),
                           scanErase := CloseWriter(st.pipes.scanErase),
                           doneScan := CloseReader(st.pipes.doneScan)),
        s := SExit(ok))
  }

  function RemoverExits(st: State, ok: bool): State {
    st.(pipes := st.pipes.(scanErase := CloseReader(st.pipes.scanErase),
                           doneCollect := CloseWriter(st.pipes.doneCollect),
                           doneScan := CloseWriter(st.pipes.doneScan)),
        r := RExit(ok))
  }

  // ---- the next step of each process; `None` while it is blocked or finished

  /** `images` is what `getImages` finds, when that is the step taken. */
  function CollectorNext(st: State, images: seq<Image>): Option<State> {
    var list := ListPipe(st);
    match st.c
    case CGather => Some(st.(lists := st.lists.(collected := images), c := CMakeList))
    case CMakeList =>
      if list.made then Some(CollectorExits(st, false)) else Some(SetListPipe(st, Make(list)).(c := COpenList))
    case COpenList => Some(SetListPipe(st, OpenToWrite(list)).(c := CWaitList))
    case CWaitList => if list.joined then Some(st.(c := CWriteList(0))) else None
    case CWriteList(n) =>
      if n >= |Encode(st.lists.collected)| then Some(st.(c := CCloseList))
      else if list.reader == Shut then Some(CollectorExits(st, false))
      else if |list.buf| < st.capacity then
        Some(SetListPipe(st, Put(list, Encode(st.lists.collected)[n])).(c := CWriteList(n + 1)))
      else None
    case CCloseList => Some(SetListPipe(st, CloseWriter(list)).(c := CMakeDone))
    case CMakeDone =>
      if st.pipes.doneCollect.made then Some(CollectorExits(st, false))
      else Some(st.(pipes := st.pipes.(doneCollect := Make(st.pipes.doneCollect)), c := COpenDone))
    case COpenDone => Some(st.(pipes := st.pipes.(doneCollect := OpenToRead(st.pipes.doneCollect)), c := CWaitDone))
    case CWaitDone => if st.pipes.doneCollect.joined then Some(st.(c := CReadDone([]))) else None
    case CReadDone(got) =>
      if st.pipes.doneCollect.buf != [] then
        Some(st.(pipes := st.pipes.(doneCollect := Take(st.pipes.doneCollect)),
                 c := CReadDone(got + [st.pipes.doneCollect.buf[0]])))
      else if AtEnd(st.pipes.doneCollect) then Some(st.(c := CCloseDone(got)))
      else None
    case CCloseDone(data) => Some(CollectorExits(st, data == [Complete]))
    case CExit(_) => None
  }

  /** `images` is what the scan selects, when that is the step taken. A failure to send is logged, and the scanner goes
      on to wait for the remover; it does not even report a garbled completion message. */
  function ScannerNext(st: State, images: seq<Image>): Option<State> {
    match st.s
    case SAbsent => None
    case SMakeDone =>
      if st.pipes.doneScan.made then Some(ScannerExits(st, false))
      else Some(st.(pipes := st.pipes.(doneScan := Make(st.pipes.doneScan)), s := SOpenList))
    case SOpenList =>
      if st.pipes.collectScan.made then
        Some(st.(pipes := st.pipes.(collectScan := OpenToRead(st.pipes.collectScan)), s := SWaitList))
      else None
    case SWaitList => if st.pipes.collectScan.joined then Some(st.(s := SReadList([]))) else None
    case SReadList(got) =>
      if st.pipes.collectScan.buf != [] then
        Some(st.(pipes := st.pipes.(collectScan := Take(st.pipes.collectScan)),
                 s := SReadList(got + [st.pipes.collectScan.buf[0]])))
      else if AtEnd(st.pipes.collectScan) then
        if Decode(got).Some? then Some(st.(lists := st.lists.(received := Decode(got).value), s := SScan))
        else Some(ScannerExits(st, false))
      else None
    case SScan => Some(st.(lists := st.lists.(selected := images), s := SMakeSend))
    case SMakeSend =>
      if st.pipes.scanErase.made then Some(st.(s := SOpenDone))
      else Some(st.(pipes := st.pipes.(scanErase := Make(st.pipes.scanErase)), s := SOpenSend))
    case SOpenSend => Some(st.(pipes := st.pipes.(scanErase := OpenToWrite(st.pipes.scanErase)), s := SWaitSend))
    case SWaitSend => if st.pipes.scanErase.joined then Some(st.(s := SWriteSend(0))) else None
    case SWriteSend(n) =>
      if n >= |Encode(st.lists.selected)| then Some(st.(s := SCloseSend))
      else if st.pipes.scanErase.reader == Shut then Some(st.(s := SOpenDone))
      else if |st.pipes.scanErase.buf| < st.capacity then
        Some(st.(pipes := st.pipes.(scanErase := Put(st.pipes.scanErase, Encode(st.lists.selected)[n])),
                 s := SWriteSend(n + 1)))
      else None
    case SCloseSend => Some(st.(pipes := st.pipes.(scanErase := CloseWriter(st.pipes.scanErase)), s := SOpenDone))
    case SOpenDone => Some(st.(pipes := st.pipes.(doneScan := OpenToRead(st.pipes.doneScan)), s := SWaitDone))
    case SWaitDone => if st.pipes.doneScan.joined then Some(st.(s := SReadDone([]))) else None
    case SReadDone(got) =>
      if st.pipes.doneScan.buf != [] then
        Some(st.(pipes := st.pipes.(doneScan := Take(st.pipes.doneScan)),
                 s := SReadDone(got + [st.pipes.doneScan.buf[0]])))
      else if AtEnd(st.pipes.doneScan) then Some(st.(s := SCloseDone))
      else None
    case SCloseDone => Some(ScannerExits(st, true))
    case SExit(_) => None
  }

  /** The remover polls for its list, but opens `eraseCompleteCollect` only once and gives up if it is missing. */
  function RemoverNext(st: State): Option<State> {
    match st.r
    case ROpenList =>
      if st.pipes.scanErase.made then
        Some(st.(pipes := st.pipes.(scanErase := OpenToRead(st.pipes.scanErase)), r := RWaitList))
      else None
    case RWaitList => if st.pipes.scanErase.joined then Some(st.(r := RReadList([]))) else None
    case RReadList(got) =>
      if st.pipes.scanErase.buf != [] then
        Some(st.(pipes := st.pipes.(scanErase := Take(st.pipes.scanErase)),
                 r := RReadList(got + [st.pipes.scanErase.buf[0]])))
      else if AtEnd(st.pipes.scanErase) then
        if Decode(got).Some? then
          Some(st.(pipes := st.pipes.(scanErase := CloseReader(st.pipes.scanErase)),
                   lists := st.lists.(imagelist := Decode(got).value), r := RRemove))
        else Some(RemoverExits(st, false))
      else None
    case RRemove => Some(st.(removed := true, r := ROpenCollect))
    case ROpenCollect =>
      if st.pipes.doneCollect.made then
        Some(st.(pipes := st.pipes.(doneCollect := OpenToWrite(st.pipes.doneCollect)), r := RWaitCollect))
      else Some(RemoverExits(st, false).(lost := true))
    case RWaitCollect => if st.pipes.doneCollect.joined then Some(st.(r := RWriteCollect)) else None
    case RWriteCollect =>
      if st.pipes.doneCollect.reader == Shut then Some(RemoverExits(st, false))
      else if |st.pipes.doneCollect.buf| < st.capacity then
        Some(st.(pipes := st.pipes.(doneCollect := Put(st.pipes.doneCollect, Complete)), r := RCloseCollect))
      else None
    case RCloseCollect =>
      Some(st.(pipes := st.pipes.(doneCollect := CloseWriter(st.pipes.doneCollect)), r := ROpenScan))
    case ROpenScan =>
      if st.pipes.doneScan.made then
        Some(st.(pipes := st.pipes.(doneScan := OpenToWrite(st.pipes.doneScan)), r := RWaitScan))
      else Some(RemoverExits(st, true).(disabled := true))
    case RWaitScan => if st.pipes.doneScan.joined then Some(st.(r := RWriteScan)) else None
    case RWriteScan =>
      if st.pipes.doneScan.reader == Shut then Some(RemoverExits(st, false))
      else if |st.pipes.doneScan.buf| < st.capacity then
        Some(st.(pipes := st.pipes.(doneScan := Put(st.pipes.doneScan, Complete)), r := RCloseScan))
      else None
    case RCloseScan => Some(RemoverExits(st, true))
    case RExit(_) => None
  }

  // ---- runs

  datatype Process = TheCollector | TheScanner | TheRemover

  /** A process takes its next step, or stops where it is: killed, or on an error of its own such as a failed listing
      or a failed `removeImages`. */
  datatype Event = Move(p: Process, images: seq<Image>) | Stop(p: Process)

  function Next(st: State, p: Process, images: seq<Image>): Option<State> {
    match p
    case TheCollector => CollectorNext(st, images)
    case TheScanner => ScannerNext(st, images)
    case TheRemover => RemoverNext(st)
  }

  function Stopped(st: State, p: Process): State {
    match p
    case TheCollector => if st.c.CExit? then st else CollectorExits(st, false)
    case TheScanner => if st.s.SExit? || st.s.SAbsent? then st else ScannerExits(st, false)
    case TheRemover => if st.r.RExit? then st else RemoverExits(st, false)
  }

  function Apply(st: State, e: Event): State {
    match e
    case Move(p, images) => (match Next(st, p, images) case Some(after) => after case None => st)
    case Stop(p) => Stopped(st, p)
  }

  /** The state after a schedule: any interleaving of steps and stops. */
  function Run(st: State, events: seq<Event>): State {
    if events == [] then st
    else Apply(Run(st, events[..|events| - 1]), events[|events| - 1])
  }
}
