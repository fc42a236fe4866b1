/** One pipe between one writer and one reader: how far each has come, and what the pipe then holds. */
module Channel {
  import opened Fifo

  /** The writer's progress with the data it means to send. `WriterGone`: it stopped or gave up on the way. */
  datatype Writing =
    | BeforeWriting
    | WaitingToWrite(data: seq<Token>)
    | Sending(data: seq<Token>, n: nat)
    | Sent(data: seq<Token>)
    | WriterGone(data: seq<Token>)

  datatype Reading =
    | BeforeReading
    | WaitingToRead
    | Receiving(got: seq<Token>)
    | Received(data: seq<Token>)
    | ReaderGone

  ghost predicate WriterAt(p: Pipe, w: Writing) {
    match w
    case BeforeWriting => p.writer == Free && p.log == []
    case WaitingToWrite(_) => p.writer == Held && p.made && p.log == []
    case Sending(data, n) => p.writer == Held && p.made && p.joined && n <= |data| && p.log == data[..n]
    case Sent(data) => p.writer == Shut && p.made && p.log == data
    case WriterGone(data) => p.log <= data
  }

  ghost predicate ReaderAt(p: Pipe, r: Reading) {
    match r
    case BeforeReading => p.reader == Free && p.buf == p.log
    case WaitingToRead => p.reader == Held && p.made && p.buf == p.log
    case Receiving(got) => p.reader != Free && p.made && p.joined && got + p.buf == p.log
    case Received(data) => p.made && p.joined && p.log == data
    case ReaderGone => true
  }

  ghost predicate Carries(p: Pipe, w: Writing, r: Reading) {
    && WriterAt(p, w)
    && ReaderAt(p, r)
    && (p.joined ==> p.reader != Free && p.writer != Free)
    && (r.Received? ==> w.Sent? || w.WriterGone?)
  }

  // ---- the effect of each pipe operation

  lemma MakeKeeps(p: Pipe, w: Writing, r: Reading)
    requires Carries(p, w, r)
    ensures Carries(Make(p), w, r)
  {}

  lemma OpenToWriteKeeps(p: Pipe, data: seq<Token>, r: Reading)
    requires Carries(p, BeforeWriting, r) && p.made
    ensures Carries(OpenToWrite(p), WaitingToWrite(data), r)
  {}

  lemma OpenToReadKeeps(p: Pipe, w: Writing)
    requires Carries(p, w, BeforeReading) && p.made
    ensures Carries(OpenToRead(p), w, WaitingToRead)
  {}

  lemma WriteOpened(p: Pipe, data: seq<Token>, r: Reading)
    requires Carries(p, WaitingToWrite(data), r) && p.joined
    ensures Carries(p, Sending(data, 0), r)
  {}

  lemma ReadOpened(p: Pipe, w: Writing)
    requires Carries(p, w, WaitingToRead) && p.joined
    ensures Carries(p, w, Receiving([]))
  {
    assert [] + p.buf == p.buf;
  }

  lemma PutKeeps(p: Pipe, data: seq<Token>, n: nat, r: Reading)
    requires Carries(p, Sending(data, n), r) && n < |data|
    ensures Carries(Put(p, data[n]), Sending(data, n + 1), r)
  {
    assert data[..n + 1] == data[..n] + [data[n]];
    if r.Receiving? {
      assert r.got + (p.buf + [data[n]]) == (r.got + p.buf) + [data[n]];
    }
  }

  lemma TakeKeeps(p: Pipe, w: Writing, got: seq<Token>)
    requires Carries(p, w, Receiving(got)) && p.buf != []
    ensures Carries(Take(p), w, Receiving(got + [p.buf[0]]))
  {
    assert got + p.buf == (got + [p.buf[0]]) + p.buf[1..];
  }

  lemma ReadEnds(p: Pipe, w: Writing, got: seq<Token>)
    requires Carries(p, w, Receiving(got)) && AtEnd(p)
    ensures Carries(p, w, Received(got)) && Carries(CloseReader(p), w, Received(got))
    ensures w.Sent? || w.WriterGone?
    ensures got <= w.data
  {
    assert got + [] == got;
  }

  lemma CloseWriterKeeps(p: Pipe, data: seq<Token>, r: Reading)
    requires Carries(p, Sending(data, |data|), r)
    ensures Carries(CloseWriter(p), Sent(data), r)
  {
    assert data[..|data|] == data;
  }

  /** Giving up, with or without closing the pipe, leaves a prefix of the data behind. */
  lemma WriterGivesUp(p: Pipe, w: Writing, r: Reading, data: seq<Token>)
    requires Carries(p, w, r) && (w.BeforeWriting? || w.data == data)
    ensures Carries(p, WriterGone(data), r) && Carries(CloseWriter(p), WriterGone(data), r)
  {}

  lemma ReaderGivesUp(p: Pipe, w: Writing, r: Reading)
    requires Carries(p, w, r)
    ensures Carries(p, w, ReaderGone) && Carries(CloseReader(p), w, ReaderGone)
  {}

  lemma SentIsClosed(p: Pipe, data: seq<Token>, r: Reading)
    requires Carries(p, Sent(data), r)
    ensures CloseWriter(p) == p
  {}

  lemma ReceivedClose(p: Pipe, w: Writing, data: seq<Token>)
    requires Carries(p, w, Received(data))
    ensures Carries(CloseReader(p), w, Received(data))
  {}
}
