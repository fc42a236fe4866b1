/** Named pipes between the containers of a pod, and the messages that cross them. */
module Fifo {
  import opened Wrappers
  import opened Images

  // ---- messages

  /** A JSON list of images is cut into tokens; the completion message is short enough to be written at once. */
  datatype Token = ListStart | Item(img: Image) | ListEnd | Complete

  function Items(images: seq<Image>): seq<Token> {
    seq(|images|, i requires 0 <= i < |images| => Item(images[i]))
  }

  function Encode(images: seq<Image>): seq<Token> {
    [ListStart] + Items(images) + [ListEnd]
  }

  /** What unmarshalling yields: `None` is a syntax error. */
  function Decode(tokens: seq<Token>): Option<seq<Image>> {
    if |tokens| >= 2 && tokens[0] == ListStart && tokens[|tokens| - 1] == ListEnd then
      DecodeItems(tokens[1..|tokens| - 1])
    else None
  }

  function DecodeItems(tokens: seq<Token>): Option<seq<Image>> {
    if tokens == [] then Some([])
    else if !tokens[0].Item? then None
    else
      match DecodeItems(tokens[1..])
      case None => None
      case Some(rest) => Some([tokens[0].img] + rest)
  }

  lemma {:induction false} DecodeItemsMeaning(tokens: seq<Token>, images: seq<Image>)
    ensures DecodeItems(tokens) == Some(images) <==> tokens == Items(images)
  {
    if tokens != [] && tokens[0].Item? {
      var rest := DecodeItems(tokens[1..]);
      if images != [] {
        DecodeItemsMeaning(tokens[1..], images[1..]);
        assert images == [images[0]] + images[1..];
        assert Items(images) == [Item(images[0])] + Items(images[1..]);
        if tokens == Items(images) {
          assert tokens[1..] == Items(images[1..]);
        }
        if DecodeItems(tokens) == Some(images) {
          assert rest.value == images[1..];
          assert tokens == [tokens[0]] + tokens[1..];
        }
      }
    }
  }

  /** Round trip, and nothing but a whole encoding decodes: in particular no proper prefix of one does. */
  lemma DecodeMeaning(tokens: seq<Token>, images: seq<Image>)
    ensures Decode(tokens) == Some(images) <==> tokens == Encode(images)
  {
    if |tokens| >= 2 {
      var inner := tokens[1..|tokens| - 1];
      DecodeItemsMeaning(inner, images);
      assert tokens == [tokens[0]] + inner + [tokens[|tokens| - 1]];
      assert Encode(images)[1..|Encode(images)| - 1] == Items(images);
    }
  }

  lemma PrefixDoesNotDecode(tokens: seq<Token>, images: seq<Image>)
    requires tokens <= Encode(images) && Decode(tokens).Some?
    ensures tokens == Encode(images) && Decode(tokens) == Some(images)
  {
    var other := Decode(tokens).value;
    DecodeMeaning(tokens, other);
    DecodeMeaning(tokens, images);
    var n, m := |tokens| - 1, |Encode(images)| - 1;
    forall k | 0 <= k < m ensures Encode(images)[k] != ListEnd {}
    assert tokens[n] == Encode(images)[n] == ListEnd;
    assert tokens == Encode(images)[..|tokens|];
  }

  // ---- pipes

  /** One end of a pipe, of which exactly one process makes use. */
  datatype End = Free | Held | Shut

  /** A pipe that may not have been created yet. `joined`: both ends were held at once, so both opens return.
      `log` is history: everything ever written. */
  datatype Pipe = Pipe(made: bool, reader: End, writer: End, joined: bool, buf: seq<Token>, log: seq<Token>)

  const NO_PIPE := Pipe(false, Free, Free, false, [], [])

  function Make(p: Pipe): Pipe { p.(made := true) }

  /** The call of `open` takes the end at once; it returns when the pipe is joined. */
  function OpenToRead(p: Pipe): Pipe { p.(reader := Held, joined := p.joined || p.writer == Held) }

  function OpenToWrite(p: Pipe): Pipe { p.(writer := Held, joined := p.joined || p.reader == Held) }

  function Release(e: End): End { if e == Held then Shut else e }

  function CloseReader(p: Pipe): Pipe { p.(reader := Release(p.reader)) }

  function CloseWriter(p: Pipe): Pipe { p.(writer := Release(p.writer)) }

  function Put(p: Pipe, t: Token): Pipe { p.(buf := p.buf + [t], log := p.log + [t]) }

  function Take(p: Pipe): Pipe
    requires p.buf != []
  {
    p.(buf := p.buf[1..])
  }

  /** A read returns end of file when the buffer is empty and no writer holds the pipe. */
  predicate AtEnd(p: Pipe) {
    p.buf == [] && p.writer != Held
  }
}
