/** A file read through the bridge: where each request starts and how far the
    position moves (acq200_i2o.c, rch.h). */
module BridgeRead {
  import opened Handlers
  import opened Options

  type Sample = x: int | -0x8000 <= x < 0x8000

  const FOUR_GB: nat := 0x1_0000_0000

  /** The request a read sends: a start sample and a number of samples. */
  datatype ReadRequest = ReadRequest(start: nat, nsamples: nat)

  /** How a read ends: its response, a response with the error code, a signal, or no
      handler or mapping to be had. */
  datatype Ending = Answered(nsamples: nat) | AnsweredError | Interrupted | NoResources

  /** The request a read of `count` bytes at `pos` makes; the byte position is cut to
      32 bits before it is halved. */
  function RequestFor(pos: nat, count: nat, kbufLen: nat): ReadRequest {
    ReadRequest((pos % FOUR_GB) / 2, (if count < kbufLen then count else kbufLen) / 2)
  }

  /** One read: its request, if it got as far as making one, and its result. */
  function Read(pos: nat, count: nat, kbufLen: nat, ending: Ending): (Option<ReadRequest>, ReadResult) {
    if ending.NoResources? then (None, Etimedout)
    else if kbufLen == 0 then (None, Enomem)
    else
      var request := RequestFor(pos, count, kbufLen);
      match ending
      case Answered(n) => (Some(request), Returned(2 * n))
      case AnsweredError => (Some(request), Efault)
      case Interrupted => (Some(request), Eintr)
  }

  function Moved(pos: nat, r: ReadResult): nat {
    if r.Returned? then pos + r.count else pos
  }

  /** The caller's arguments of one read, the buffer it gets and how it ends. */
  datatype Call = Call(count: nat, kbufLen: nat, ending: Ending)

  function PositionAfter(pos: nat, calls: seq<Call>): (r: nat)
    ensures r >= pos
    decreases |calls|
  {
    if calls == [] then pos
    else PositionAfter(Moved(pos, Read(pos, calls[0].count, calls[0].kbufLen, calls[0].ending).1), calls[1..])
  }

  /** What a sequence of reads gives its caller when the card answers each request with
      the samples of its file from the requested one on. */
  function DataRead(file: seq<Sample>, pos: nat, calls: seq<Call>): seq<Sample>
    decreases |calls|
  {
    if calls == [] then []
    else
      var next := Moved(pos, Read(pos, calls[0].count, calls[0].kbufLen, calls[0].ending).1);
      Piece(file, pos, calls[0]) + DataRead(file, next, calls[1..])
  }

  function Slice(file: seq<Sample>, from: nat, n: nat): seq<Sample> {
    if from + n <= |file| then file[from..from + n] else []
  }

  /** How a read ends that waits for its handler, by the answer that has come: none, if a
      signal ended the wait. */
  function EndingFor(answer: Option<Answer>): Ending {
    match answer
    case None => Interrupted
    case Some(Data(_, n)) => Answered(n)
    case Some(Error) => AnsweredError
  }

  /** A handler's read returns what its answer says. */
  ghost predicate Tells(r: Rch, answer: Option<Answer>) {
    match answer
    case None => ReadReturns(r) == Eintr
    case Some(Data(_, n)) => ReadReturns(r) == Returned(2 * n)
    case Some(Error) => ReadReturns(r) == Efault
  }

  /** A read that gets a mapping returns what its handler says. */
  lemma ResultIsHandlers(pos: nat, count: nat, kbufLen: nat, r: Rch, answer: Option<Answer>)
    requires kbufLen > 0 && Tells(r, answer)
    ensures Read(pos, count, kbufLen, EndingFor(answer)).1 == ReadReturns(r)
  {
  }

  /** A read makes no request if and only if it gets no handler or mapping, or a mapping of
      no length; each has its own error, and neither moves the position. */
  lemma RefusedIff(pos: nat, c: Call)
    ensures var (request, r) := Read(pos, c.count, c.kbufLen, c.ending);
            && (request.None? <==> r == Etimedout || r == Enomem)
            && (r == Etimedout <==> c.ending.NoResources?)
            && (r == Enomem <==> !c.ending.NoResources? && c.kbufLen == 0)
            && (request.None? ==> Moved(pos, r) == pos)
  {
  }

  /** A read that completes returns no more than was asked for, and no more than its buffer
      holds, if and only if the card answers with no more samples than were requested: the
      code does not check. */
  lemma ReadWithinBoundsIff(pos: nat, c: Call)
    ensures var (request, r) := Read(pos, c.count, c.kbufLen, c.ending);
            r.Returned? ==>
              && request.Some? && c.ending.Answered?
              && (r.count <= c.count && r.count <= c.kbufLen <==> c.ending.nsamples <= request.value.nsamples)
  {
  }

  /** A request starts at the position's own sample exactly as long as the position is below
      4 GB. */
  lemma StartsAtPositionIff(pos: nat, count: nat, kbufLen: nat)
    ensures RequestFor(pos, count, kbufLen).start == pos / 2 <==> pos < 0x1_0000_0000
  {
  }

  /** The samples one read gives its caller. */
  function Piece(file: seq<Sample>, pos: nat, c: Call): seq<Sample> {
    var (request, r) := Read(pos, c.count, c.kbufLen, c.ending);
    if r.Returned? then Slice(file, request.value.start, r.count / 2) else []
  }

  lemma PieceTiles(file: seq<Sample>, pos: nat, c: Call)
    requires var next := Moved(pos, Read(pos, c.count, c.kbufLen, c.ending).1);
             next < FOUR_GB && next <= 2 * |file|
    ensures var next := Moved(pos, Read(pos, c.count, c.kbufLen, c.ending).1);
            pos <= next && Piece(file, pos, c) == file[pos / 2..next / 2]
  {
    StartsAtPositionIff(pos, c.count, c.kbufLen);
  }

  lemma Join(file: seq<Sample>, a: nat, b: nat, c: nat)
    requires a <= b <= c <= |file|
    ensures file[a..b] + file[b..c] == file[a..c]
  {
  }

  /** Reads tile the data: what they return, put together, is exactly the file's samples
      from the position on to the one they reach, whatever failed in
      between. */
  lemma {:induction false} ReadsTile(file: seq<Sample>, pos: nat, calls: seq<Call>)
    requires PositionAfter(pos, calls) < FOUR_GB && PositionAfter(pos, calls) <= 2 * |file|
    ensures DataRead(file, pos, calls) == file[pos / 2..PositionAfter(pos, calls) / 2]
    decreases |calls|
  {
    if calls != [] {
      var next := Moved(pos, Read(pos, calls[0].count, calls[0].kbufLen, calls[0].ending).1);
      PieceTiles(file, pos, calls[0]);
      ReadsTile(file, next, calls[1..]);
      Join(file, pos / 2, next / 2, PositionAfter(pos, calls) / 2);
    }
  }

  /** The calls that complete. */
  function Completed(calls: seq<Call>): seq<Call> {
    if calls == [] then []
    else
      var c := calls[0];
      (if Read(0, c.count, c.kbufLen, c.ending).1.Returned? then [c] else []) + Completed(calls[1..])
  }

  /** Interrupted and failed reads leave no trace: without them the others get the same
      data and reach the same position. */
  lemma {:induction false} FailuresLeaveNoTrace(file: seq<Sample>, pos: nat, calls: seq<Call>)
    ensures PositionAfter(pos, Completed(calls)) == PositionAfter(pos, calls)
    ensures DataRead(file, pos, Completed(calls)) == DataRead(file, pos, calls)
    decreases |calls|
  {
    if calls != [] {
      var c := calls[0];
      var next := Moved(pos, Read(pos, c.count, c.kbufLen, c.ending).1);
      FailuresLeaveNoTrace(file, next, calls[1..]);
      if Read(0, c.count, c.kbufLen, c.ending).1.Returned? {
        assert ([c] + Completed(calls[1..]))[1..] == Completed(calls[1..]);
      } else {
        assert [] + Completed(calls[1..]) == Completed(calls[1..]);
        assert DataRead(file, pos, calls) == [] + DataRead(file, next, calls[1..]);
      }
    }
  }

  /** An open file; `Read` is the system call. */
  class OpenFile {
    var pos: nat

    constructor ()
      ensures pos == 0
    {
      pos := 0;
    }

    method BridgeRead(count: nat, kbufLen: nat, ending: Ending) returns (request: Option<ReadRequest>, r: ReadResult)
      modifies this
      ensures (request, r) == Read(old(pos), count, kbufLen, ending) && pos == Moved(old(pos), r)
    {
      if ending.NoResources? {
        return None, Etimedout;
      }
      if kbufLen == 0 {
        return None, Enomem;
      }
      var bytes := if count < kbufLen then count else kbufLen;
      request := Some(ReadRequest((pos % FOUR_GB) / 2, bytes / 2));
      match ending {
        case Answered(nsamples) =>
          var nbytes := nsamples * 2;
          pos := pos + nbytes;
          r := Returned(nbytes);
        case AnsweredError =>
          r := Efault;
        case Interrupted =>
          r := Eintr;
      }
    }

    /** A program reading a file piece by piece, retrying what fails. */
    method ReadFile(file: seq<Sample>, calls: seq<Call>) returns (data: seq<Sample>)
      requires pos == 0
      requires PositionAfter(0, calls) < FOUR_GB && PositionAfter(0, calls) <= 2 * |file|
      modifies this
      ensures pos == PositionAfter(0, calls) && data == file[..pos / 2]
    {
      data := [];
      for i := 0 to |calls|
        invariant PositionAfter(0, calls) == PositionAfter(pos, calls[i..])
        invariant DataRead(file, 0, calls) == data + DataRead(file, pos, calls[i..])
      {
        assert calls[i..][1..] == calls[i + 1..] && calls[i..][0] == calls[i];
        ghost var before, rest := data, DataRead(file, pos, calls[i..]);
        var request, r := BridgeRead(calls[i].count, calls[i].kbufLen, calls[i].ending);
        var piece := if r.Returned? then Slice(file, request.value.start, r.count / 2) else [];
        data := data + piece;
        assert before + rest == (before + piece) + DataRead(file, pos, calls[i + 1..]);
      }
      ReadsTile(file, 0, calls);
    }
  }
}
