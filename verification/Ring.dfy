/** The power-of-two ring of message-frame addresses (streambuf.h), with its
    one-deep put-back slot, refined against a bounded FIFO. */
module Ring {
  import opened Bits
  import opened Options

  type Word = x: nat | x < 0x1_0000_0000

  /** What `Get` answers when nothing is queued. */
  const STREAM_MFA_INVALID: Word := 0xFFFF_FFFF

  /** The abstract ring: the last item taken, while it can still be put back,
      and the items waiting behind it. */
  datatype Fifo = Fifo(held: Option<Word>, queue: seq<Word>) {
    function Occupancy(): nat {
      (if held.Some? then 1 else 0) + |queue|
    }
  }

  datatype Op = Put(data: Word) | Get | PutBack
  datatype Out = PutDone(ok: bool) | Got(data: Word) | PutBackDone

  /** One operation on a FIFO that may hold up to `capacity` items, counting the held one. */
  function Step(f: Fifo, capacity: nat, op: Op): (Fifo, Out) {
    match op
    case Put(x) =>
      if f.Occupancy() < capacity then (f.(queue := f.queue + [x]), PutDone(true))
      else (f, PutDone(false))
    case Get =>
      if f.queue == [] then (f, Got(STREAM_MFA_INVALID))
      else (Fifo(Some(f.queue[0]), f.queue[1..]), Got(f.queue[0]))
    case PutBack =>
      if f.held.None? then (f, PutBackDone)
      else (Fifo(None, [f.held.value] + f.queue), PutBackDone)
  }

  function Run(f: Fifo, capacity: nat, ops: seq<Op>): (r: (Fifo, seq<Out>))
    ensures |r.1| == |ops|
  {
    if ops == [] then (f, [])
    else
      var (f', outs) := Run(f, capacity, ops[..|ops| - 1]);
      var (f'', out) := Step(f', capacity, ops[|ops| - 1]);
      (f'', outs + [out])
  }

  /** What a caller can see of a run: the items the ring accepted, the items it
      has given out and kept, and whether the last of those may still go back. */
  datatype History = History(accepted: seq<Word>, taken: seq<Word>, mayPutBack: bool)

  ghost function Observe(h: History, op: Op, out: Out): History {
    match (op, out)
    case (Put(x), PutDone(true)) => h.(accepted := h.accepted + [x])
    case (Get, Got(x)) =>
      if x == STREAM_MFA_INVALID then h else h.(taken := h.taken + [x], mayPutBack := true)
    case (PutBack, _) =>
      if h.mayPutBack && h.taken != [] then h.(taken := h.taken[..|h.taken| - 1], mayPutBack := false) else h
    case _ => h
  }

  ghost function Observed(ops: seq<Op>, outs: seq<Out>): History
    requires |ops| == |outs|
  {
    if ops == [] then History([], [], false)
    else
      var n := |ops| - 1;
      Observe(Observed(ops[..n], outs[..n]), ops[n], outs[n])
  }

  /** The items given out and kept are exactly the oldest accepted ones, and the
      held item is the last one given out. */
  ghost predicate Lawful(f: Fifo, h: History, capacity: nat) {
    && h.accepted == h.taken + f.queue
    && f.Occupancy() <= capacity
    && h.mayPutBack == f.held.Some?
    && (f.held.Some? ==> h.taken != [] && f.held.value == h.taken[|h.taken| - 1])
    && forall i :: 0 <= i < |h.accepted| ==> h.accepted[i] != STREAM_MFA_INVALID
  }

  lemma StepLawful(f: Fifo, h: History, capacity: nat, op: Op)
    requires Lawful(f, h, capacity) && (op.Put? ==> op.data != STREAM_MFA_INVALID)
    ensures var (f', out) := Step(f, capacity, op);
            Lawful(f', Observe(h, op, out), capacity)
  {
    match op
    case Put(x) =>
      assert h.taken + (f.queue + [x]) == h.accepted + [x];
    case Get =>
      if f.queue != [] {
        assert f.queue[0] == h.accepted[|h.taken|];
        assert (h.taken + [f.queue[0]]) + f.queue[1..] == h.accepted;
      }
    case PutBack =>
      if f.held.Some? {
        assert h.taken[..|h.taken| - 1] + ([f.held.value] + f.queue) == h.accepted;
      }
  }

  /** Over every run from an empty ring, put-backs included, no item is lost,
      repeated or overtaken. */
  lemma {:induction false} FifoLaw(capacity: nat, ops: seq<Op>)
    requires forall i :: 0 <= i < |ops| && ops[i].Put? ==> ops[i].data != STREAM_MFA_INVALID
    ensures var (f, outs) := Run(Fifo(None, []), capacity, ops);
            Lawful(f, Observed(ops, outs), capacity)
  {
    if ops != [] {
      var n := |ops| - 1;
      FifoLaw(capacity, ops[..n]);
      var (f, outs) := Run(Fifo(None, []), capacity, ops[..n]);
      StepLawful(f, Observed(ops[..n], outs), capacity, ops[n]);
      assert Run(Fifo(None, []), capacity, ops).1[..n] == outs;
    }
  }

  /** What the ring answers after the history `h`: a put is accepted if and only if the items
      not given out, and the one that may go back, leave room; a get brings the oldest item
      not given out. */
  ghost function Answer(h: History, capacity: nat, op: Op): Out {
    match op
    case Put(_) =>
      PutDone(|h.accepted| - |h.taken| + (if h.mayPutBack then 1 else 0) < capacity)
    case Get =>
      Got(if |h.taken| < |h.accepted| then h.accepted[|h.taken|] else STREAM_MFA_INVALID)
    case PutBack => PutBackDone
  }

  lemma StepAnswers(f: Fifo, h: History, capacity: nat, op: Op)
    requires Lawful(f, h, capacity)
    ensures Step(f, capacity, op).1 == Answer(h, capacity, op)
  {
    assert |h.accepted| == |h.taken| + |f.queue|;
    if f.queue != [] {
      assert h.accepted[|h.taken|] == f.queue[0];
    }
  }

  /** In every run from an empty ring each answer follows from the history before it. */
  lemma {:induction false} RunAnswers(capacity: nat, ops: seq<Op>, i: nat)
    requires i < |ops|
    requires forall j :: 0 <= j < |ops| && ops[j].Put? ==> ops[j].data != STREAM_MFA_INVALID
    ensures var outs := Run(Fifo(None, []), capacity, ops).1;
            outs[i] == Answer(Observed(ops[..i], outs[..i]), capacity, ops[i])
  {
    var n := |ops| - 1;
    var (f, before) := Run(Fifo(None, []), capacity, ops[..n]);
    var outs := Run(Fifo(None, []), capacity, ops).1;
    assert outs[..n] == before;
    if i == n {
      FifoLaw(capacity, ops[..n]);
      StepAnswers(f, Observed(ops[..n], before), capacity, ops[n]);
    } else {
      RunAnswers(capacity, ops[..n], i);
      assert ops[..n][..i] == ops[..i] && before[..i] == outs[..i];
    }
  }

  /** The items from index `from` up to index `to`, going round the end of the storage. */
  ghost function Span(b: seq<Word>, from: nat, to: nat): seq<Word>
    requires from < |b| && to < |b|
  {
    if from <= to then b[from..to] else b[from..] + b[..to]
  }

  ghost function After(n: nat, i: nat): nat {
    if i + 1 == n then 0 else i + 1
  }

  lemma SpanPut(b: seq<Word>, from: nat, to: nat, x: Word)
    requires from < |b| && to < |b| && After(|b|, to) != from
    ensures Span(b[to := x], from, After(|b|, to)) == Span(b, from, to) + [x]
  {
  }

  lemma SpanGet(b: seq<Word>, from: nat, to: nat)
    requires from < |b| && to < |b| && from != to
    ensures Span(b, from, to) == [b[from]] + Span(b, After(|b|, from), to)
  {
  }

  class GenericIntBuf {
    var bufferMask: nat
    var iput: nat
    var iget: nat
    var iputback: nat       // index of the previous get
    var isWrapped: bool
    var nwrapped: nat       // number of times iput has wrapped
    const buffers: array<Word>
    ghost const logSize: nat
    ghost var puts: nat     // successful puts since the ring was zeroed

    ghost predicate Valid()
      reads this
    {
      && buffers.Length == Pow2(logSize) == bufferMask + 1
      && iput < buffers.Length && iget < buffers.Length && iputback < buffers.Length
      && (iget != iputback ==> iputback != iput && iget == After(buffers.Length, iputback))
      && (isWrapped <==> nwrapped > 0)
    }

    /** The wrap counter and the put index together count every put since zeroing. */
    ghost predicate Accounted()
      reads this`puts, this`nwrapped, this`iput
    {
      puts == nwrapped * buffers.Length + iput
    }

    ghost function Queue(): seq<Word>
      requires Valid()
      reads this, buffers
    {
      Span(buffers[..], iget, iput)
    }

    ghost function Abs(): Fifo
      requires Valid()
      reads this, buffers
    {
      Fifo(if iget == iputback then None else Some(buffers[iputback]), Queue())
    }

    ghost function Capacity(): nat
      reads this
    {
      if buffers.Length > 0 then buffers.Length - 1 else 0
    }

    /** Initialises a zeroed ring of `2^k` slots. */
    constructor (k: nat)
      ensures Valid() && fresh(buffers) && buffers.Length == Pow2(k) && logSize == k
      ensures Abs() == Fifo(None, []) && puts == 0 && Accounted()
    {
      iput, iget, iputback := 0, 0, 0;
      bufferMask := Pow2(k) - 1;
      isWrapped, nwrapped, puts := false, 0, 0;
      logSize := k;
      buffers := new Word[Pow2(k)](_ => 0);
    }

    lemma PutAccounting()
      requires Valid() && Accounted()
      ensures puts / buffers.Length == nwrapped && puts % buffers.Length == iput
    {
      ModUnique(puts, buffers.Length, nwrapped, iput);
    }

    method Inc(ii: nat) returns (r: nat)
      requires Valid() && ii < buffers.Length
      ensures r == After(buffers.Length, ii)
    {
      r := And(ii + 1, bufferMask);
      MaskIsMod(ii + 1, logSize);
      if ii + 1 == buffers.Length {
        ModUnique(ii + 1, buffers.Length, 1, 0);
      } else {
        ModUnique(ii + 1, buffers.Length, 0, ii + 1);
      }
    }

    method IsFull() returns (full: bool)
      requires Valid()
      ensures full <==> Abs().Occupancy() == Capacity()
      ensures Abs().Occupancy() <= Capacity()
    {
      var next := Inc(iput);
      full := next == iputback;
    }

    method IsEmpty() returns (empty: bool)
      requires Valid()
      ensures empty <==> Abs().queue == []
    {
      empty := iget == iput;
    }

    /** Moves the put index on after a put, counting its wraps. */
    method AdvancePut()
      requires Valid() && buffers.Length > 1
      modifies this`iput, this`isWrapped, this`nwrapped, this`puts
      ensures iput == After(buffers.Length, old(iput)) && puts == old(puts) + 1
      ensures isWrapped <==> nwrapped > 0
      ensures old(Accounted()) ==> Accounted()
    {
      var next := Inc(iput);
      if next < iput {
        isWrapped := true;
        nwrapped := nwrapped + 1;
        assert nwrapped * buffers.Length == (nwrapped - 1) * buffers.Length + buffers.Length;
      }
      iput := next;
      puts := puts + 1;
    }

    method Put(data: Word) returns (ok: bool)
      requires Valid()
      modifies this`iput, this`isWrapped, this`nwrapped, this`puts, buffers
      ensures Valid()
      ensures (Abs(), PutDone(ok)) == Step(old(Abs()), Capacity(), Op.Put(data))
      ensures puts == old(puts) + if ok then 1 else 0
      ensures old(Accounted()) ==> Accounted()
    {
      var full := IsFull();
      if full {
        return false;
      }
      ghost var before := buffers[..];
      SpanPut(before, iget, iput, data);
      buffers[iput] := data;
      assert buffers[..] == before[iput := data];
      AdvancePut();
      return true;
    }

    method Get() returns (data: Word)
      requires Valid()
      modifies this`iget, this`iputback
      ensures Valid()
      ensures (Abs(), Got(data)) == Step(old(Abs()), Capacity(), Op.Get)
    {
      var empty := IsEmpty();
      if empty {
        return STREAM_MFA_INVALID;
      }
      SpanGet(buffers[..], iget, iput);
      data := buffers[iget];
      iputback := iget;
      iget := Inc(iget);
    }

    method PutBack()
      requires Valid()
      modifies this`iget
      ensures Valid()
      ensures (Abs(), PutBackDone) == Step(old(Abs()), Capacity(), Op.PutBack)
    {
      if iget != iputback {
        SpanGet(buffers[..], iputback, iput);
      }
      iget := iputback;
    }

    /** The counting loop terminates and answers the length of the queue. */
    method NumEntries() returns (entries: nat)
      requires Valid()
      ensures entries == |Abs().queue|
    {
      entries := 0;
      var ig: nat := iget;
      while ig != iput
        invariant ig < buffers.Length
        invariant entries + (if ig <= iput then iput - ig else iput + buffers.Length - ig) == |Queue()|
        decreases if ig <= iput then iput - ig else iput + buffers.Length - ig
      {
        ig := Inc(ig);
        entries := entries + 1;
      }
    }

    /** Any sequence of operations answers exactly what the bounded FIFO answers. */
    method Perform(ops: seq<Op>) returns (outs: seq<Out>)
      requires Valid() && Accounted() && Abs() == Fifo(None, [])
      modifies this, buffers
      ensures Valid() && Accounted()
      ensures (Abs(), outs) == Run(Fifo(None, []), Capacity(), ops)
    {
      outs := [];
      for i := 0 to |ops|
        invariant Valid() && Accounted()
        invariant (Abs(), outs) == Run(Fifo(None, []), Capacity(), ops[..i])
      {
        assert ops[..i + 1][..i] == ops[..i];
        match ops[i]
        case Put(x) =>
          var ok := Put(x);
          outs := outs + [PutDone(ok)];
        case Get =>
          var x := Get();
          outs := outs + [Got(x)];
        case PutBack =>
          PutBack();
          outs := outs + [PutBackDone];
      }
      assert ops[..|ops|] == ops;
    }
  }
}
