/** Message frames on their way through the driver: out of the card's outbound
    FIFO, through the ring, into the tasklet and back to the card
    (acq200.c, acq200_i2o.c). */
module MfaPath {
  import opened Options
  import opened Ring

  const BAD_MFA_THRESHOLD := 100

  /** What the tasklet finds in a frame. A command packet is claimed by a listed
      handler, by a listed handler whose function has been cleared, or by none. */
  datatype Frame = Command(claim: Claim) | OtherType
  datatype Claim = Handled | FunctionCleared | Unclaimed

  /** One frame's passage; `queued` says whether it went through the ring. */
  datatype Passage = Passage(mfa: Word, queued: bool)

  /** The frames' whole history and present place, with the driver's counters. */
  datatype Flow = Flow(
    ring: Fifo,
    busy: Option<Word>,       // the frame in the tasklet's hands
    incoming: seq<Passage>,   // every frame taken from the card, in order
    returned: seq<Passage>,   // every frame written back, in order
    packetsIncoming: nat,
    packetsReturned: nat,
    packetsDiscarded: nat,
    badMfaCount: nat,
    messageIrqMasked: bool)

  const NoFlow := Flow(Fifo(None, []), None, [], [], 0, 0, 0, 0, false)

  /** `Polled` and `Interrupt` read a word from the outbound FIFO. The debug level may be
      another at each event. */
  datatype Event =
    | Polled(word: Word, debug: nat)
    | Interrupt(word: Word, debug: nat)
    | Get
    | Finish(frame: Frame, debug: nat)

  predicate IsFrameAddress(mfa: Word) {
    mfa != 0xFFFF_FFFF && mfa != 0
  }

  function GiveBack(f: Flow, mfa: Word, queued: bool): Flow {
    f.(packetsReturned := f.packetsReturned + 1, returned := f.returned + [Passage(mfa, queued)])
  }

  /** A frame sent straight back without going through the ring. */
  function Refuse(f: Flow, mfa: Word, discards: nat): Flow {
    GiveBack(f.(packetsIncoming := f.packetsIncoming + 1, incoming := f.incoming + [Passage(mfa, false)],
                packetsDiscarded := f.packetsDiscarded + discards), mfa, false)
  }

  function Consume(f: Flow, capacity: nat, debug: nat, mfa: Word): Flow {
    if debug == 8 then Refuse(f, mfa, 0)
    else
      var (ring, out) := Ring.Step(f.ring, capacity, Put(mfa));
      if out.ok then
        f.(packetsIncoming := f.packetsIncoming + 1, incoming := f.incoming + [Passage(mfa, true)], ring := ring)
      else Refuse(f, mfa, 1)
  }

  function Intake(f: Flow, capacity: nat, debug: nat, mfa: Word): Flow {
    if IsFrameAddress(mfa) then Consume(f.(badMfaCount := 0), capacity, debug, mfa) else f
  }

  function InterruptIntake(f: Flow, capacity: nat, debug: nat, mfa: Word): Flow {
    if IsFrameAddress(mfa) then Intake(f, capacity, debug, mfa)
    else f.(badMfaCount := f.badMfaCount + 1,
            messageIrqMasked := f.messageIrqMasked || f.badMfaCount + 1 > BAD_MFA_THRESHOLD)
  }

  /** The head of the tasklet's loop: takes a frame if one is queued. */
  function Take(f: Flow, capacity: nat): Flow {
    var (ring, out) := Ring.Step(f.ring, capacity, Op.Get);
    if out == Got(STREAM_MFA_INVALID) then f.(ring := ring)
    else f.(ring := ring, busy := Some(out.data))
  }

  /** The body of the tasklet's loop for the frame in its hands. */
  function Complete(f: Flow, debug: nat, frame: Frame): Flow
    requires f.busy.Some?
  {
    var discard := debug != 7 && (frame.OtherType? || frame.claim.FunctionCleared?);
    GiveBack(f.(busy := None, packetsDiscarded := f.packetsDiscarded + if discard then 1 else 0),
             f.busy.value, true)
  }

  function Step(f: Flow, capacity: nat, e: Event): Flow {
    match e
    case Polled(w, debug) => Intake(f, capacity, debug, w)
    case Interrupt(w, debug) => InterruptIntake(f, capacity, debug, w)
    case Get => if f.busy.None? then Take(f, capacity) else f
    case Finish(frame, debug) => if f.busy.Some? then Complete(f, debug, frame) else f
  }

  function Run(capacity: nat, es: seq<Event>): Flow {
    if es == [] then NoFlow
    else Step(Run(capacity, es[..|es| - 1]), capacity, es[|es| - 1])
  }

  /** The addresses of the passages that did (`queued`) or did not go through the ring. */
  ghost function Only(ps: seq<Passage>, queued: bool): seq<Word> {
    if ps == [] then []
    else
      var p := ps[|ps| - 1];
      Only(ps[..|ps| - 1], queued) + if p.queued == queued then [p.mfa] else []
  }

  lemma OnlyAppend(ps: seq<Passage>, p: Passage, queued: bool)
    ensures Only(ps + [p], queued) == Only(ps, queued) + (if p.queued == queued then [p.mfa] else [])
  {
    assert (ps + [p])[..|ps|] == ps;
  }

  ghost function AsSeq(o: Option<Word>): seq<Word> {
    if o.Some? then [o.value] else []
  }

  /** Accepted frames not yet returned, oldest first. */
  ghost function Pending(f: Flow): seq<Word> {
    AsSeq(f.busy) + f.ring.queue
  }

  /** Frames sent straight back match those refused, in order; frames accepted
      by the ring go back in order, the rest of them still being pending; and
      the counters agree with the history. */
  ghost predicate Conserved(f: Flow) {
    && Only(f.incoming, false) == Only(f.returned, false)
    && Only(f.incoming, true) == Only(f.returned, true) + Pending(f)
    && f.packetsIncoming == |f.incoming| == f.packetsReturned + |Pending(f)|
    && f.packetsReturned == |f.returned|
    && f.packetsDiscarded <= f.packetsReturned
    && (forall i :: 0 <= i < |f.ring.queue| ==> IsFrameAddress(f.ring.queue[i]))
  }

  lemma QueueConserves(f: Flow, ring: Fifo, mfa: Word)
    requires Conserved(f) && IsFrameAddress(mfa)
    requires ring.queue == f.ring.queue + [mfa]
    ensures Conserved(f.(packetsIncoming := f.packetsIncoming + 1,
                         incoming := f.incoming + [Passage(mfa, true)], ring := ring))
  {
    OnlyAppend(f.incoming, Passage(mfa, true), true);
    OnlyAppend(f.incoming, Passage(mfa, true), false);
    assert AsSeq(f.busy) + ring.queue == Pending(f) + [mfa];
  }

  lemma RefuseConserves(f: Flow, mfa: Word, discards: nat)
    requires Conserved(f) && discards <= 1
    ensures Conserved(Refuse(f, mfa, discards))
  {
    OnlyAppend(f.incoming, Passage(mfa, false), true);
    OnlyAppend(f.incoming, Passage(mfa, false), false);
    OnlyAppend(f.returned, Passage(mfa, false), true);
    OnlyAppend(f.returned, Passage(mfa, false), false);
  }

  lemma ConsumeConserves(f: Flow, capacity: nat, debug: nat, mfa: Word)
    requires Conserved(f) && IsFrameAddress(mfa)
    ensures Conserved(Consume(f, capacity, debug, mfa))
  {
    var (ring, out) := Ring.Step(f.ring, capacity, Put(mfa));
    if debug != 8 && out.ok {
      QueueConserves(f, ring, mfa);
    } else {
      RefuseConserves(f, mfa, if debug == 8 then 0 else 1);
    }
  }

  lemma TakeConserves(f: Flow, capacity: nat)
    requires Conserved(f) && f.busy.None?
    ensures Conserved(Take(f, capacity))
    ensures Take(f, capacity).busy.None? <==> f.ring.queue == []
  {
    if f.ring.queue != [] {
      assert Pending(Take(f, capacity)) == Pending(f);
    }
  }

  lemma CompleteConserves(f: Flow, debug: nat, frame: Frame)
    requires Conserved(f) && f.busy.Some?
    ensures Conserved(Complete(f, debug, frame))
  {
    OnlyAppend(f.returned, Passage(f.busy.value, true), true);
    OnlyAppend(f.returned, Passage(f.busy.value, true), false);
    assert Pending(f) == [f.busy.value] + Pending(Complete(f, debug, frame));
  }

  ghost function Addresses(ps: seq<Passage>): seq<Word> {
    if ps == [] then [] else Addresses(ps[..|ps| - 1]) + [ps[|ps| - 1].mfa]
  }

  lemma {:induction false} AddressesSplit(ps: seq<Passage>)
    ensures multiset(Addresses(ps)) == multiset(Only(ps, true)) + multiset(Only(ps, false))
    ensures |Addresses(ps)| == |ps|
  {
    if ps != [] {
      AddressesSplit(ps[..|ps| - 1]);
    }
  }

  /** In a conserved state every frame taken in is in exactly one place, as often
      as it came in: back at the card, in the tasklet's hands, or queued. */
  lemma EveryFrameSomewhere(f: Flow)
    requires Conserved(f)
    ensures multiset(Addresses(f.incoming)) == multiset(Addresses(f.returned)) + multiset(Pending(f))
  {
    AddressesSplit(f.incoming);
    AddressesSplit(f.returned);
  }

  lemma StepConserves(f: Flow, capacity: nat, e: Event)
    requires Conserved(f)
    ensures Conserved(Step(f, capacity, e))
  {
    match e
    case Polled(w, debug) =>
      if IsFrameAddress(w) { ConsumeConserves(f.(badMfaCount := 0), capacity, debug, w); }
    case Interrupt(w, debug) =>
      if IsFrameAddress(w) { ConsumeConserves(f.(badMfaCount := 0), capacity, debug, w); }
    case Get => if f.busy.None? { TakeConserves(f, capacity); }
    case Finish(frame, debug) => if f.busy.Some? { CompleteConserves(f, debug, frame); }
  }

  /** In every reachable state, for any interleaving of interrupts, polling and
      tasklet turns, at any debug levels, frames are conserved. */
  lemma {:induction false} FramesConserved(capacity: nat, es: seq<Event>)
    ensures Conserved(Run(capacity, es))
  {
    if es != [] {
      FramesConserved(capacity, es[..|es| - 1]);
      StepConserves(Run(capacity, es[..|es| - 1]), capacity, es[|es| - 1]);
    }
  }

  // What is taken in, when the interrupt is masked, and what is discarded.

  /** The words of a run, other than 0 and all ones, that the driver read from the card. */
  ghost function FramesRead(es: seq<Event>): seq<Word> {
    if es == [] then []
    else
      var e, before := es[|es| - 1], FramesRead(es[..|es| - 1]);
      if (e.Polled? || e.Interrupt?) && 0 < e.word < 0xFFFF_FFFF then before + [e.word] else before
  }

  /** The interrupts that brought 0 or all ones since the driver last read anything else. */
  ghost function BadInRow(es: seq<Event>): nat {
    if es == [] then 0
    else
      var e, before := es[|es| - 1], BadInRow(es[..|es| - 1]);
      if (e.Polled? || e.Interrupt?) && 0 < e.word < 0xFFFF_FFFF then 0
      else if e.Interrupt? then before + 1
      else before
  }

  /** The frames of a run that found the ring full, or on which the tasklet found no command
      packet or a handler whose function had been cleared. */
  ghost function Unused(capacity: nat, es: seq<Event>): nat {
    if es == [] then 0
    else
      var e, f := es[|es| - 1], Run(capacity, es[..|es| - 1]);
      var unused :=
        match e
        case Finish(frame, debug) =>
          f.busy.Some? && debug != 7 && (frame == OtherType || frame == Command(FunctionCleared))
        case Get => false
        case _ => 0 < e.word < 0xFFFF_FFFF && e.debug != 8 && f.ring.Occupancy() >= capacity;
      Unused(capacity, es[..|es| - 1]) + if unused then 1 else 0
  }

  /** Over every run the driver takes in just the words that are frames, in order. */
  lemma {:induction false} FramesTakenIn(capacity: nat, es: seq<Event>)
    ensures Addresses(Run(capacity, es).incoming) == FramesRead(es)
  {
    if es != [] {
      var f, e := Run(capacity, es[..|es| - 1]), es[|es| - 1];
      FramesTakenIn(capacity, es[..|es| - 1]);
      StepTakesIn(f, capacity, e);
    }
  }

  lemma AddressesAppend(ps: seq<Passage>, p: Passage)
    ensures Addresses(ps + [p]) == Addresses(ps) + [p.mfa]
  {
    assert (ps + [p])[..|ps|] == ps;
  }

  lemma StepTakesIn(f: Flow, capacity: nat, e: Event)
    ensures Addresses(Step(f, capacity, e).incoming) == Addresses(f.incoming) +
      if (e.Polled? || e.Interrupt?) && 0 < e.word < 0xFFFF_FFFF then [e.word] else []
  {
    if e.Polled? || e.Interrupt? {
      AddressesAppend(f.incoming, Passage(e.word, true));
      AddressesAppend(f.incoming, Passage(e.word, false));
    }
  }

  /** A frame read is queued if and only if there is room for it and the debug level is not 8;
      any other goes straight back. */
  lemma QueuedIff(f: Flow, capacity: nat, e: Event)
    requires (e.Polled? || e.Interrupt?) && 0 < e.word < 0xFFFF_FFFF
    ensures var f', queued := Step(f, capacity, e), e.debug != 8 && f.ring.Occupancy() < capacity;
            && f'.ring.queue == f.ring.queue + (if queued then [e.word] else [])
            && Addresses(f'.returned) == Addresses(f.returned) + (if queued then [] else [e.word])
  {
    AddressesAppend(f.returned, Passage(e.word, false));
  }

  /** The message interrupt is masked if and only if at some time more than 100 interrupts in
      a row had brought 0 or all ones. */
  lemma {:induction false} MaskedIff(capacity: nat, es: seq<Event>)
    ensures Run(capacity, es).badMfaCount == BadInRow(es)
    ensures Run(capacity, es).messageIrqMasked <==> exists i :: 0 <= i <= |es| && BadInRow(es[..i]) > 100
  {
    if es == [] {
      assert es[..0] == [];
    } else {
      var n := |es| - 1;
      MaskedIff(capacity, es[..n]);
      assert es[..|es|] == es;
      forall i | 0 <= i <= n ensures es[..n][..i] == es[..i] {
      }
      if i :| 0 <= i <= n && BadInRow(es[..n][..i]) > 100 {
        assert BadInRow(es[..i]) > 100;
      }
      if i :| 0 <= i <= |es| && BadInRow(es[..i]) > 100 {
        assert i == |es| || BadInRow(es[..n][..i]) > 100;
        assert BadInRow(es) > 100 ==> es[n].Interrupt? || BadInRow(es[..n][..n]) > 100;
      }
    }
  }

  /** The driver counts as discarded just those frames. */
  lemma {:induction false} DiscardsCounted(capacity: nat, es: seq<Event>)
    ensures Run(capacity, es).packetsDiscarded == Unused(capacity, es)
  {
    if es != [] {
      DiscardsCounted(capacity, es[..|es| - 1]);
    }
  }

  /** A word read from the outbound FIFO by interrupt, and the debug level then. */
  datatype Arrival = Arrival(word: Word, debug: nat)

  /** Frames arriving by interrupt around one turn of the tasklet's loop, and the debug
      level at which it finishes its own. */
  datatype Preemption = Preemption(beforeGet: seq<Arrival>, afterGet: seq<Arrival>, debug: nat)

  function Interrupts(f: Flow, capacity: nat, arrivals: seq<Arrival>): Flow {
    if arrivals == [] then f
    else
      var a := arrivals[|arrivals| - 1];
      InterruptIntake(Interrupts(f, capacity, arrivals[..|arrivals| - 1]), capacity, a.debug, a.word)
  }

  lemma {:induction false} InterruptsConserve(f: Flow, capacity: nat, arrivals: seq<Arrival>)
    requires Conserved(f)
    ensures var f' := Interrupts(f, capacity, arrivals);
            && Conserved(f') && f'.busy == f.busy
            && f.incoming <= f'.incoming
  {
    if arrivals != [] {
      var a, before := arrivals[|arrivals| - 1], arrivals[..|arrivals| - 1];
      InterruptsConserve(f, capacity, before);
      StepConserves(Interrupts(f, capacity, before), capacity, Interrupt(a.word, a.debug));
    }
  }

  class Device {
    const streambuf: GenericIntBuf
    var packetsIncoming: nat
    var packetsReturned: nat
    var packetsDiscarded: nat
    var badMfaCount: nat
    var messageIrqMasked: bool
    ghost var incoming: seq<Passage>
    ghost var returned: seq<Passage>
    ghost var busy: Option<Word>

    ghost function State(): Flow
      requires streambuf.Valid()
      reads this, streambuf, streambuf.buffers
    {
      Flow(streambuf.Abs(), busy, incoming, returned, packetsIncoming, packetsReturned,
           packetsDiscarded, badMfaCount, messageIrqMasked)
    }

    ghost predicate Valid()
      reads this, streambuf, streambuf.buffers
    {
      streambuf.Valid() && Conserved(State())
    }

    constructor (k: nat)
      ensures Valid() && fresh(this) && fresh(streambuf) && fresh(streambuf.buffers)
      ensures State() == NoFlow
    {
      streambuf := new GenericIntBuf(k);
      packetsIncoming, packetsReturned, packetsDiscarded := 0, 0, 0;
      badMfaCount, messageIrqMasked := 0, false;
      incoming, returned, busy := [], [], None;
    }

    /** Writes the frame back to the card's outbound FIFO port. */
    method ReturnMessage(mfa: Word, ghost queued: bool)
      requires streambuf.Valid()
      modifies this`packetsReturned, this`returned
      ensures State() == GiveBack(old(State()), mfa, queued)
    {
      packetsReturned := packetsReturned + 1;
      returned := returned + [Passage(mfa, queued)];
    }

    /** Counts and returns a frame the ring did not take. */
    method RefuseFrame(mfa: Word, debug: nat, ghost discards: nat)
      requires streambuf.Valid() && discards == if debug == 8 then 0 else 1
      modifies this
      ensures State() == Refuse(old(State()), mfa, discards)
    {
      packetsIncoming := packetsIncoming + 1;
      incoming := incoming + [Passage(mfa, false)];
      ReturnMessage(mfa, false);
      if debug != 8 {
        packetsDiscarded := packetsDiscarded + 1;
      }
    }

    method ConsumeI2o(mfa: Word, debug: nat)
      requires streambuf.Valid()
      modifies this, streambuf, streambuf.buffers
      ensures streambuf.Valid()
      ensures State() == Consume(old(State()), streambuf.Capacity(), debug, mfa)
    {
      if debug == 8 {
        RefuseFrame(mfa, debug, 0);
        return;
      }
      var ok := streambuf.Put(mfa);
      if ok {
        packetsIncoming := packetsIncoming + 1;
        incoming := incoming + [Passage(mfa, true)];
      } else {
        RefuseFrame(mfa, debug, 1);
      }
    }

    /** Thread-level intake, as the lost-interrupt backstop calls it. */
    method HandleIncomingMessage(mfa: Word, debug: nat) returns (handled: bool)
      requires Valid()
      modifies this, streambuf, streambuf.buffers
      ensures Valid()
      ensures State() == Intake(old(State()), streambuf.Capacity(), debug, mfa)
      ensures handled <==> IsFrameAddress(mfa)
    {
      StepConserves(State(), streambuf.Capacity(), Polled(mfa, debug));
      if !IsFrameAddress(mfa) {
        return false;
      }
      badMfaCount := 0;
      ConsumeI2o(mfa, debug);
      return true;
    }

    /** Interrupt-level intake: a long run of bad addresses masks the interrupt. */
    method IncomingMessageIsr(mfa: Word, debug: nat) returns (handled: bool)
      requires Valid()
      modifies this, streambuf, streambuf.buffers
      ensures Valid()
      ensures State() == InterruptIntake(old(State()), streambuf.Capacity(), debug, mfa)
      ensures handled <==> IsFrameAddress(mfa)
    {
      StepConserves(State(), streambuf.Capacity(), Interrupt(mfa, debug));
      if !IsFrameAddress(mfa) {
        badMfaCount := badMfaCount + 1;
        if badMfaCount > BAD_MFA_THRESHOLD {
          messageIrqMasked := true;
        }
        return false;
      }
      badMfaCount := 0;
      ConsumeI2o(mfa, debug);
      return true;
    }

    /** Interrupts arriving one after the other. */
    method TakeInterrupts(arrivals: seq<Arrival>)
      requires Valid()
      modifies this, streambuf, streambuf.buffers
      ensures Valid() && busy == old(busy) && old(incoming) <= incoming
      ensures State() == Interrupts(old(State()), streambuf.Capacity(), arrivals)
    {
      InterruptsConserve(State(), streambuf.Capacity(), arrivals);
      for i := 0 to |arrivals|
        invariant Valid()
        invariant State() == Interrupts(old(State()), streambuf.Capacity(), arrivals[..i])
      {
        var _ := IncomingMessageIsr(arrivals[i].word, arrivals[i].debug);
        assert arrivals[..i + 1][..i] == arrivals[..i];
      }
      assert arrivals[..|arrivals|] == arrivals;
    }

    /** Counts and returns the frame the tasklet holds after looking at its type. */
    method FinishFrame(mfa: Word, frame: Frame, debug: nat)
      requires streambuf.Valid() && busy == Some(mfa)
      modifies this`packetsReturned, this`packetsDiscarded, this`returned, this`busy
      ensures State() == Complete(old(State()), debug, frame)
    {
      if debug != 7 {
        match frame
        case Command(claim) =>
          if claim.FunctionCleared? {
            packetsDiscarded := packetsDiscarded + 1;
          }
        case OtherType =>
          packetsDiscarded := packetsDiscarded + 1;
      }
      busy := None;
      ReturnMessage(mfa, true);
    }

    /** The head of the tasklet's loop. */
    method TakeFrame() returns (mfa: Word)
      requires Valid() && busy == None
      modifies this`busy, streambuf`iget, streambuf`iputback
      ensures Valid() && State() == Take(old(State()), streambuf.Capacity())
      ensures mfa == STREAM_MFA_INVALID ==> busy == None && streambuf.Abs().queue == []
      ensures mfa != STREAM_MFA_INVALID ==>
        busy == Some(mfa) && |streambuf.Abs().queue| < old(|streambuf.Abs().queue|)
    {
      TakeConserves(State(), streambuf.Capacity());
      mfa := streambuf.Get();
      if mfa != STREAM_MFA_INVALID {
        busy := Some(mfa);
      }
    }

    /** The body of the tasklet's loop, interrupts having come in meanwhile. */
    method HandleFrame(mfa: Word, p: Preemption, frame: Frame)
      requires Valid() && busy == Some(mfa)
      modifies this, streambuf, streambuf.buffers
      ensures Valid() && busy == None && old(incoming) <= incoming
      ensures p.afterGet == [] ==> streambuf.Abs().queue == old(streambuf.Abs().queue)
    {
      TakeInterrupts(p.afterGet);
      CompleteConserves(State(), p.debug, frame);
      FinishFrame(mfa, frame, p.debug);
    }

    /** One turn of the tasklet's loop; answers whether a frame was there to take. */
    method Turn(p: Preemption, frame: Frame) returns (more: bool)
      requires Valid() && busy == None
      modifies this, streambuf, streambuf.buffers
      ensures Valid() && busy == None && old(incoming) <= incoming
      ensures !more ==> streambuf.Abs().queue == []
      ensures more && p.beforeGet == [] == p.afterGet ==> |streambuf.Abs().queue| < old(|streambuf.Abs().queue|)
    {
      TakeInterrupts(p.beforeGet);
      var mfa := TakeFrame();
      more := mfa != STREAM_MFA_INVALID;
      if more {
        HandleFrame(mfa, p, frame);
      }
    }

    /** The tasklet: drains the ring while interrupts keep feeding it. By the end
        every frame ever taken in has gone back exactly once, and those the ring
        accepted in the order it accepted them. */
    method StreamingIsrBh(script: seq<Preemption>, frames: seq<Frame>)
      requires Valid() && busy == None && |frames| > 0
      modifies this, streambuf, streambuf.buffers
      ensures Valid() && busy == None && streambuf.Abs().queue == []
      ensures Only(returned, true) == Only(incoming, true)
      ensures multiset(Addresses(returned)) == multiset(Addresses(incoming))
      ensures packetsReturned == packetsIncoming
      ensures old(incoming) <= incoming
    {
      var turn, more := 0, true;
      while more
        invariant Valid() && busy == None
        invariant old(incoming) <= incoming
        invariant !more ==> streambuf.Abs().queue == []
        decreases more, if turn < |script| then |script| - turn else 0, |streambuf.Abs().queue|
      {
        more := Turn(if turn < |script| then script[turn] else Preemption([], [], 0), frames[turn % |frames|]);
        turn := turn + 1;
      }
      EveryFrameSomewhere(State());
      assert Pending(State()) == [];
      assert Only(returned, true) + [] == Only(returned, true);
    }
  }
}
