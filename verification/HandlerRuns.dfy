/** Whole runs of reads, writes, swinging-buffer requests, card responses and
    releases over one device's handlers (acq200_i2o.c). */
module HandlerRuns {
  import opened Options
  import opened Pool
  import opened Handlers
  import opened HandlerBalance
  import opened HandlerRelease

  /** The device and who still refers to its handlers: readers not yet back from their
      wait, the swinging-buffer slots of open paths, and releases waiting for the response
      to their message. `closing` are the paths being released. */
  datatype System = System(device: Device, readers: set<nat>, swinging: set<nat>, waiting: map<nat, nat>,
                           closing: set<nat>)

  const FreshSystem := System(FreshDevice, {}, {}, map[], {})

  datatype Event =
    | Read(path: nat, frameFree: bool)
    | FinishRead(handler: nat)
    | Write(path: nat, count: nat, frameFree: bool)
    | Queue(path: nat, buffer: nat, frameFree: bool)
    | RecycleSlot(handler: nat)
    | CardAnswers(k: nat, answer: Answer)
    | Release(path: nat, frameFree: bool)
    | EndWait(path: nat)
    | FinishRelease(path: nat)

  /** What the kernel and the driver's own state allow next. A file is released only
      when no call on it is in progress. A release needs a handler to be free, trying until
      there is one. */
  ghost predicate Enabled(s: System, e: Event) {
    && Shaped(s.device)
    && match e
       case Read(p, _) => p !in s.closing
       case FinishRead(h) => h in s.readers && h < NHANDLERS
       case Write(p, _, _) => p !in s.closing
       case Queue(p, _, _) => p !in s.closing
       case RecycleSlot(h) => h in s.swinging && h < NHANDLERS
       case CardAnswers(k, _) => k < |s.device.card|
       case Release(p, _) =>
         && p !in s.closing && !s.device.handlers.Full()
         && forall h :: h in s.readers ==> h < NHANDLERS && s.device.rch[h].path != Some(p)
       case EndWait(p) => p in s.waiting && s.waiting[p] < NHANDLERS
       case FinishRelease(p) => p in s.closing && p !in s.waiting
  }

  ghost function Next(s: System, e: Event): System
    requires Enabled(s, e)
  {
    match e
    case Read(p, frameFree) =>
      var (d, h) := ReadSubmit(s.device, p, frameFree);
      s.(device := d, readers := s.readers + if h.Some? then {h.value} else {})
    case FinishRead(h) => s.(device := ReadFinish(s.device, h), readers := s.readers - {h})
    case Write(p, count, frameFree) => s.(device := WriteSubmit(s.device, p, count, frameFree))
    case Queue(p, b, frameFree) =>
      if s.device.handlers.Full() then s.(device := s.device.(faulted := true))
      else
        var (d, h) := PlainSubmit(s.device, ReadMessage, p, PathKbuf(b), false, frameFree);
        s.(device := d, swinging := s.swinging + {h})
    case RecycleSlot(h) => s.(device := Recycle(s.device, h), swinging := s.swinging - {h})
    case CardAnswers(k, a) => s.(device := Respond(s.device, k, a))
    case Release(p, frameFree) =>
      var (d, h) := PlainSubmit(s.device, LastMessage, p, NoKbuf, true, frameFree);
      s.(device := d, waiting := s.waiting[p := h], closing := s.closing + {p})
    case EndWait(p) => s.(device := WaitOver(s.device, s.waiting[p]), waiting := s.waiting - {p})
    case FinishRelease(p) =>
      s.(device := Cleanup(s.device, p), closing := s.closing - {p},
         swinging := set h | h in s.swinging && h < NHANDLERS && s.device.rch[h].path != Some(p))
  }

  /** The conditions, each visible before the step, under which it keeps pools and list in
      agreement. */
  ghost predicate Safe(s: System, e: Event)
    requires Enabled(s, e)
  {
    var d := s.device;
    match e
    case Read(_, _) => d.mappings.Full() ==> !NextIsUnfit(d)
    case FinishRead(h) => d.rch[h].valid != 0 ==> Harmless(d, h)
    case Write(_, count, _) =>
      d.handlers.Full() || (if d.mappings.Full() then !NextIsUnfit(d) else count > 0)
    case RecycleSlot(h) => Harmless(d, h)
    case EndWait(p) => d.rch[s.waiting[p]].valid == 1 ==> Harmless(d, s.waiting[p])
    case _ => true
  }

  lemma NextConservesIff(s: System, e: Event)
    requires Conserved(s.device) && Enabled(s, e)
    ensures Agree(Next(s, e).device) <==> Safe(s, e)
    ensures Agree(Next(s, e).device) ==> Conserved(Next(s, e).device)
  {
    var d := s.device;
    match e
    case Read(p, frameFree) => ReadConservesIff(d, p, frameFree);
    case FinishRead(h) => ReadFinishConservesIff(d, h);
    case Write(p, count, frameFree) => WriteConservesIff(d, p, count, frameFree);
    case Queue(p, b, frameFree) =>
      if !d.handlers.Full() {
        PlainSubmitConserves(d, ReadMessage, p, PathKbuf(b), false, frameFree);
      }
    case RecycleSlot(h) => RecycleConservesIff(d, h);
    case CardAnswers(k, a) => RespondConserves(d, k, a);
    case Release(p, frameFree) => PlainSubmitConserves(d, LastMessage, p, NoKbuf, true, frameFree);
    case EndWait(p) => RecycleConservesIff(d, s.waiting[p]);
    case FinishRelease(p) => CleanupConserves(d, p);
  }

  /** Every event of the run is possible when it comes. */
  ghost predicate Possible(s: System, es: seq<Event>)
    decreases |es|
  {
    es == [] || (Enabled(s, es[0]) && Possible(Next(s, es[0]), es[1..]))
  }

  ghost function Run(s: System, es: seq<Event>): System
    requires Possible(s, es)
    decreases |es|
  {
    if es == [] then s else Run(Next(s, es[0]), es[1..])
  }

  ghost predicate SafeRun(s: System, es: seq<Event>)
    requires Possible(s, es)
    decreases |es|
  {
    es == [] || (Safe(s, es[0]) && SafeRun(Next(s, es[0]), es[1..]))
  }

  /** Pools and list agree at the start and after every event of the run. */
  ghost predicate AgreeThroughout(s: System, es: seq<Event>)
    requires Possible(s, es)
    decreases |es|
  {
    Agree(s.device) && (es == [] || AgreeThroughout(Next(s, es[0]), es[1..]))
  }

  lemma {:induction false} AgreeIffSafe(s: System, es: seq<Event>)
    requires Conserved(s.device) && Possible(s, es)
    ensures AgreeThroughout(s, es) <==> SafeRun(s, es)
    decreases |es|
  {
    if es != [] {
      NextConservesIff(s, es[0]);
      if Safe(s, es[0]) {
        AgreeIffSafe(Next(s, es[0]), es[1..]);
      } else {
        assert !AgreeThroughout(Next(s, es[0]), es[1..]);
      }
    }
  }

  /** Throughout a run of a fresh device the reserved handlers are exactly those
      listed, and each reserved mapping but the message mapping is the buffer of
      exactly one of them, if and only if every event of the run is safe. */
  lemma PoolsConserved(es: seq<Event>)
    requires Possible(FreshSystem, es)
    ensures AgreeThroughout(FreshSystem, es) <==> SafeRun(FreshSystem, es)
  {
    FreshConserved();
    AgreeIffSafe(FreshSystem, es);
  }
}
