/** The handler list and the driver's faults in every run: when a handler is unlinked twice,
    and when a null pointer is followed (acq200_i2o.c, rch.h). */
module HandlerLinks {
  import opened Pool
  import opened Handlers
  import opened HandlerBalance
  import opened HandlerRuns

  // The list, in every run.

  /** Handlers are listed once, and just while they have a path; listed ones are reserved and
      have been built. */
  ghost predicate Linked(d: Device) {
    && Shaped(d) && NoDuplicates(d.list)
    && (forall h: nat :: h < NHANDLERS ==> (d.rch[h].path.Some? <==> h in d.list))
    && (forall h: nat :: h < NHANDLERS && h in d.list ==> d.handlers.reserved[h] && d.rch[h].built)
  }

  /** From a linked device a step leads to another, unlinking no handler twice. */
  ghost predicate LinksOn(d: Device, d': Device) {
    Linked(d) ==> Linked(d') && d'.unlinkedTwice == d.unlinkedTwice
  }

  lemma RecycleLinks(d: Device, h: nat)
    requires h < NHANDLERS && Shaped(d)
    ensures LinksOn(d, Recycle(d, h))
  {
    if Linked(d) {
      RecycleShaped(d, h);
      WithoutMembers(d.list, h);
    }
  }

  /** Listing a handler taken from the pool. */
  lemma SubmitLinks(d: Device, taken: Device, h: nat, f: Function, path: nat, kbuf: Kbuf, pooled: bool, frameFree: bool)
    requires Shaped(d) && Shaped(taken) && h < NHANDLERS && !d.handlers.reserved[h]
    requires taken == d.(handlers := Entries(d.handlers.reserved[h := true], h), mappings := taken.mappings)
    ensures LinksOn(d, Submit(taken, h, f, path, kbuf, pooled, frameFree))
  {
    if Linked(d) {
      assert forall x :: x in d.list + [h] <==> x in d.list || x == h;
    }
  }

  lemma HandleLinks(d: Device, h: nat, a: Answer)
    requires Shaped(d) && h < NHANDLERS
    ensures LinksOn(d, Handle(d, h, a))
  {
    match d.rch[h].handler
    case Cleared => RecycleLinks(d, h);
    case ReadMessage => UpdateLinks(d, h, SetSamples(d.rch[h], a));
    case RecycleOnly => RecycleLinks(d, h);
    case LastMessage => UpdateLinks(d, h, d.rch[h].(valid := 1));
  }

  lemma UpdateLinks(d: Device, h: nat, r: Rch)
    requires Shaped(d) && h < NHANDLERS && r.path == d.rch[h].path && r.built == d.rch[h].built
    ensures var d1 := d.(rch := d.rch[h := r]); LinksOn(d, d1) && LinksOn(d, Recycle(d1, h))
  {
    RecycleLinks(d.(rch := d.rch[h := r]), h);
  }

  lemma RespondLinks(d: Device, k: nat, a: Answer)
    requires Shaped(d) && k < |d.card|
    ensures LinksOn(d, Respond(d, k, a))
  {
    var d1 := d.(card := d.card[..k] + d.card[k + 1..]);
    var found := Find(d1.rch, d1.list, d.card[k].id);
    if found.Some? {
      HandleLinks(d1, found.value, a);
    }
  }

  lemma {:induction false} CleanupLinks(d: Device, path: nat)
    requires Shaped(d)
    ensures LinksOn(d, Cleanup(d, path))
    decreases |d.list|
  {
    match FirstOfPath(d.rch, d.list, path)
    case None =>
    case Some(h) =>
      RecycleShaped(d, h);
      RecycleLinks(d, h);
      CleanupLinks(Recycle(d, h), path);
  }

  lemma ReadLinks(d: Device, path: nat, frameFree: bool)
    requires Shaped(d)
    ensures LinksOn(d, ReadSubmit(d, path, frameFree).0)
  {
    AllocNearest(d.handlers);
    var (handlers, h) := Alloc(d.handlers);
    var (mappings, m) := Alloc(d.mappings);
    if h.Some? {
      if m.None? {
        RecycleLinks(d.(handlers := handlers), h.value);
      } else {
        SubmitLinks(d, d.(handlers := handlers, mappings := mappings), h.value, ReadMessage, path,
                    PoolKbuf(m.value), true, frameFree);
      }
    }
  }

  lemma WriteLinks(d: Device, path: nat, count: nat, frameFree: bool)
    requires Shaped(d)
    ensures LinksOn(d, WriteSubmit(d, path, count, frameFree))
  {
    AllocNearest(d.handlers);
    var (handlers, h) := Alloc(d.handlers);
    var (mappings, m) := Alloc(d.mappings);
    if h.Some? {
      if m.None? {
        RecycleLinks(d.(handlers := handlers), h.value);
      } else if count > 0 {
        SubmitLinks(d, d.(handlers := handlers, mappings := mappings), h.value, RecycleOnly, path,
                    PoolKbuf(m.value), true, frameFree);
      }
    }
  }

  lemma PlainLinks(d: Device, f: Function, path: nat, kbuf: Kbuf, pooled: bool, frameFree: bool)
    requires Shaped(d) && !d.handlers.Full()
    ensures LinksOn(d, PlainSubmit(d, f, path, kbuf, pooled, frameFree).0)
  {
    AllocNearest(d.handlers);
    var (handlers, h) := Alloc(d.handlers);
    SubmitLinks(d, d.(handlers := handlers), h.value, f, path, kbuf, pooled, frameFree);
  }

  /** Finishing a read leaves a linked device, and unlinks its handler twice if and only if
      the card answered with an error. */
  lemma FinishLinks(d: Device, h: nat)
    requires Linked(d) && h < NHANDLERS
    ensures var d' := ReadFinish(d, h);
            Linked(d') && d'.unlinkedTwice == (d.unlinkedTwice || d.rch[h].valid < 0)
  {
    RecycleLinks(d, h);
    if d.rch[h].valid != 0 && d.rch[h].valid != 1 {
      ErrorFinishRecycles(d, h);
      ClearLinks(Recycle(d, h), h, ReadFinish(d, h).unlinkedTwice);
    }
  }

  lemma ClearLinks(d: Device, h: nat, twice: bool)
    requires Linked(d) && h < NHANDLERS
    ensures Linked(d.(rch := d.rch[h := d.rch[h].(handler := Cleared)], unlinkedTwice := twice))
  {
  }

  /** The event finishes a read that the card answered with an error. */
  ghost predicate FinishesError(s: System, e: Event)
    requires Enabled(s, e)
  {
    e.FinishRead? && s.device.rch[e.handler].valid < 0
  }

  lemma NextLinks(s: System, e: Event)
    requires Linked(s.device) && Enabled(s, e)
    ensures var d := Next(s, e).device;
            Linked(d) && d.unlinkedTwice == (s.device.unlinkedTwice || FinishesError(s, e))
  {
    var d := s.device;
    match e
    case Read(p, frameFree) => ReadLinks(d, p, frameFree);
    case FinishRead(h) => FinishLinks(d, h);
    case Write(p, count, frameFree) => WriteLinks(d, p, count, frameFree);
    case Queue(p, b, frameFree) =>
      if !d.handlers.Full() {
        PlainLinks(d, ReadMessage, p, PathKbuf(b), false, frameFree);
      }
    case RecycleSlot(h) => RecycleLinks(d, h);
    case CardAnswers(k, a) => RespondLinks(d, k, a);
    case Release(p, frameFree) => PlainLinks(d, LastMessage, p, NoKbuf, true, frameFree);
    case EndWait(p) => RecycleLinks(d, s.waiting[p]);
    case FinishRelease(p) => CleanupLinks(d, p);
  }

  ghost predicate SomeErrorFinished(s: System, es: seq<Event>)
    requires Possible(s, es)
    decreases |es|
  {
    es != [] && (FinishesError(s, es[0]) || SomeErrorFinished(Next(s, es[0]), es[1..]))
  }

  lemma {:induction false} RunLinks(s: System, es: seq<Event>)
    requires Linked(s.device) && Possible(s, es)
    ensures var d := Run(s, es).device;
            Linked(d) && (d.unlinkedTwice <==> s.device.unlinkedTwice || SomeErrorFinished(s, es))
    decreases |es|
  {
    if es != [] {
      NextLinks(s, es[0]);
      RunLinks(Next(s, es[0]), es[1..]);
    }
  }

  /** In any run of a fresh device, safe or not, some handler has been unlinked twice if and
      only if some read answered with an error has been finished. */
  lemma UnlinkedTwiceIff(es: seq<Event>)
    requires Possible(FreshSystem, es)
    ensures Run(FreshSystem, es).device.unlinkedTwice <==> SomeErrorFinished(FreshSystem, es)
  {
    RunLinks(FreshSystem, es);
  }

  // Faults, in every run.

  /** The handlers that readers, swinging buffers and releases refer to have been built. */
  ghost predicate ReferredBuilt(s: System) {
    && Shaped(s.device)
    && (forall h :: h in Referred(s) ==> h < NHANDLERS && s.device.rch[h].built)
  }

  /** From a linked device a step that recycles no handler never built leads to another of the
      kind without a fault. */
  ghost predicate RunsOn(d: Device, d': Device) {
    Linked(d) ==>
      && Linked(d') && d'.faulted == d.faulted
      && forall h: nat :: h < NHANDLERS && d.rch[h].built ==> d'.rch[h].built
  }

  lemma RecycleRunsOn(d: Device, h: nat)
    requires Shaped(d) && h < NHANDLERS && d.rch[h].built
    ensures RunsOn(d, Recycle(d, h))
  {
    RecycleLinks(d, h);
  }

  lemma HandleRunsOn(d: Device, h: nat, a: Answer)
    requires Shaped(d) && h < NHANDLERS && d.rch[h].built
    ensures RunsOn(d, Handle(d, h, a))
  {
    HandleLinks(d, h, a);
    match d.rch[h].handler
    case Cleared => RecycleRunsOn(d, h);
    case ReadMessage => RecycleRunsOn(d.(rch := d.rch[h := SetSamples(d.rch[h], a)]), h);
    case RecycleOnly => RecycleRunsOn(d, h);
    case LastMessage => RecycleRunsOn(d.(rch := d.rch[h := d.rch[h].(valid := 1)]), h);
  }

  lemma RespondRunsOn(d: Device, k: nat, a: Answer)
    requires Shaped(d) && k < |d.card|
    ensures RunsOn(d, Respond(d, k, a))
  {
    var d1 := d.(card := d.card[..k] + d.card[k + 1..]);
    var found := Find(d1.rch, d1.list, d.card[k].id);
    if Linked(d) && found.Some? {
      HandleRunsOn(d1, found.value, a);
    }
  }

  lemma {:induction false} CleanupRunsOn(d: Device, path: nat)
    requires Linked(d)
    ensures RunsOn(d, Cleanup(d, path))
    decreases |d.list|
  {
    match FirstOfPath(d.rch, d.list, path)
    case None =>
    case Some(h) =>
      RecycleShaped(d, h);
      RecycleRunsOn(d, h);
      CleanupRunsOn(Recycle(d, h), path);
  }

  lemma FinishRunsOn(d: Device, h: nat)
    requires Linked(d) && h < NHANDLERS && d.rch[h].built
    ensures RunsOn(d, ReadFinish(d, h))
  {
    FinishLinks(d, h);
    RecycleRunsOn(d, h);
    if d.rch[h].valid != 0 && d.rch[h].valid != 1 {
      ErrorFinishRecycles(d, h);
    }
  }

  /** A null pointer is followed: a read or write is refused for want of a mapping and its
      handler was never built, or a swinging buffer finds no handler. */
  ghost predicate Faults(s: System, e: Event)
    requires Enabled(s, e)
  {
    match e
    case Read(_, _) => s.device.mappings.Full() && NextIsUnbuilt(s.device)
    case Write(_, _, _) => s.device.mappings.Full() && NextIsUnbuilt(s.device)
    case Queue(_, _, _) => s.device.handlers.Full()
    case _ => false
  }

  lemma RefusalFaultsIff(d: Device)
    requires Linked(d) && d.mappings.Full() && !d.handlers.Full()
    ensures Alloc(d.handlers).1.Some? && Alloc(d.mappings).1.None?
    ensures var d' := Recycle(d.(handlers := Alloc(d.handlers).0), Alloc(d.handlers).1.value);
            && d'.faulted == (d.faulted || NextIsUnbuilt(d))
            && d'.rch == d.rch
  {
    AllocNearest(d.handlers);
    AllocNearest(d.mappings);
  }

  lemma ReadFaultsIff(s: System, e: Event)
    requires Linked(s.device) && Enabled(s, e) && (e.Read? || e.Write?)
    ensures var d' := Next(s, e).device;
            && d'.faulted == (s.device.faulted || Faults(s, e))
            && (forall h: nat :: h < NHANDLERS && h < |d'.rch| && s.device.rch[h].built ==> d'.rch[h].built)
            && forall h: nat :: h in Next(s, e).readers && h !in s.readers ==> h < |d'.rch| && d'.rch[h].built
  {
    AllocNearest(s.device.handlers);
    AllocNearest(s.device.mappings);
    if !s.device.handlers.Full() && s.device.mappings.Full() {
      RefusalFaultsIff(s.device);
    }
  }

  ghost function Referred(s: System): set<nat> {
    s.readers + s.swinging + s.waiting.Values
  }

  ghost predicate KeepsBuilt(d: Device, d': Device) {
    && Shaped(d) && Shaped(d')
    && forall h: nat :: h < NHANDLERS && d.rch[h].built ==> d'.rch[h].built
  }

  lemma DeviceFaultsIff(s: System, e: Event)
    requires Linked(s.device) && ReferredBuilt(s) && Enabled(s, e)
    ensures var d' := Next(s, e).device;
            KeepsBuilt(s.device, d') && d'.faulted == (s.device.faulted || Faults(s, e))
  {
    var d := s.device;
    NextLinks(s, e);
    match e
    case Read(_, _) => ReadFaultsIff(s, e);
    case FinishRead(h) =>
      assert h in Referred(s);
      FinishRunsOn(d, h);
    case Write(_, _, _) => ReadFaultsIff(s, e);
    case Queue(_, _, _) =>
    case RecycleSlot(h) =>
      assert h in Referred(s);
      RecycleRunsOn(d, h);
    case CardAnswers(k, a) => RespondRunsOn(d, k, a);
    case Release(_, _) =>
    case EndWait(p) =>
      assert s.waiting[p] in Referred(s);
      RecycleRunsOn(d, s.waiting[p]);
    case FinishRelease(p) => CleanupRunsOn(d, p);
  }

  /** Only handlers just built are referred to afresh. */
  lemma NewlyReferred(s: System, e: Event, h: nat)
    requires Linked(s.device) && Enabled(s, e) && h in Referred(Next(s, e)) && h !in Referred(s)
    ensures var d' := Next(s, e).device; h < |d'.rch| && d'.rch[h].built
  {
    if e.Read? {
      ReadFaultsIff(s, e);
    } else {
      AllocNearest(s.device.handlers);
    }
  }

  lemma NextFaultsIff(s: System, e: Event)
    requires Linked(s.device) && ReferredBuilt(s) && Enabled(s, e)
    ensures ReferredBuilt(Next(s, e)) && Next(s, e).device.faulted == (s.device.faulted || Faults(s, e))
  {
    DeviceFaultsIff(s, e);
    var s' := Next(s, e);
    forall h | h in Referred(s') ensures h < NHANDLERS && s'.device.rch[h].built {
      if h !in Referred(s) {
        NewlyReferred(s, e, h);
      }
    }
  }

  ghost predicate SomeFault(s: System, es: seq<Event>)
    requires Possible(s, es)
    decreases |es|
  {
    es != [] && (Faults(s, es[0]) || SomeFault(Next(s, es[0]), es[1..]))
  }

  lemma {:induction false} RunFaults(s: System, es: seq<Event>)
    requires Linked(s.device) && ReferredBuilt(s) && Possible(s, es)
    ensures Run(s, es).device.faulted <==> s.device.faulted || SomeFault(s, es)
    decreases |es|
  {
    if es != [] {
      NextLinks(s, es[0]);
      NextFaultsIff(s, es[0]);
      RunFaults(Next(s, es[0]), es[1..]);
    }
  }

  /** In any run of a fresh device, safe or not, the driver has followed a null pointer if and
      only if some read or write was refused with a handler never built, or some swinging
      buffer found no handler. */
  lemma FaultedIff(es: seq<Event>)
    requires Possible(FreshSystem, es)
    ensures Run(FreshSystem, es).device.faulted <==> SomeFault(FreshSystem, es)
  {
    RunFaults(FreshSystem, es);
  }
}
