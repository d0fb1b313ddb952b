/** Who refers to the handlers, and when somebody loses a handler to a release
    (acq200_i2o.c, rch.h). */
module HandlerOwners {
  import opened Options
  import opened Pool
  import opened Handlers
  import opened HandlerBalance
  import opened HandlerRelease
  import opened HandlerRuns
  import opened HandlerLinks

  // Those who wait for a handler's response.

  ghost predicate Awaited(d: Device, h: nat)
    requires Shaped(d)
  {
    h < NHANDLERS && h in d.list && d.rch[h].handler.ReadMessage? && d.rch[h].path.Some?
  }

  /** Handlers somebody still refers to are listed and await their response; no
      reader is left on a path being released. */
  ghost predicate Owned(s: System) {
    var d := s.device;
    && Shaped(d) && s.readers !! s.swinging
    && (forall h :: h in s.readers ==> Awaited(d, h) && d.rch[h].path.value !in s.closing)
    && (forall h :: h in s.swinging ==> Awaited(d, h))
  }

  /** A release whose wait is over recycles no handler that a reader or a swinging buffer
      has meanwhile got. */
  ghost predicate Considerate(s: System, e: Event)
    requires Enabled(s, e)
  {
    e.EndWait? ==>
      var h := s.waiting[e.path];
      s.device.rch[h].valid == 1 ==> h !in s.readers && h !in s.swinging
  }

  /** What an operation may do to handlers others refer to: those other than `h` stay
      listed and unchanged, and nothing else comes onto the list. */
  ghost predicate OnlyTouches(d: Device, d': Device, h: nat) {
    && Shaped(d) && Shaped(d')
    && (forall x: nat :: x < NHANDLERS && x != h ==> d'.rch[x] == d.rch[x])
    && (forall x: nat :: x != h ==> (x in d'.list <==> x in d.list))
  }

  lemma OwnedKept(s: System, s': System, h: nat)
    requires Owned(s) && OnlyTouches(s.device, s'.device, h)
    requires s'.readers - {h} <= s.readers && s'.swinging - {h} <= s.swinging
    requires s'.readers !! s'.swinging && s'.closing == s.closing
    requires h in s'.readers ==> Awaited(s'.device, h) && s'.device.rch[h].path.value !in s'.closing
    requires h in s'.swinging ==> Awaited(s'.device, h)
    ensures Owned(s')
  {
    forall x | x in s'.swinging ensures Awaited(s'.device, x) {
      if x != h {
        assert x in s.swinging;
      }
    }
    forall x | x in s'.readers ensures Awaited(s'.device, x) && s'.device.rch[x].path.value !in s'.closing {
      if x != h {
        assert x in s.readers;
      }
    }
  }

  lemma RecycleTouches(d: Device, h: nat)
    requires Shaped(d) && h < NHANDLERS && NoDuplicates(d.list)
    ensures OnlyTouches(d, Recycle(d, h), h)
    ensures d.rch[h].path.Some? ==> h !in Recycle(d, h).list
  {
    RecycleShaped(d, h);
    WithoutMembers(d.list, h);
  }

  lemma SubmitTouches(d: Device, h: nat, f: Function, path: nat, kbuf: Kbuf, pooled: bool, frameFree: bool)
    requires Shaped(d) && h < NHANDLERS
    ensures var d' := Submit(d, h, f, path, kbuf, pooled, frameFree);
            && OnlyTouches(d, d', h) && h in d'.list
            && d'.rch[h].handler == f && d'.rch[h].path == Some(path)
  {
  }

  lemma OwnedNextIff(s: System, e: Event)
    requires Linked(s.device) && Owned(s) && Enabled(s, e)
    ensures Owned(Next(s, e)) <==> Considerate(s, e)
  {
    match e
    case Read(p, frameFree) => OwnedRead(s, p, frameFree);
    case FinishRead(h) => OwnedFinishRead(s, h);
    case Write(p, count, frameFree) => OwnedWrite(s, p, count, frameFree);
    case Queue(p, b, frameFree) => OwnedQueue(s, p, b, frameFree);
    case RecycleSlot(h) =>
      RecycleTouches(s.device, h);
      OwnedKept(s, Next(s, e), h);
    case CardAnswers(k, a) => OwnedRespond(s, k, a);
    case Release(p, frameFree) => OwnedRelease(s, p, frameFree);
    case EndWait(p) => OwnedEndWaitIff(s, p);
    case FinishRelease(p) => OwnedFinishRelease(s, p);
  }

  lemma OwnedFinishRead(s: System, h: nat)
    requires Linked(s.device) && Owned(s) && Enabled(s, FinishRead(h))
    ensures Owned(Next(s, FinishRead(h)))
  {
    var d := s.device;
    RecycleTouches(d, h);
    if d.rch[h].valid != 0 && d.rch[h].valid != 1 {
      ErrorFinishRecycles(d, h);
    }
    OwnedKept(s, Next(s, FinishRead(h)), h);
  }

  /** The second recycle of a release's handler takes it from whoever awaits its response,
      and from nobody else who refers to it. */
  lemma OwnedEndWaitIff(s: System, p: nat)
    requires Linked(s.device) && Owned(s) && Enabled(s, EndWait(p))
    ensures Owned(Next(s, EndWait(p))) <==> Considerate(s, EndWait(p))
  {
    var h := s.waiting[p];
    if s.device.rch[h].valid == 1 {
      RecycleTouches(s.device, h);
      if Considerate(s, EndWait(p)) {
        OwnedKept(s, Next(s, EndWait(p)), h);
      }
    }
  }

  lemma OwnedFinishRelease(s: System, p: nat)
    requires Linked(s.device) && Owned(s) && Enabled(s, FinishRelease(p))
    ensures Owned(Next(s, FinishRelease(p)))
  {
    CleanupKeeps(s.device, p);
    OthersMembers(s.device.rch, s.device.list, p);
  }

  lemma OwnedRead(s: System, p: nat, frameFree: bool)
    requires Linked(s.device) && Owned(s) && Enabled(s, Read(p, frameFree))
    ensures Owned(Next(s, Read(p, frameFree)))
  {
    var d, s' := s.device, Next(s, Read(p, frameFree));
    AllocNearest(d.handlers);
    AllocNearest(d.mappings);
    var (handlers, h) := Alloc(d.handlers);
    var (mappings, m) := Alloc(d.mappings);
    if h.Some? {
      if m.None? {
        RecycleTouches(d.(handlers := handlers), h.value);
      } else {
        SubmitTouches(d.(handlers := handlers, mappings := mappings), h.value, ReadMessage, p,
                      PoolKbuf(m.value), true, frameFree);
      }
      OwnedKept(s, s', h.value);
    }
  }

  lemma OwnedWrite(s: System, p: nat, count: nat, frameFree: bool)
    requires Linked(s.device) && Owned(s) && Enabled(s, Write(p, count, frameFree))
    ensures Owned(Next(s, Write(p, count, frameFree)))
  {
    var d, s' := s.device, Next(s, Write(p, count, frameFree));
    AllocNearest(d.handlers);
    AllocNearest(d.mappings);
    var (handlers, h) := Alloc(d.handlers);
    var (mappings, m) := Alloc(d.mappings);
    if h.Some? {
      if m.None? {
        RecycleTouches(d.(handlers := handlers), h.value);
      } else {
        SubmitTouches(d.(handlers := handlers, mappings := mappings), h.value, RecycleOnly, p,
                      PoolKbuf(m.value), true, frameFree);
      }
      OwnedKept(s, s', h.value);
    }
  }

  lemma OwnedQueue(s: System, p: nat, b: nat, frameFree: bool)
    requires Linked(s.device) && Owned(s) && Enabled(s, Queue(p, b, frameFree))
    ensures Owned(Next(s, Queue(p, b, frameFree)))
  {
    AllocNearest(s.device.handlers);
    var (handlers, h) := Alloc(s.device.handlers);
    if h.Some? {
      SubmitTouches(s.device.(handlers := handlers), h.value, ReadMessage, p, PathKbuf(b), false, frameFree);
      OwnedKept(s, Next(s, Queue(p, b, frameFree)), h.value);
    }
  }

  lemma OwnedRelease(s: System, p: nat, frameFree: bool)
    requires Linked(s.device) && Owned(s) && Enabled(s, Release(p, frameFree))
    ensures Owned(Next(s, Release(p, frameFree)))
  {
    var s' := Next(s, Release(p, frameFree));
    AllocNearest(s.device.handlers);
    var (handlers, h) := Alloc(s.device.handlers);
    SubmitTouches(s.device.(handlers := handlers), h.value, LastMessage, p, NoKbuf, true, frameFree);
    OwnedKept(s, s'.(closing := s.closing), h.value);
  }

  lemma OwnedRespond(s: System, k: nat, a: Answer)
    requires Linked(s.device) && Owned(s) && k < |s.device.card|
    ensures Owned(s.(device := Respond(s.device, k, a)))
  {
    var d1 := s.device.(card := s.device.card[..k] + s.device.card[k + 1..]);
    var found := Find(d1.rch, d1.list, s.device.card[k].id);
    var s' := s.(device := Respond(s.device, k, a));
    if found.Some? {
      HandleTouches(d1, found.value, a);
      OwnedKept(s, s', found.value);
    }
  }

  lemma HandleTouches(d: Device, h: nat, a: Answer)
    requires Linked(d) && h in d.list
    ensures var d' := Handle(d, h, a);
            && OnlyTouches(d, d', h)
            && (d.rch[h].handler.ReadMessage? ==>
                  h in d'.list && d'.rch[h].handler.ReadMessage? && d'.rch[h].path == d.rch[h].path)
  {
    if !d.rch[h].handler.ReadMessage? {
      RecycleTouches(d, h);
      RecycleTouches(d.(rch := d.rch[h := d.rch[h].(valid := 1)]), h);
    }
  }

  ghost predicate OwnedThroughout(s: System, es: seq<Event>)
    requires Possible(s, es)
    decreases |es|
  {
    Owned(s) && (es == [] || OwnedThroughout(Next(s, es[0]), es[1..]))
  }

  ghost predicate ConsiderateRun(s: System, es: seq<Event>)
    requires Possible(s, es)
    decreases |es|
  {
    es == [] || (Considerate(s, es[0]) && ConsiderateRun(Next(s, es[0]), es[1..]))
  }

  lemma {:induction false} OwnedIffConsiderate(s: System, es: seq<Event>)
    requires Linked(s.device) && Owned(s) && Possible(s, es)
    ensures OwnedThroughout(s, es) <==> ConsiderateRun(s, es)
    decreases |es|
  {
    if es != [] {
      NextLinks(s, es[0]);
      OwnedNextIff(s, es[0]);
      if Considerate(s, es[0]) {
        OwnedIffConsiderate(Next(s, es[0]), es[1..]);
      } else {
        assert !OwnedThroughout(Next(s, es[0]), es[1..]);
      }
    }
  }

  /** Throughout a run of a fresh device, whatever else happens, readers and swinging
      buffers keep the handlers they await if and only if no release whose wait is over
      recycles one of these. */
  lemma AwaitedHandlersKept(es: seq<Event>)
    requires Possible(FreshSystem, es)
    ensures OwnedThroughout(FreshSystem, es) <==> ConsiderateRun(FreshSystem, es)
  {
    OwnedIffConsiderate(FreshSystem, es);
  }

  // Runs in which nobody gets a release's handler before its waiter.

  ghost predicate Untaken(s: System, e: Event)
    requires Enabled(s, e)
  {
    e.EndWait? ==>
      var h := s.waiting[e.path];
      s.device.rch[h].valid == 1 ==> h !in s.device.list && s.device.rch[h].kbuf.NoKbuf?
  }

  /** No request is refused for want of a mapping while its handler still names one or was
      never built, and no write is empty. */
  ghost predicate Sound(s: System, e: Event)
    requires Enabled(s, e)
  {
    e.Read? || e.Write? ==> Safe(s, e)
  }

  ghost predicate UntakenRun(s: System, es: seq<Event>)
    requires Possible(s, es)
    decreases |es|
  {
    es == [] || (Untaken(s, es[0]) && UntakenRun(Next(s, es[0]), es[1..]))
  }

  ghost predicate SoundRun(s: System, es: seq<Event>)
    requires Possible(s, es)
    decreases |es|
  {
    es == [] || (Sound(s, es[0]) && SoundRun(Next(s, es[0]), es[1..]))
  }

  lemma {:induction false} AgreeIffSound(s: System, es: seq<Event>)
    requires Conserved(s.device) && Owned(s) && Possible(s, es) && UntakenRun(s, es)
    ensures AgreeThroughout(s, es) <==> SoundRun(s, es)
    decreases |es|
  {
    if es != [] {
      assert Safe(s, es[0]) <==> Sound(s, es[0]);
      NextConservesIff(s, es[0]);
      OwnedNextIff(s, es[0]);
      if Safe(s, es[0]) {
        AgreeIffSound(Next(s, es[0]), es[1..]);
      } else {
        assert !AgreeThroughout(Next(s, es[0]), es[1..]);
      }
    }
  }

  /** While nobody gets a release's handler between its two recycles, pools and list agree
      throughout a run if and only if every read and write is sound. */
  lemma PoolsConservedUntaken(es: seq<Event>)
    requires Possible(FreshSystem, es) && UntakenRun(FreshSystem, es)
    ensures AgreeThroughout(FreshSystem, es) <==> SoundRun(FreshSystem, es)
  {
    FreshConserved();
    AgreeIffSound(FreshSystem, es);
  }
}
