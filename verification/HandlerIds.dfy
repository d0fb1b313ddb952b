/** Routing: the 7-bit ids bring each response to the handler of the request it answers, as
    long as no request reuses an id still carried (acq200_i2o.c). */
module HandlerIds {
  import opened Ids
  import opened Options
  import opened Pool
  import opened Handlers
  import opened HandlerBalance
  import opened HandlerRuns
  import opened HandlerLinks

  // What ids and serial numbers say.

  /** Listed handlers and outstanding requests carry the ids of their serial numbers, those
      of sends made, or of a failed one. */
  ghost predicate Numbered(d: Device) {
    && d.lastIdOut == Short(d.sent)
    && (forall h :: h in d.list ==>
          h < |d.rch| && d.rch[h].commandId == MakeId(d.rch[h].serial) && 0 < d.rch[h].serial <= d.sent + 1)
    && (forall k :: 0 <= k < |d.card| ==>
          d.card[k].id == MakeId(d.card[k].serial) && 0 < d.card[k].serial <= d.sent)
  }

  /** The handlers' ids are pairwise distinct, and each response the card may give
      goes to the handler of the request it answers. */
  ghost predicate RoutesAll(d: Device) {
    && Shaped(d)
    && (forall h, k :: h in d.list && k in d.list && h != k ==> d.rch[h].commandId != d.rch[k].commandId)
    && forall k :: 0 <= k < |d.card| ==>
         match Find(d.rch, d.list, d.card[k].id)
         case None => forall h :: h in d.list ==> d.rch[h].serial != d.card[k].serial
         case Some(h) =>
           && d.rch[h].serial == d.card[k].serial
           && forall j :: j in d.list && d.rch[j].serial == d.card[k].serial ==> j == h
  }

  /** Ids tell handlers apart, and requests from handlers of others. */
  ghost predicate Unambiguous(d: Device) {
    && Shaped(d)
    && (forall h, k :: h in d.list && k in d.list && h != k ==> d.rch[h].commandId != d.rch[k].commandId)
    && (forall k, h :: 0 <= k < |d.card| && h in d.list && d.rch[h].commandId == d.card[k].id ==>
          d.rch[h].serial == d.card[k].serial)
  }

  lemma {:induction false} FindNone(rch: seq<Rch>, list: seq<nat>, id: nat)
    requires forall i :: 0 <= i < |list| ==> list[i] < |rch|
    requires Find(rch, list, id).None?
    ensures forall h :: h in list ==> rch[h].commandId != id
  {
    if list != [] {
      FindNone(rch, list[1..], id);
    }
  }

  lemma RoutesIffUnambiguous(d: Device)
    requires Numbered(d) && Shaped(d)
    ensures RoutesAll(d) <==> Unambiguous(d)
  {
    forall k | 0 <= k < |d.card| && Find(d.rch, d.list, d.card[k].id).None?
      ensures forall h :: h in d.list ==> d.rch[h].commandId != d.card[k].id
    {
      FindNone(d.rch, d.list, d.card[k].id);
    }
  }

  // Steps that send nothing.

  ghost predicate Ascending(rch: seq<Rch>, list: seq<nat>) {
    && (forall i :: 0 <= i < |list| ==> list[i] < |rch|)
    && forall i, j :: 0 <= i < j < |list| ==> rch[list[i]].serial < rch[list[j]].serial
  }

  ghost predicate CardAscending(card: seq<Request>) {
    forall i, j :: 0 <= i < j < |card| ==> card[i].serial < card[j].serial
  }

  lemma HeadIsLeast(rch: seq<Rch>, list: seq<nat>)
    requires Ascending(rch, list) && list != []
    ensures forall h :: h in list[1..] ==> h < |rch| && rch[list[0]].serial < rch[h].serial
  {
    forall h | h in list[1..] ensures h < |rch| && rch[list[0]].serial < rch[h].serial {
      var i :| 0 <= i < |list[1..]| && list[1..][i] == h;
      assert list[i + 1] == h;
    }
  }

  lemma AscendingCons(rch: seq<Rch>, h: nat, rest: seq<nat>)
    requires Ascending(rch, rest) && h < |rch|
    requires forall x :: x in rest ==> x < |rch| && rch[h].serial < rch[x].serial
    ensures Ascending(rch, [h] + rest)
  {
  }

  lemma {:induction false} WithoutAscending(rch: seq<Rch>, list: seq<nat>, h: nat)
    requires Ascending(rch, list)
    ensures Ascending(rch, Without(list, h))
  {
    if list != [] && list[0] != h {
      WithoutAscending(rch, list[1..], h);
      WithoutShorter(list[1..], h);
      HeadIsLeast(rch, list);
      AscendingCons(rch, list[0], Without(list[1..], h));
    }
  }

  lemma AscendingSame(rch: seq<Rch>, rch': seq<Rch>, list: seq<nat>)
    requires Ascending(rch, list) && |rch'| == |rch|
    requires forall x: nat :: x < |rch| ==> rch'[x].serial == rch[x].serial
    ensures Ascending(rch', list)
  {
  }

  /** The step lists no handler and sends nothing: `d'` keeps some of the handlers and
      requests of `d`, in order, with their stamps. */
  ghost predicate Thins(d: Device, d': Device) {
    && |d'.rch| == |d.rch| && d'.sent == d.sent && d'.lastIdOut == d.lastIdOut
    && (Ascending(d.rch, d.list) ==> Ascending(d'.rch, d'.list))
    && (forall h :: h in d'.list ==> h in d.list)
    && (forall h :: h in d'.list && h < |d.rch| ==>
          d'.rch[h].serial == d.rch[h].serial && d'.rch[h].commandId == d.rch[h].commandId)
    && (CardAscending(d.card) ==> CardAscending(d'.card))
    && (forall r :: r in d'.card ==> r in d.card)
  }

  lemma ThinsOn(d: Device, d1: Device, d2: Device)
    requires Thins(d, d1) && Thins(d1, d2)
    ensures Thins(d, d2)
  {
  }

  lemma UnlinkThins(d: Device, h: nat)
    ensures Thins(d, Unlink(d, h))
  {
    WithoutShorter(d.list, h);
    if Ascending(d.rch, d.list) {
      WithoutAscending(d.rch, d.list, h);
    }
  }

  /** Changing nothing that ids depend on. */
  lemma UpdateThins(d: Device, h: nat, r: Rch)
    requires h < |d.rch| && r.serial == d.rch[h].serial && r.commandId == d.rch[h].commandId
    ensures Thins(d, d.(rch := d.rch[h := r]))
  {
    if Ascending(d.rch, d.list) {
      AscendingSame(d.rch, d.rch[h := r], d.list);
    }
  }

  lemma RecycleThins(d: Device, h: nat)
    requires h < |d.rch| && h < |d.handlers.reserved|
    ensures Thins(d, Recycle(d, h))
  {
    if d.rch[h].path.Some? {
      var d1 := Unlink(d, h);
      UnlinkThins(d, h);
      UpdateThins(d1, h, d1.rch[h].(path := None, handler := Cleared));
    }
  }

  lemma FinishThins(d: Device, h: nat)
    requires h < |d.rch| && h < |d.handlers.reserved|
    ensures Thins(d, ReadFinish(d, h))
  {
    var d1 := if d.rch[h].valid < 0 then Unlink(d, h) else d;
    UnlinkThins(d, h);
    UpdateThins(d1, h, d.rch[h].(handler := Cleared));
    RecycleThins(d1.(rch := d.rch[h := d.rch[h].(handler := Cleared)]), h);
    RecycleThins(d, h);
  }

  lemma HandleThins(d: Device, h: nat, a: Answer)
    requires h < |d.rch| && h < |d.handlers.reserved|
    ensures Thins(d, Handle(d, h, a))
  {
    match d.rch[h].handler
    case Cleared => RecycleThins(d, h);
    case ReadMessage => UpdateRecycleThins(d, h, SetSamples(d.rch[h], a));
    case RecycleOnly => RecycleThins(d, h);
    case LastMessage => UpdateRecycleThins(d, h, d.rch[h].(valid := 1));
  }

  lemma UpdateRecycleThins(d: Device, h: nat, r: Rch)
    requires h < |d.rch| && h < |d.handlers.reserved|
    requires r.serial == d.rch[h].serial && r.commandId == d.rch[h].commandId
    ensures var d1 := d.(rch := d.rch[h := r]); Thins(d, d1) && Thins(d, Recycle(d1, h))
  {
    var d1 := d.(rch := d.rch[h := r]);
    UpdateThins(d, h, r);
    RecycleThins(d1, h);
    ThinsOn(d, d1, Recycle(d1, h));
  }

  lemma RespondThins(d: Device, k: nat, a: Answer)
    requires Shaped(d) && k < |d.card|
    ensures Thins(d, Respond(d, k, a))
  {
    var d1 := d.(card := d.card[..k] + d.card[k + 1..]);
    assert Thins(d, d1);
    var found := Find(d1.rch, d1.list, d.card[k].id);
    if found.Some? {
      HandleThins(d1, found.value, a);
    }
  }

  lemma {:induction false} CleanupThins(d: Device, path: nat)
    requires Shaped(d)
    ensures Thins(d, Cleanup(d, path))
    decreases |d.list|
  {
    match FirstOfPath(d.rch, d.list, path)
    case None =>
    case Some(h) =>
      RecycleShaped(d, h);
      RecycleThins(d, h);
      CleanupThins(Recycle(d, h), path);
  }

  // Steps that make a request.

  /** The event lists a handler and tries to send its request. */
  ghost predicate Submits(s: System, e: Event)
    requires Enabled(s, e)
  {
    match e
    case Read(_, _) => !s.device.handlers.Full() && !s.device.mappings.Full()
    case Write(_, count, _) => !s.device.handlers.Full() && !s.device.mappings.Full() && count > 0
    case Queue(_, _, _) => !s.device.handlers.Full()
    case Release(_, _) => true
    case _ => false
  }

  /** The device just before it builds a request's handler `h`, not listed so far. */
  ghost predicate Taken(d: Device, taken: Device, h: nat) {
    && Shaped(d) && Shaped(taken) && h < NHANDLERS && !d.handlers.reserved[h]
    && taken == d.(handlers := Entries(d.handlers.reserved[h := true], h), mappings := taken.mappings)
  }

  /** The sending half of an event that makes a request. */
  ghost predicate FrameFree(e: Event) {
    match e
    case Read(_, f) => f
    case Write(_, _, f) => f
    case Queue(_, _, f) => f
    case Release(_, f) => f
    case _ => true
  }

  lemma NextThins(s: System, e: Event)
    requires Enabled(s, e) && !Submits(s, e)
    ensures Thins(s.device, Next(s, e).device)
  {
    var d := s.device;
    match e
    case Read(p, _) => RefusalThins(d);
    case FinishRead(h) => FinishThins(d, h);
    case Write(p, count, _) => RefusalThins(d);
    case Queue(_, _, _) =>
    case RecycleSlot(h) => RecycleThins(d, h);
    case CardAnswers(k, a) => RespondThins(d, k, a);
    case EndWait(p) => RecycleThins(d, s.waiting[p]);
    case FinishRelease(p) => CleanupThins(d, p);
  }

  lemma RefusalThins(d: Device)
    requires Shaped(d)
    ensures Alloc(d.handlers).1.None? <==> d.handlers.Full()
    ensures Alloc(d.mappings).1.None? <==> d.mappings.Full()
    ensures var (handlers, h) := Alloc(d.handlers);
            h.Some? ==> Thins(d, Recycle(d.(handlers := handlers), h.value))
  {
    AllocNearest(d.handlers);
    AllocNearest(d.mappings);
    var (handlers, h) := Alloc(d.handlers);
    if h.Some? {
      RecycleThins(d.(handlers := handlers), h.value);
    }
  }

  lemma NextSubmits(s: System, e: Event)
      returns (taken: Device, h: nat, f: Function, path: nat, kbuf: Kbuf, pooled: bool)
    requires Enabled(s, e) && Submits(s, e)
    ensures Taken(s.device, taken, h)
    ensures Next(s, e).device == Submit(taken, h, f, path, kbuf, pooled, FrameFree(e))
    ensures s.readers <= Next(s, e).readers && s.swinging <= Next(s, e).swinging
    ensures f.ReadMessage? ==> h in Next(s, e).readers + Next(s, e).swinging
  {
    var d := s.device;
    AllocNearest(d.handlers);
    AllocNearest(d.mappings);
    var (handlers, o) := Alloc(d.handlers);
    var (mappings, m) := Alloc(d.mappings);
    h := o.value;
    match e
    case Read(p, _) =>
      taken := d.(handlers := handlers, mappings := mappings);
      f, path, kbuf, pooled := ReadMessage, p, PoolKbuf(m.value), true;
    case Write(p, _, _) =>
      taken := d.(handlers := handlers, mappings := mappings);
      f, path, kbuf, pooled := RecycleOnly, p, PoolKbuf(m.value), true;
    case Queue(p, b, _) =>
      taken := d.(handlers := handlers);
      f, path, kbuf, pooled := ReadMessage, p, PathKbuf(b), false;
    case Release(p, _) =>
      taken := d.(handlers := handlers);
      f, path, kbuf, pooled := LastMessage, p, NoKbuf, true;
  }

  /** No listed handler and no outstanding request carries the id of the next request. */
  ghost predicate NextIdUnused(d: Device) {
    && (forall h :: h in d.list && h < |d.rch| ==> d.rch[h].commandId != MakeId(d.lastIdOut + 1))
    && (forall r :: r in d.card ==> r.id != MakeId(d.lastIdOut + 1))
  }

  lemma ThinsNumbered(d: Device, d': Device)
    requires Numbered(d) && Thins(d, d')
    ensures Numbered(d')
  {
    forall k | 0 <= k < |d'.card|
      ensures d'.card[k].id == MakeId(d'.card[k].serial) && 0 < d'.card[k].serial <= d'.sent
    {
      assert d'.card[k] in d.card;
    }
  }

  lemma ThinsUnambiguous(d: Device, d': Device)
    requires Unambiguous(d) && Shaped(d') && Thins(d, d')
    ensures Unambiguous(d')
  {
    forall k, h | 0 <= k < |d'.card| && h in d'.list && d'.rch[h].commandId == d'.card[k].id
      ensures d'.rch[h].serial == d'.card[k].serial
    {
      assert d'.card[k] in d.card && h in d.list;
    }
  }

  lemma SubmitNumbered(d: Device, taken: Device, h: nat, f: Function, path: nat, kbuf: Kbuf, pooled: bool,
                       frameFree: bool)
    requires Numbered(d) && Taken(d, taken, h)
    ensures Numbered(Submit(taken, h, f, path, kbuf, pooled, frameFree))
  {
    ShortKeepsId(d.sent);
    ShortKeepsId(d.sent + 1);
    var d' := Submit(taken, h, f, path, kbuf, pooled, frameFree);
    assert forall x :: x in d'.list <==> x in d.list || x == h;
  }

  /** The device after a request, in terms of the one before. */
  ghost predicate Requested(d: Device, d': Device, h: nat) {
    && Shaped(d) && Shaped(d') && h < NHANDLERS && h !in d.list && d'.list == d.list + [h]
    && (forall x: nat :: x < NHANDLERS && x != h ==> d'.rch[x] == d.rch[x])
    && d'.rch[h].commandId == MakeId(d.lastIdOut + 1) && d'.rch[h].serial == d.sent + 1
    && (d'.card == d.card || d'.card == d.card + [Request(MakeId(d.lastIdOut + 1), d.sent + 1)])
  }

  lemma SubmitRequests(d: Device, taken: Device, h: nat, f: Function, path: nat, kbuf: Kbuf, pooled: bool,
                       frameFree: bool)
    requires Numbered(d) && Linked(d) && Taken(d, taken, h)
    ensures Requested(d, Submit(taken, h, f, path, kbuf, pooled, frameFree), h)
  {
    ShortKeepsId(d.sent);
    ShortKeepsId(d.sent + 1);
  }

  lemma UnusedIsUnambiguous(d: Device, d': Device, h: nat)
    requires Numbered(d) && Unambiguous(d) && Requested(d, d', h) && NextIdUnused(d)
    ensures Unambiguous(d')
  {
    assert forall x :: x in d'.list <==> x in d.list || x == h;
    forall k, x | 0 <= k < |d'.card| && x in d'.list && d'.rch[x].commandId == d'.card[k].id
      ensures d'.rch[x].serial == d'.card[k].serial
    {
      if k < |d.card| {
        assert d'.card[k] == d.card[k] && d.card[k] in d.card;
      }
    }
  }

  lemma UnambiguousIsUnused(d: Device, d': Device, h: nat)
    requires Numbered(d) && Requested(d, d', h) && Unambiguous(d')
    ensures NextIdUnused(d)
  {
    assert h in d'.list;
    forall x | x in d.list && x < |d.rch| ensures d.rch[x].commandId != MakeId(d.lastIdOut + 1) {
      assert x in d'.list && x != h;
    }
    forall r | r in d.card ensures r.id != MakeId(d.lastIdOut + 1) {
      var k :| 0 <= k < |d.card| && d.card[k] == r;
      assert d'.card[k] == r;
    }
  }

  /** A request leaves the ids unambiguous if and only if nothing carries its id, whether or
      not it is sent. */
  lemma SubmitUnambiguousIff(d: Device, taken: Device, h: nat, f: Function, path: nat, kbuf: Kbuf, pooled: bool,
                             frameFree: bool)
    requires Numbered(d) && Unambiguous(d) && Linked(d) && Taken(d, taken, h)
    ensures Unambiguous(Submit(taken, h, f, path, kbuf, pooled, frameFree)) <==> NextIdUnused(d)
  {
    var d' := Submit(taken, h, f, path, kbuf, pooled, frameFree);
    SubmitRequests(d, taken, h, f, path, kbuf, pooled, frameFree);
    if NextIdUnused(d) {
      UnusedIsUnambiguous(d, d', h);
    }
    if Unambiguous(d') {
      UnambiguousIsUnused(d, d', h);
    }
  }

  lemma NextNumbered(s: System, e: Event)
    requires Numbered(s.device) && Enabled(s, e)
    ensures Numbered(Next(s, e).device)
  {
    if Submits(s, e) {
      var taken, h, f, path, kbuf, pooled := NextSubmits(s, e);
      SubmitNumbered(s.device, taken, h, f, path, kbuf, pooled, FrameFree(e));
    } else {
      NextThins(s, e);
      ThinsNumbered(s.device, Next(s, e).device);
    }
  }

  lemma NextUnambiguousIff(s: System, e: Event)
    requires Numbered(s.device) && Linked(s.device) && Unambiguous(s.device) && Enabled(s, e)
    ensures Unambiguous(Next(s, e).device) <==> (Submits(s, e) ==> NextIdUnused(s.device))
  {
    NextLinks(s, e);
    if Submits(s, e) {
      var taken, h, f, path, kbuf, pooled := NextSubmits(s, e);
      SubmitUnambiguousIff(s.device, taken, h, f, path, kbuf, pooled, FrameFree(e));
    } else {
      NextThins(s, e);
      ThinsUnambiguous(s.device, Next(s, e).device);
    }
  }

  ghost predicate RoutesThroughout(s: System, es: seq<Event>)
    requires Possible(s, es)
    decreases |es|
  {
    RoutesAll(s.device) && (es == [] || RoutesThroughout(Next(s, es[0]), es[1..]))
  }

  /** Every request of the run carries an id that nothing else carries. */
  ghost predicate UnusedIds(s: System, es: seq<Event>)
    requires Possible(s, es)
    decreases |es|
  {
    es == [] || ((Submits(s, es[0]) ==> NextIdUnused(s.device)) && UnusedIds(Next(s, es[0]), es[1..]))
  }

  lemma {:induction false} RoutesIffUnused(s: System, es: seq<Event>)
    requires Numbered(s.device) && Linked(s.device) && Unambiguous(s.device) && Possible(s, es)
    ensures RoutesThroughout(s, es) <==> UnusedIds(s, es)
    decreases |es|
  {
    RoutesIffUnambiguous(s.device);
    if es != [] {
      var s' := Next(s, es[0]);
      NextLinks(s, es[0]);
      NextNumbered(s, es[0]);
      NextUnambiguousIff(s, es[0]);
      RoutesIffUnambiguous(s'.device);
      if Unambiguous(s'.device) {
        RoutesIffUnused(s', es[1..]);
      } else {
        assert !RoutesThroughout(s', es[1..]);
      }
    }
  }

  /** Over every run of a fresh device, whatever sends fail: responses are routed to the
      handlers of the requests they answer throughout if and only if no request is made
      whose id a listed handler or an outstanding request still carries. */
  lemma RoutedIffIdsUnused(es: seq<Event>)
    requires Possible(FreshSystem, es)
    ensures RoutesThroughout(FreshSystem, es) <==> UnusedIds(FreshSystem, es)
  {
    RoutesIffUnused(FreshSystem, es);
  }

  // Runs without a failed send.

  /** Handlers and outstanding requests carry the ids of their serial numbers, which
      follow the order of sending. */
  ghost predicate Stamped(d: Device) {
    && Numbered(d) && Ascending(d.rch, d.list) && CardAscending(d.card)
    && (forall h :: h in d.list ==> d.rch[h].serial <= d.sent)
  }

  /** No listed handler or outstanding request is 128 or more sends old. */
  ghost predicate Recent(d: Device) {
    && (forall h :: h in d.list ==> h < |d.rch| && d.sent - d.rch[h].serial < 0x80)
    && (forall k :: 0 <= k < |d.card| ==> d.sent - d.card[k].serial < 0x80)
  }

  lemma LiveIdsDistinct(d: Device, h: nat, k: nat)
    requires Stamped(d) && Recent(d) && h in d.list && k in d.list && h != k
    ensures d.rch[h].commandId != d.rch[k].commandId
  {
    var i :| 0 <= i < |d.list| && d.list[i] == h;
    var j :| 0 <= j < |d.list| && d.list[j] == k;
    SameIdIff(d.rch[h].serial, d.rch[k].serial);
  }

  lemma ThinsStamped(d: Device, d': Device)
    requires Stamped(d) && Thins(d, d')
    ensures Stamped(d')
  {
    ThinsNumbered(d, d');
    forall h | h in d'.list ensures d'.rch[h].serial <= d'.sent {
      assert h in d.list;
    }
  }

  lemma SubmitStamped(d: Device, taken: Device, h: nat, f: Function, path: nat, kbuf: Kbuf, pooled: bool)
    requires Stamped(d) && Linked(d) && Taken(d, taken, h)
    ensures Stamped(Submit(taken, h, f, path, kbuf, pooled, true))
  {
    SubmitNumbered(d, taken, h, f, path, kbuf, pooled, true);
    var d' := Submit(taken, h, f, path, kbuf, pooled, true);
    forall i | 0 <= i < |d.list| ensures d'.list[i] == d.list[i] != h {
      assert d.list[i] in d.list;
    }
    assert forall x :: x in d'.list <==> x in d.list || x == h;
  }

  lemma {:induction false} StampedRun(s: System, es: seq<Event>)
    requires Stamped(s.device) && Linked(s.device) && Possible(s, es) && (forall e :: e in es ==> FrameFree(e))
    ensures Stamped(Run(s, es).device) && Linked(Run(s, es).device)
    decreases |es|
  {
    if es != [] {
      assert es[0] in es && forall e :: e in es[1..] ==> e in es;
      NextLinks(s, es[0]);
      if Submits(s, es[0]) {
        var taken, h, f, path, kbuf, pooled := NextSubmits(s, es[0]);
        SubmitStamped(s.device, taken, h, f, path, kbuf, pooled);
      } else {
        NextThins(s, es[0]);
        ThinsStamped(s.device, Next(s, es[0]).device);
      }
      StampedRun(Next(s, es[0]), es[1..]);
    }
  }

  lemma RecentUnambiguous(d: Device)
    requires Stamped(d) && Recent(d) && Shaped(d)
    ensures Unambiguous(d)
  {
    forall h, k | h in d.list && k in d.list && h != k
      ensures d.rch[h].commandId != d.rch[k].commandId
    {
      LiveIdsDistinct(d, h, k);
    }
    forall k, h | 0 <= k < |d.card| && h in d.list && d.rch[h].commandId == d.card[k].id
      ensures d.rch[h].serial == d.card[k].serial
    {
      SameIdIff(d.rch[h].serial, d.card[k].serial);
    }
  }

  /** After every run of a fresh device, however long, in which every send succeeds,
      safe or not: the ids tell the handlers apart, and route every response, as long
      as nothing is 128 or more sends old. */
  lemma ResponsesRouted(es: seq<Event>)
    requires Possible(FreshSystem, es) && (forall e :: e in es ==> FrameFree(e))
    ensures Recent(Run(FreshSystem, es).device) ==> RoutesAll(Run(FreshSystem, es).device)
  {
    StampedRun(FreshSystem, es);
    var d := Run(FreshSystem, es).device;
    if Recent(d) {
      RecentUnambiguous(d);
      RoutesIffUnambiguous(d);
    }
  }

  // A failed send.

  lemma {:induction false} FindFirst(rch: seq<Rch>, before: seq<nat>, h: nat, after: seq<nat>, id: nat)
    requires forall i :: 0 <= i < |before| ==> before[i] < |rch| && rch[before[i]].commandId != id
    requires forall i :: 0 <= i < |after| ==> after[i] < |rch|
    requires h < |rch| && rch[h].commandId == id
    ensures var list := before + [h] + after;
            (forall i :: 0 <= i < |list| ==> list[i] < |rch|) && Find(rch, list, id) == Some(h)
  {
    var list := before + [h] + after;
    if before != [] {
      FindFirst(rch, before[1..], h, after, id);
      assert list[1..] == before[1..] + [h] + after;
    }
  }

  lemma PlainSubmitLists(d: Device, path: nat, buffer: nat, frameFree: bool)
    requires Conserved(d) && !d.handlers.Full() && d.lastIdOut == Short(d.sent)
    ensures var (d', h) := PlainSubmit(d, ReadMessage, path, PathKbuf(buffer), false, frameFree);
            && Conserved(d') && h < NHANDLERS && h !in d.list && d'.list == d.list + [h]
            && d'.rch == d.rch[h := d'.rch[h]]
            && d'.rch[h].commandId == MakeId(d.sent + 1) && d'.rch[h].serial == d.sent + 1
            && d'.rch[h].handler.ReadMessage? && d'.rch[h].path == Some(path)
            && d'.rch[h].valid == 0 && d'.rch[h].kbuf == PathKbuf(buffer)
            && (frameFree ==> d'.card == d.card + [Request(MakeId(d.sent + 1), d.sent + 1)])
            && (!frameFree ==> d'.card == d.card && d'.lastIdOut == d.lastIdOut && d'.sent == d.sent)
  {
    PlainSubmitConserves(d, ReadMessage, path, PathKbuf(buffer), false, frameFree);
    AllocNearest(d.handlers);
    ShortKeepsId(d.sent);
    ShortKeepsId(d.sent + 1);
  }

  lemma TwoRequests(d: Device, path: nat, d1: Device, a: nat, d2: Device, b: nat)
    requires Conserved(d) && d.lastIdOut == Short(d.sent) && !d.handlers.Full()
    requires (d1, a) == PlainSubmit(d, ReadMessage, path, PathKbuf(0), false, false)
    requires Shaped(d1) && !d1.handlers.Full()
    requires (d2, b) == PlainSubmit(d1, ReadMessage, path, PathKbuf(1), false, true)
    ensures Shaped(d2) && a < NHANDLERS && b < NHANDLERS && a != b && a !in d.list && b !in d.list
    ensures d2.list == d.list + [a] + [b] && d2.rch == d.rch[a := d2.rch[a]][b := d2.rch[b]]
    ensures d2.card == d.card + [Request(MakeId(d.sent + 1), d.sent + 1)]
    ensures forall h :: h == a || h == b ==>
      && d2.rch[h].commandId == MakeId(d.sent + 1) && d2.rch[h].serial == d.sent + 1
      && d2.rch[h].handler.ReadMessage? && d2.rch[h].path == Some(path)
      && d2.rch[h].valid == 0 && d2.rch[h].kbuf == PathKbuf(if h == a then 0 else 1)
  {
    PlainSubmitLists(d, path, 0, false);
    PlainSubmitLists(d1, path, 1, true);
    assert a in d1.list;
  }

  /** A failed send leaves its handler listed and the id counter where it was, so the next
      request carries the same id, and its response goes to the handler whose own request
      was never sent: with the swinging buffers, the handler of buffer A comes to hold what
      the card says of buffer B, and that of B waits on. */
  lemma FailedSendMisroutes(d: Device, path: nat, d1: Device, a: nat, d2: Device, b: nat, answer: Answer)
    requires Conserved(d) && d.lastIdOut == Short(d.sent)
    requires forall h :: h in d.list ==>
      h < NHANDLERS && d.rch[h].commandId == MakeId(d.rch[h].serial) && 0 <= d.sent - d.rch[h].serial < 0x7f
    requires !d.handlers.Full() && (d1, a) == PlainSubmit(d, ReadMessage, path, PathKbuf(0), false, false)
    requires Shaped(d1) && !d1.handlers.Full()
    requires (d2, b) == PlainSubmit(d1, ReadMessage, path, PathKbuf(1), false, true)
    ensures Shaped(d2) && a != b && a < NHANDLERS && b < NHANDLERS
    ensures d2.card != [] && d2.card[|d2.card| - 1] == Request(MakeId(d.sent + 1), d.sent + 1)
    ensures d2.rch[b].serial == d.sent + 1
    ensures Find(d2.rch, d2.list, MakeId(d.sent + 1)) == Some(a)
    ensures var d3 := Respond(d2, |d2.card| - 1, answer);
            && d3.rch[a] == SetSamples(d2.rch[a], answer) && d3.rch[a].kbuf == PathKbuf(0)
            && d3.rch[b].valid == 0 && d3.rch[b].kbuf == PathKbuf(1)
  {
    TwoRequests(d, path, d1, a, d2, b);
    OlderIdsDiffer(d);
    FindsFirstOfTwo(d.rch, d2.rch, d.list, a, b, MakeId(d.sent + 1));
    AnswerTaken(d2, |d2.card| - 1, a, answer);
  }

  /** A read's handler that a response finds takes the answer; no other changes. */
  lemma AnswerTaken(d: Device, k: nat, h: nat, answer: Answer)
    requires Shaped(d) && k < |d.card| && Find(d.rch, d.list, d.card[k].id) == Some(h)
    requires d.rch[h].handler.ReadMessage? && d.rch[h].path.Some?
    ensures Respond(d, k, answer).rch == d.rch[h := SetSamples(d.rch[h], answer)]
  {
  }

  lemma OlderIdsDiffer(d: Device)
    requires forall h :: h in d.list ==>
      h < |d.rch| && d.rch[h].commandId == MakeId(d.rch[h].serial) && 0 <= d.sent - d.rch[h].serial < 0x7f
    ensures forall h :: h in d.list ==> d.rch[h].commandId != MakeId(d.sent + 1)
  {
    forall h | h in d.list ensures d.rch[h].commandId != MakeId(d.sent + 1) {
      SameIdIff(d.rch[h].serial, d.sent + 1);
    }
  }

  lemma FindsFirstOfTwo(rch: seq<Rch>, rch': seq<Rch>, list: seq<nat>, a: nat, b: nat, id: nat)
    requires |rch'| == |rch| && a < |rch| && b < |rch| && a !in list && b !in list
    requires forall h :: h in list ==> h < |rch| && rch[h].commandId != id
    requires forall h: nat :: h < |rch| && h != a && h != b ==> rch'[h] == rch[h]
    requires rch'[a].commandId == id
    ensures forall i :: 0 <= i < |list + [a] + [b]| ==> (list + [a] + [b])[i] < |rch'|
    ensures Find(rch', list + [a] + [b], id) == Some(a)
  {
    forall i | 0 <= i < |list| ensures list[i] < |rch'| && rch'[list[i]].commandId != id {
      assert list[i] in list;
    }
    FindFirst(rch', list, a, [b], id);
  }
}
