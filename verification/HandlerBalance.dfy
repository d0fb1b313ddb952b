/** The bookkeeping the handler operations keep: what is reserved in the two pools is
    what the listed handlers account for. */
module HandlerBalance {
  import opened Options
  import opened Pool
  import opened Handlers

  /** A listed handler answers for a mapping of the pool. */
  ghost predicate Holds(rch: seq<Rch>, list: seq<nat>, h: nat, m: nat) {
    h < |rch| && h in list && rch[h].pooled && rch[h].kbuf == PoolKbuf(m)
  }

  /** The listed handlers hold every reserved mapping but the message mapping, and
      only reserved ones; no two hold the same one. */
  ghost predicate HoldingsMatch(mres: seq<bool>, rch: seq<Rch>, list: seq<nat>) {
    && |mres| == NMAPPINGS && mres[MSG_MAPPING]
    && (forall h: nat, m: nat :: Holds(rch, list, h, m) ==> m < MSG_MAPPING && mres[m])
    && (forall h, k, m: nat :: Holds(rch, list, h, m) && Holds(rch, list, k, m) ==> h == k)
    && (forall m: nat :: m < MSG_MAPPING && mres[m] ==> exists h :: Holds(rch, list, h, m))
  }

  /** The reserved handlers are exactly those listed, once each, and exactly those
      with a path; each reserved mapping but the message mapping is the buffer of
      exactly one listed handler. */
  ghost predicate Balanced(hres: seq<bool>, mres: seq<bool>, rch: seq<Rch>, list: seq<nat>) {
    && |hres| == |rch|
    && NoDuplicates(list)
    && (forall h :: h in list ==> h < |rch|)
    && (forall h: nat :: h < |rch| ==> (hres[h] <==> h in list))
    && (forall h: nat :: h < |rch| ==> (rch[h].path.Some? <==> h in list))
    && HoldingsMatch(mres, rch, list)
  }

  lemma {:induction false} WithoutMembers(list: seq<nat>, h: nat)
    requires NoDuplicates(list)
    ensures NoDuplicates(Without(list, h))
    ensures forall x :: x in Without(list, h) <==> x in list && x != h
  {
    if list != [] {
      assert forall x :: x in list <==> x == list[0] || x in list[1..];
      if list[0] == h {
        assert h !in list[1..];
      } else {
        WithoutMembers(list[1..], h);
        assert list[0] !in list[1..];
      }
    }
  }

  lemma RecycleHoldings(mres: seq<bool>, rch: seq<Rch>, list: seq<nat>, list': seq<nat>, h: nat, r: Rch)
    requires HoldingsMatch(mres, rch, list) && h in list && h < |rch|
    requires forall x :: x in list' <==> x in list && x != h
    requires r.kbuf == rch[h].kbuf && r.pooled == rch[h].pooled
    ensures HoldingsMatch(FreeKbuf(mres, r), rch[h := r], list')
  {
    var rch' := rch[h := r];
    assert forall k: nat, m: nat :: Holds(rch', list', k, m) <==> Holds(rch, list, k, m) && k != h;
    if r.pooled && r.kbuf.PoolKbuf? {
      assert Holds(rch, list, h, r.kbuf.mapping);
    }
    var mres' := FreeKbuf(mres, r);
    forall m: nat | m < MSG_MAPPING && mres'[m]
      ensures exists k :: Holds(rch', list', k, m)
    {
      var k :| Holds(rch, list, k, m);
      assert Holds(rch', list', k, m);
    }
  }

  lemma BalancedRecycle(hres: seq<bool>, mres: seq<bool>, rch: seq<Rch>, list: seq<nat>, h: nat)
    requires Balanced(hres, mres, rch, list) && h in list
    ensures var r := rch[h].(path := None, handler := Cleared);
            Balanced(hres[h := false], FreeKbuf(mres, r), rch[h := r], Without(list, h))
  {
    WithoutMembers(list, h);
    RecycleHoldings(mres, rch, list, Without(list, h), h, rch[h].(path := None, handler := Cleared));
  }

  /** Listing a handler just reserved, with a mapping just reserved or none. */
  lemma BalancedAppend(hres: seq<bool>, mres: seq<bool>, rch: seq<Rch>, list: seq<nat>, h: nat, r: Rch)
    requires Balanced(hres, mres, rch, list) && h < |rch| && !hres[h]
    requires r.path.Some? && (r.pooled && r.kbuf.PoolKbuf? ==> r.kbuf.mapping < MSG_MAPPING && !mres[r.kbuf.mapping])
    ensures var mres' := if r.pooled && r.kbuf.PoolKbuf? then mres[r.kbuf.mapping := true] else mres;
            Balanced(hres[h := true], mres', rch[h := r], list + [h])
  {
    var rch', list' := rch[h := r], list + [h];
    assert forall x :: x in list' <==> x in list || x == h;
    forall k: nat, m: nat
      ensures Holds(rch', list', k, m) <==> if k == h then r.pooled && r.kbuf == PoolKbuf(m) else Holds(rch, list, k, m)
    {
    }
    var mres' := if r.pooled && r.kbuf.PoolKbuf? then mres[r.kbuf.mapping := true] else mres;
    forall m: nat | m < MSG_MAPPING && mres'[m]
      ensures exists k :: Holds(rch', list', k, m)
    {
      if mres[m] {
        var k :| Holds(rch, list, k, m);
        assert Holds(rch', list', k, m);
      } else {
        assert Holds(rch', list', h, m);
      }
    }
  }

  /** Changing what the pools do not depend on. */
  lemma BalancedUpdate(hres: seq<bool>, mres: seq<bool>, rch: seq<Rch>, list: seq<nat>, h: nat, r: Rch)
    requires Balanced(hres, mres, rch, list) && h < |rch|
    requires r.path.Some? == rch[h].path.Some? && r.kbuf == rch[h].kbuf && r.pooled == rch[h].pooled
    ensures Balanced(hres, mres, rch[h := r], list)
  {
    var rch' := rch[h := r];
    assert forall k: nat, m: nat :: Holds(rch', list, k, m) <==> Holds(rch, list, k, m);
    forall m: nat | m < MSG_MAPPING && mres[m]
      ensures exists k :: Holds(rch', list, k, m)
    {
      var k :| Holds(rch, list, k, m);
      assert Holds(rch', list, k, m);
    }
  }

  /** Pools and list agree. */
  ghost predicate Agree(d: Device) {
    Shaped(d) && Balanced(d.handlers.reserved, d.mappings.reserved, d.rch, d.list)
  }

  /** A handler's last mapping, even when it is off the list, was never the message
      mapping; one never built has neither path nor buffer. */
  ghost predicate Mapped(d: Device)
    requires Shaped(d)
  {
    forall h: nat :: h < NHANDLERS ==>
      && (d.rch[h].kbuf.PoolKbuf? ==> d.rch[h].kbuf.mapping < MSG_MAPPING)
      && (!d.rch[h].built ==> d.rch[h].path.None? && d.rch[h].kbuf.NoKbuf?)
  }

  ghost predicate Conserved(d: Device) {
    Agree(d) && Mapped(d)
  }

  lemma FreshConserved()
    ensures Conserved(FreshDevice)
  {
  }

  lemma RecycleConserves(d: Device, h: nat)
    requires Conserved(d) && h in d.list
    ensures Conserved(Recycle(d, h))
    ensures forall x :: x in Recycle(d, h).list <==> x in d.list && x != h
  {
    RecycleShaped(d, h);
    BalancedRecycle(d.handlers.reserved, d.mappings.reserved, d.rch, d.list, h);
    WithoutMembers(d.list, h);
  }

  /** The handler still names a mapping of the pool that is reserved. */
  ghost predicate NamesReserved(d: Device, h: nat)
    requires Shaped(d) && h < NHANDLERS
  {
    && d.rch[h].pooled && d.rch[h].kbuf.PoolKbuf?
    && d.rch[h].kbuf.mapping < NMAPPINGS && d.mappings.reserved[d.rch[h].kbuf.mapping]
  }

  /** Recycling the handler frees nothing that others hold. */
  ghost predicate Harmless(d: Device, h: nat)
    requires Shaped(d) && h < NHANDLERS
  {
    h in d.list || !NamesReserved(d, h)
  }

  /** Recycling keeps pools and list in agreement if and only if the handler is listed or
      names no reserved mapping; one that is off the list is then left as it is. */
  lemma RecycleConservesIff(d: Device, h: nat)
    requires Conserved(d) && h < NHANDLERS
    ensures Shaped(Recycle(d, h)) && Mapped(Recycle(d, h))
    ensures Agree(Recycle(d, h)) <==> Harmless(d, h)
    ensures h !in d.list && d.rch[h].built ==> (Recycle(d, h) == d <==> Harmless(d, h))
  {
    RecycleShaped(d, h);
    if h in d.list {
      RecycleConserves(d, h);
    } else {
      UnlistedRecycleIff(d, h);
    }
  }

  lemma UnlistedRecycleIff(d: Device, h: nat)
    requires Conserved(d) && h < NHANDLERS && h !in d.list
    ensures Mapped(Recycle(d, h))
    ensures Agree(Recycle(d, h)) <==> !NamesReserved(d, h)
    ensures d.rch[h].built ==> (Recycle(d, h) == d <==> !NamesReserved(d, h))
  {
    var d' := Recycle(d, h);
    assert d'.handlers == d.handlers && d'.rch == d.rch && d'.list == d.list;
    if NamesReserved(d, h) {
      var m := d.rch[h].kbuf.mapping;
      var k :| Holds(d.rch, d.list, k, m);
      assert Holds(d'.rch, d'.list, k, m) && !d'.mappings.reserved[m];
    } else {
      assert d'.mappings.reserved == d.mappings.reserved;
    }
  }

  /** Listing a handler taken from its pool, with the mapping taken for it, if any. */
  lemma SubmitConserves(d: Device, taken: Device, h: nat, f: Function, path: nat, kbuf: Kbuf, pooled: bool,
                        frameFree: bool)
    requires Conserved(d) && h < NHANDLERS && !d.handlers.reserved[h]
    requires taken == d.(handlers := Entries(d.handlers.reserved[h := true], h), mappings := taken.mappings)
    requires kbuf.PoolKbuf? ==>
      pooled && kbuf.mapping < MSG_MAPPING && !d.mappings.reserved[kbuf.mapping]
    requires taken.mappings ==
      if kbuf.PoolKbuf? then Entries(d.mappings.reserved[kbuf.mapping := true], kbuf.mapping) else d.mappings
    ensures Conserved(Submit(taken, h, f, path, kbuf, pooled, frameFree))
  {
    var d' := BuildAndAppend(taken, h, f, path, kbuf, pooled);
    BalancedAppend(d.handlers.reserved, d.mappings.reserved, d.rch, d.list, h, d'.rch[h]);
    assert Conserved(d');
  }

  lemma PlainSubmitConserves(d: Device, f: Function, path: nat, kbuf: Kbuf, pooled: bool, frameFree: bool)
    requires Conserved(d) && !d.handlers.Full() && !kbuf.PoolKbuf?
    ensures Conserved(PlainSubmit(d, f, path, kbuf, pooled, frameFree).0)
  {
    AllocNearest(d.handlers);
    var (handlers, h) := Alloc(d.handlers);
    SubmitConserves(d, d.(handlers := handlers), h.value, f, path, kbuf, pooled, frameFree);
  }

  /** The handler the next request would take was never built. */
  ghost predicate NextIsUnbuilt(d: Device)
    requires Shaped(d)
  {
    match Alloc(d.handlers).1
    case None => false
    case Some(h) => !d.rch[h].built
  }

  /** The handler the next request would take still names the pool mapping of its
      last use. */
  ghost predicate NextIsStale(d: Device)
    requires Shaped(d)
  {
    match Alloc(d.handlers).1
    case None => false
    case Some(h) => d.rch[h].pooled && d.rch[h].kbuf.PoolKbuf?
  }

  /** The handler the next request would take cannot be recycled unused. */
  ghost predicate NextIsUnfit(d: Device)
    requires Shaped(d)
  {
    NextIsUnbuilt(d) || NextIsStale(d)
  }

  /** A read keeps the agreement unless the mappings have run out and the handler it takes
      still names one, which recycling the handler then frees although it is in use, or was
      never built, so that recycling it faults and leaves it reserved. */
  lemma ReadConservesIff(d: Device, path: nat, frameFree: bool)
    requires Conserved(d)
    ensures Shaped(ReadSubmit(d, path, frameFree).0) && Mapped(ReadSubmit(d, path, frameFree).0)
    ensures Agree(ReadSubmit(d, path, frameFree).0) <==> d.mappings.Full() ==> !NextIsUnfit(d)
  {
    AllocNearest(d.handlers);
    AllocNearest(d.mappings);
    var (handlers, h) := Alloc(d.handlers);
    var (mappings, m) := Alloc(d.mappings);
    if h.Some? {
      if m.None? {
        RefusedConservesIff(d);
      } else {
        SubmitConserves(d, d.(handlers := handlers, mappings := mappings), h.value, ReadMessage, path,
                        PoolKbuf(m.value), true, frameFree);
      }
    }
  }

  /** Taking a handler and recycling it at once, when no mapping is left for it: a stale
      one's recycling frees the mapping of a listed handler, one never built stays reserved. */
  lemma RefusedConservesIff(d: Device)
    requires Conserved(d) && d.mappings.Full() && Alloc(d.handlers).1.Some?
    ensures var (handlers, h) := Alloc(d.handlers);
            var d' := Recycle(d.(handlers := handlers), h.value);
            && Shaped(d') && Mapped(d')
            && (Agree(d') <==> !NextIsUnfit(d))
            && (NextIsUnbuilt(d) ==> d'.faulted && d'.handlers.reserved[h.value] && h.value !in d'.list)
            && (NextIsStale(d) ==>
                  var m := d.rch[h.value].kbuf.mapping;
                  m < NMAPPINGS && !d'.mappings.reserved[m] && exists k :: Holds(d'.rch, d'.list, k, m))
  {
    AllocNearest(d.handlers);
    var (handlers, o) := Alloc(d.handlers);
    var h := o.value;
    var d' := Recycle(d.(handlers := handlers), h);
    assert d'.rch == d.rch && d'.list == d.list;
    if NextIsUnbuilt(d) {
      assert d'.handlers.reserved[h] && h !in d'.list;
    } else {
      assert d'.handlers.reserved == d.handlers.reserved;
    }
    if NextIsStale(d) {
      var m := d.rch[h].kbuf.mapping;
      assert d.mappings.reserved[m];
      var k :| Holds(d.rch, d.list, k, m);
      assert Holds(d'.rch, d'.list, k, m) && !d'.mappings.reserved[m];
    }
  }

  /** A write keeps the agreement unless it is refused as above, or has nothing to
      write: then it keeps the handler and mapping it took, listing neither. */
  lemma WriteConservesIff(d: Device, path: nat, count: nat, frameFree: bool)
    requires Conserved(d)
    ensures Shaped(WriteSubmit(d, path, count, frameFree)) && Mapped(WriteSubmit(d, path, count, frameFree))
    ensures Agree(WriteSubmit(d, path, count, frameFree)) <==>
      d.handlers.Full() || (if d.mappings.Full() then !NextIsUnfit(d) else count > 0)
  {
    AllocNearest(d.handlers);
    AllocNearest(d.mappings);
    var (handlers, h) := Alloc(d.handlers);
    var (mappings, m) := Alloc(d.mappings);
    if h.Some? {
      if m.None? {
        RefusedConservesIff(d);
      } else if count > 0 {
        SubmitConserves(d, d.(handlers := handlers, mappings := mappings), h.value, RecycleOnly, path,
                        PoolKbuf(m.value), true, frameFree);
      } else {
        assert d.handlers.reserved[h.value] || h.value !in d.list;
      }
    }
  }

  lemma RecycleCleared(d: Device, h: nat)
    requires Shaped(d) && h < NHANDLERS
    ensures var cleared := d.(rch := d.rch[h := d.rch[h].(handler := Cleared)]);
            var d1 := Recycle(d, h);
            h < |d1.rch| && Recycle(cleared, h) == d1.(rch := d1.rch[h := d1.rch[h].(handler := Cleared)])
  {
  }

  lemma RecycleUnlinked(d: Device, h: nat)
    requires Shaped(d) && NoDuplicates(d.list) && h < NHANDLERS && (d.rch[h].path.Some? <==> h in d.list)
    ensures Recycle(Unlink(d, h), h) == Recycle(d, h).(unlinkedTwice := true)
  {
    WithoutMembers(d.list, h);
  }

  /** What finishing a read whose wait brought an error comes to: the handler recycled and,
      in case of an error, unlinked twice. */
  lemma ErrorFinishRecycles(d: Device, h: nat)
    requires Shaped(d) && NoDuplicates(d.list) && h < NHANDLERS
    requires (d.rch[h].path.Some? <==> h in d.list) && d.rch[h].valid != 0 && d.rch[h].valid != 1
    ensures var d1 := Recycle(d, h);
            && h < |d1.rch| && d1.unlinkedTwice == d.unlinkedTwice
            && ReadFinish(d, h) == d1.(rch := d1.rch[h := d1.rch[h].(handler := Cleared)],
                                       unlinkedTwice := d.unlinkedTwice || d.rch[h].valid < 0)
  {
    if d.rch[h].valid < 0 {
      UnlinkShaped(d, h);
      RecycleUnlinked(d, h);
      RecycleCleared(Unlink(d, h), h);
    } else {
      RecycleCleared(d, h);
    }
  }

  /** Finishing a read keeps the agreement if and only if it was interrupted or its
      handler's recycling is harmless: an error makes no difference to the pools. */
  lemma ReadFinishConservesIff(d: Device, h: nat)
    requires Conserved(d) && h < NHANDLERS
    ensures Shaped(ReadFinish(d, h)) && Mapped(ReadFinish(d, h))
    ensures Agree(ReadFinish(d, h)) <==> (d.rch[h].valid != 0 ==> Harmless(d, h))
  {
    RecycleConservesIff(d, h);
    if d.rch[h].valid == 0 {
      BalancedUpdate(d.handlers.reserved, d.mappings.reserved, d.rch, d.list, h, d.rch[h].(handler := Cleared));
    } else if d.rch[h].valid != 1 {
      ErrorFinishRecycles(d, h);
      AgreeUpdate(Recycle(d, h), h, Cleared, ReadFinish(d, h).unlinkedTwice);
    }
  }

  lemma AgreeUpdate(d: Device, h: nat, f: Function, twice: bool)
    requires Shaped(d) && h < NHANDLERS
    ensures Agree(d) <==> Agree(d.(rch := d.rch[h := d.rch[h].(handler := f)], unlinkedTwice := twice))
  {
    var d' := d.(rch := d.rch[h := d.rch[h].(handler := f)], unlinkedTwice := twice);
    if Agree(d) {
      BalancedUpdate(d.handlers.reserved, d.mappings.reserved, d.rch, d.list, h, d'.rch[h]);
    }
    if Agree(d') {
      BalancedUpdate(d.handlers.reserved, d.mappings.reserved, d'.rch, d.list, h, d.rch[h]);
      assert d'.rch[h := d.rch[h]] == d.rch;
    }
  }

  /** Running a listed handler keeps the agreement, whatever the answer. */
  lemma HandleConserves(d: Device, h: nat, a: Answer)
    requires Conserved(d) && h in d.list
    ensures Conserved(Handle(d, h, a))
    ensures var list' := Handle(d, h, a).list;
            forall x :: x in list' <==> x in d.list && (x == h ==> d.rch[h].handler.ReadMessage?)
  {
    match d.rch[h].handler
    case Cleared => RecycleConserves(d, h);
    case ReadMessage =>
      BalancedUpdate(d.handlers.reserved, d.mappings.reserved, d.rch, d.list, h, SetSamples(d.rch[h], a));
    case RecycleOnly => RecycleConserves(d, h);
    case LastMessage =>
      var d1 := d.(rch := d.rch[h := d.rch[h].(valid := 1)]);
      BalancedUpdate(d.handlers.reserved, d.mappings.reserved, d.rch, d.list, h, d1.rch[h]);
      RecycleConserves(d1, h);
  }

  lemma RespondConserves(d: Device, k: nat, a: Answer)
    requires Conserved(d) && k < |d.card|
    ensures Conserved(Respond(d, k, a))
  {
    var d1 := d.(card := d.card[..k] + d.card[k + 1..]);
    var found := Find(d1.rch, d1.list, d.card[k].id);
    if found.Some? {
      HandleConserves(d1, found.value, a);
    }
  }
}
