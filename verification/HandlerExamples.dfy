/** Runs in which the handlers' bookkeeping breaks, one for each way in which that can
    happen. */
module HandlerExamples {
  import opened Ids
  import opened Options
  import opened Pool
  import opened Handlers
  import opened HandlerBalance
  import opened HandlerRuns
  import opened HandlerLinks
  import opened HandlerOwners

  ghost predicate Reached(s: System) {
    exists es :: Possible(FreshSystem, es) && Run(FreshSystem, es) == s
  }

  lemma {:induction false} RunSnoc(s: System, es: seq<Event>, e: Event)
    requires Possible(s, es) && Enabled(Run(s, es), e)
    ensures Possible(s, es + [e]) && Run(s, es + [e]) == Next(Run(s, es), e)
    decreases |es|
  {
    if es == [] {
      assert ([] + [e])[1..] == [];
    } else {
      assert (es + [e])[1..] == es[1..] + [e];
      RunSnoc(Next(s, es[0]), es[1..], e);
    }
  }

  lemma ReachedNext(s: System, e: Event)
    requires Reached(s) && Enabled(s, e)
    ensures Reached(Next(s, e))
  {
    var es :| Possible(FreshSystem, es) && Run(FreshSystem, es) == s;
    RunSnoc(FreshSystem, es, e);
  }

  lemma FreshReached()
    ensures Reached(FreshSystem) && Conserved(FreshDevice)
  {
    assert Possible(FreshSystem, []) && Run(FreshSystem, []) == FreshSystem;
    FreshConserved();
  }

  // A read answered with an error.

  /** Its handler is unlinked twice. */
  lemma ErrorReadUnlinksTwice() returns (s: System)
    ensures Reached(s) && s.device.unlinkedTwice
  {
    FreshReached();
    var s1, h := ReadReached(FreshSystem, 0);
    var s2 := AnswerReached(s1, h, 0, Error);
    ReachedNext(s2, FinishRead(h));
    FinishUnlinksTwice(s2, h);
    s := Next(s2, FinishRead(h));
  }

  lemma FinishUnlinksTwice(s: System, h: nat)
    requires Conserved(s.device) && Enabled(s, FinishRead(h)) && s.device.rch[h].valid < 0
    ensures Next(s, FinishRead(h)).device.unlinkedTwice
  {
    FinishLinks(s.device, h);
  }

  lemma ReadIdle(d: Device, path: nat)
    requires Idle(d)
    ensures var (d', o) := ReadSubmit(d, path, true);
            && o == Some(Incr(d.handlers.cursor, NHANDLERS)) && Conserved(d') && ReadListed(d', o.value, path)
  {
    AllFree(d);
    AllocNearest(d.mappings);
    ReadConservesIff(d, path, true);
    ShortKeepsId(d.lastIdOut + 1);
  }

  /** A read on an idle device takes the handler after the cursor. */
  lemma ReadReached(s: System, path: nat) returns (s': System, h: nat)
    requires Reached(s) && Idle(s.device) && path !in s.closing
    ensures Reached(s') && Conserved(s'.device)
    ensures h == Incr(s.device.handlers.cursor, NHANDLERS) < NHANDLERS
    ensures s' == s.(device := s'.device, readers := s.readers + {h})
    ensures ReadListed(s'.device, h, path)
  {
    ReachedNext(s, Read(path, true));
    s', h := Next(s, Read(path, true)), Incr(s.device.handlers.cursor, NHANDLERS);
    ReadIdle(s.device, path);
  }

  /** Just a read's handler is listed, and its request at the card. */
  ghost predicate ReadListed(d: Device, h: nat, path: nat) {
    && Shaped(d) && h < NHANDLERS && d.list == [h]
    && d.rch[h].handler.ReadMessage? && d.rch[h].path == Some(path)
    && |d.card| == 1 && d.card[0].id == d.rch[h].commandId
  }

  lemma AnswerReached(s: System, h: nat, path: nat, a: Answer) returns (s': System)
    requires Reached(s) && Conserved(s.device) && h in s.readers && ReadListed(s.device, h, path)
    ensures Reached(s') && s' == s.(device := s'.device) && Conserved(s'.device)
    ensures s'.device.list == s.device.list
    ensures s'.device.rch == s.device.rch[h := SetSamples(s.device.rch[h], a)]
  {
    ReachedNext(s, CardAnswers(0, a));
    s' := Next(s, CardAnswers(0, a));
    RespondConserves(s.device, 0, a);
    assert Find(s.device.rch, [h], s.device.card[0].id) == Some(h);
  }

  // A write of nothing.

  /** It keeps the handler and the mapping it took, and lists neither. */
  lemma EmptyWriteLeaks() returns (s: System)
    ensures Reached(s) && Shaped(s.device) && s.device.list == []
    ensures s.device.handlers.reserved[1] && s.device.mappings.reserved[1]
  {
    FreshReached();
    AllocNearest(FreshDevice.handlers);
    AllocNearest(FreshDevice.mappings);
    ReachedNext(FreshSystem, Write(0, 0, true));
    s := Next(FreshSystem, Write(0, 0, true));
  }

  // Writes that are answered.

  /** Nothing is listed or outstanding. */
  ghost predicate Idle(d: Device) {
    Conserved(d) && d.list == [] && d.card == []
  }

  ghost predicate Stale(r: Rch) {
    r.built && r.pooled && r.kbuf.PoolKbuf?
  }

  lemma AllFree(d: Device)
    requires Idle(d)
    ensures forall h: nat :: h < NHANDLERS ==> !d.handlers.reserved[h]
    ensures forall m: nat :: m < MSG_MAPPING ==> !d.mappings.reserved[m]
    ensures Alloc(d.handlers).1 == Some(Incr(d.handlers.cursor, NHANDLERS))
  {
    AllocNearest(d.handlers);
    assert !d.handlers.reserved[Incr(d.handlers.cursor, NHANDLERS)];
    assert forall h, m: nat :: !Holds(d.rch, d.list, h, m);
  }

  lemma WriteListed(d: Device)
    requires Idle(d)
    ensures var d1, h := WriteSubmit(d, 1, 1, true), Incr(d.handlers.cursor, NHANDLERS);
            && Conserved(d1) && d1.list == [h] && d1.handlers.cursor == h
            && d1.rch == d.rch[h := d1.rch[h]] && Stale(d1.rch[h]) && d1.rch[h].handler.RecycleOnly?
            && |d1.card| == 1 && d1.card[0].id == d1.rch[h].commandId
  {
    AllFree(d);
    AllocNearest(d.handlers);
    AllocNearest(d.mappings);
    WriteConservesIff(d, 1, 1, true);
    ShortKeepsId(d.lastIdOut + 1);
  }

  lemma WriteAnswered(d1: Device, h: nat)
    requires Conserved(d1) && d1.list == [h] && h < NHANDLERS && d1.rch[h].handler.RecycleOnly?
    requires |d1.card| == 1 && d1.card[0].id == d1.rch[h].commandId
    ensures var d2 := Respond(d1, 0, Data(0, 0));
            && Idle(d2) && d2.handlers.cursor == d1.handlers.cursor
            && d2.rch == d1.rch[h := d2.rch[h]]
            && d2.rch[h] == d1.rch[h].(path := None, handler := Cleared)
  {
    assert Find(d1.rch, [h], d1.card[0].id) == Some(h);
    RespondConserves(d1, 0, Data(0, 0));
    assert Without([h], h) == [];
  }

  /** The handler `i` steps back from the cursor. */
  function Back(cursor: nat, i: nat): nat
    requires cursor < NHANDLERS && i < NHANDLERS
  {
    if cursor >= i then cursor - i else cursor - i + NHANDLERS
  }

  /** The handler `n` steps ahead of the cursor. */
  function Ahead(cursor: nat, n: nat): nat
    requires cursor < NHANDLERS && n <= NHANDLERS
  {
    if cursor + n < NHANDLERS then cursor + n else cursor + n - NHANDLERS
  }

  /** The device of `s0` has since done `n` writes, each answered before the next, and is
      idle; their handlers are free but stale. */
  ghost predicate Wrote(s0: System, d: Device, n: nat) {
    && Reached(s0.(device := d)) && Idle(d) && n <= NHANDLERS
    && s0.device.handlers.cursor < NHANDLERS
    && d.handlers.cursor == Ahead(s0.device.handlers.cursor, n)
    && forall i: nat :: i < n ==> Stale(d.rch[Back(d.handlers.cursor, i)])
  }

  lemma StaleStep(d: Device, d2: Device, n: nat)
    requires |d.rch| == NHANDLERS == |d2.rch| && d.handlers.cursor < NHANDLERS && n < NHANDLERS
    requires d2.handlers.cursor == Incr(d.handlers.cursor, NHANDLERS)
    requires forall i: nat :: i < n ==> Stale(d.rch[Back(d.handlers.cursor, i)])
    requires Stale(d2.rch[d2.handlers.cursor])
    requires forall h: nat :: h < NHANDLERS && h != d2.handlers.cursor ==> d2.rch[h] == d.rch[h]
    ensures forall i: nat :: i < n + 1 ==> Stale(d2.rch[Back(d2.handlers.cursor, i)])
  {
    forall i: nat | i < n + 1 ensures Stale(d2.rch[Back(d2.handlers.cursor, i)]) {
      if i > 0 {
        assert Back(d2.handlers.cursor, i) == Back(d.handlers.cursor, i - 1);
      }
    }
  }

  lemma WriteReached(s: System) returns (s1: System, h: nat)
    requires Reached(s) && Idle(s.device) && 1 !in s.closing
    ensures Reached(s1) && s1 == s.(device := s1.device)
    ensures var d, d1 := s.device, s1.device;
            && h == Incr(d.handlers.cursor, NHANDLERS) && h < NHANDLERS
            && Conserved(d1) && d1.list == [h] && d1.handlers.cursor == h
            && d1.rch == d.rch[h := d1.rch[h]] && Stale(d1.rch[h]) && d1.rch[h].handler.RecycleOnly?
            && |d1.card| == 1 && d1.card[0].id == d1.rch[h].commandId
  {
    WriteListed(s.device);
    ReachedNext(s, Write(1, 1, true));
    s1, h := Next(s, Write(1, 1, true)), Incr(s.device.handlers.cursor, NHANDLERS);
  }

  lemma WriteAnswerReached(s1: System, h: nat) returns (s2: System)
    requires Reached(s1) && Conserved(s1.device) && s1.device.list == [h] && h < NHANDLERS
    requires s1.device.rch[h].handler.RecycleOnly?
    requires |s1.device.card| == 1 && s1.device.card[0].id == s1.device.rch[h].commandId
    ensures Reached(s2) && s2 == s1.(device := s2.device)
    ensures var d1, d2 := s1.device, s2.device;
            && Idle(d2) && d2.handlers.cursor == d1.handlers.cursor
            && d2.rch == d1.rch[h := d2.rch[h]]
            && d2.rch[h] == d1.rch[h].(path := None, handler := Cleared)
  {
    WriteAnswered(s1.device, h);
    ReachedNext(s1, CardAnswers(0, Data(0, 0)));
    s2 := Next(s1, CardAnswers(0, Data(0, 0)));
  }

  lemma WriteMore(s0: System, d: Device, n: nat) returns (d2: Device)
    requires Wrote(s0, d, n) && n < NHANDLERS && 1 !in s0.closing
    ensures Wrote(s0, d2, n + 1)
  {
    var s1, h := WriteReached(s0.(device := d));
    var s2 := WriteAnswerReached(s1, h);
    d2 := s2.device;
    assert s2 == s0.(device := d2);
    StaleStep(d, d2, n);
  }

  lemma {:induction false} WriteMany(s0: System, n: nat) returns (d: Device)
    requires Reached(s0) && Idle(s0.device) && n <= NHANDLERS && 1 !in s0.closing
    ensures Wrote(s0, d, n)
  {
    if n == 0 {
      d := s0.device;
      assert s0.(device := d) == s0;
    } else {
      var d1 := WriteMany(s0, n - 1);
      d := WriteMore(s0, d1, n - 1);
    }
  }

  // A release whose handler another request takes.

  lemma ReleaseReached() returns (s: System)
    ensures Reached(s) && s == FreshSystem.(device := s.device, waiting := map[0 := 1], closing := {0})
    ensures Conserved(s.device) && s.device.handlers.cursor == 1 && s.device.list == [1]
    ensures s.device.rch[1].handler.LastMessage? && |s.device.card| == 1
    ensures s.device.card[0].id == s.device.rch[1].commandId
  {
    FreshReached();
    AllocNearest(FreshDevice.handlers);
    PlainSubmitConserves(FreshDevice, LastMessage, 0, NoKbuf, true, true);
    ReachedNext(FreshSystem, Release(0, true));
    s := Next(FreshSystem, Release(0, true));
  }

  lemma ReleaseAnswered() returns (s: System)
    ensures Reached(s) && s == FreshSystem.(device := s.device, waiting := map[0 := 1], closing := {0})
    ensures Idle(s.device) && s.device.handlers.cursor == 1
  {
    var s1 := ReleaseReached();
    ReachedNext(s1, CardAnswers(0, Data(0, 0)));
    s := Next(s1, CardAnswers(0, Data(0, 0)));
    RespondConserves(s1.device, 0, Data(0, 0));
    assert Find(s1.device.rch, [1], s1.device.card[0].id) == Some(1);
    assert Without([1], 1) == [];
  }

  /** A release's message is answered, and its handler free again, but the releasing process
      has not yet gone on. Fifteen writes later a read gets that handler, and its response.
      Then the release goes on and takes it away: the read's handler is off the list and
      free, though its reader has yet to collect the data. */
  lemma SecondRecycleSteals() returns (s: System, h: nat)
    ensures Reached(s) && Enabled(s, EndWait(0)) && h in s.readers && Owned(s)
    ensures var s' := Next(s, EndWait(0));
            && h in s'.readers && h < NHANDLERS && Shaped(s'.device)
            && h !in s'.device.list && !s'.device.handlers.reserved[h] && !Owned(s')
  {
    var s0 := ReleaseAnswered();
    var d := WriteMany(s0, 15);
    var s1;
    s1, h := ReadReached(s0.(device := d), 2);
    s := AnswerReached(s1, h, 2, Data(0, 512));
    assert s == s0.(device := s.device, readers := {h});
    ReadOwned(s, h);
    Stolen(s, h);
  }

  lemma ReadOwned(s: System, h: nat)
    requires Shaped(s.device) && s.readers == {h} && s.swinging == {} && s.closing == {0}
    requires h < NHANDLERS && s.device.list == [h]
    requires s.device.rch[h].handler.ReadMessage? && s.device.rch[h].path == Some(2)
    ensures Owned(s)
  {
  }

  lemma Stolen(s: System, h: nat)
    requires Conserved(s.device) && 0 in s.waiting && s.waiting[0] == h && h in s.readers
    requires h < NHANDLERS && h in s.device.list && s.device.rch[h].valid == 1
    ensures Enabled(s, EndWait(0))
    ensures var s' := Next(s, EndWait(0));
            && h in s'.readers && Shaped(s'.device)
            && h !in s'.device.list && !s'.device.handlers.reserved[h] && !Owned(s')
  {
    RecycleConserves(s.device, h);
  }

  // Writes that are not answered.

  /** The device has come from `d0`, all of whose handlers were free, by writes that hold
      exactly these handlers and mappings and that the card has yet to answer. */
  ghost predicate Holding(d0: Device, d: Device, hs: seq<nat>, ms: seq<nat>) {
    && Conserved(d) && |hs| == |ms| && |d0.rch| == NHANDLERS
    && (forall h: nat :: h < NHANDLERS ==> (d.handlers.reserved[h] <==> h in hs))
    && (forall h: nat :: h < NHANDLERS && h !in hs ==> d.rch[h] == d0.rch[h])
    && (forall m: nat :: m < MSG_MAPPING ==> (d.mappings.reserved[m] <==> m in ms))
    && (forall h :: h in d.list ==> Request(d.rch[h].commandId, d.rch[h].serial) in d.card)
    && d.faulted == d0.faulted
  }

  lemma FourthMissing(s: seq<nat>, n: nat)
    requires |s| < n <= 4
    ensures exists x: nat :: x < n && x !in s
  {
    if |s| == 0 {
      assert 0 !in s;
    } else if |s| == 1 {
      assert 0 !in s || 1 !in s;
    } else if |s| == 2 {
      assert s == [s[0], s[1]];
      assert 0 !in s || 1 !in s || 2 !in s;
    } else {
      assert s == [s[0], s[1], s[2]];
      assert 0 !in s || 1 !in s || 2 !in s || 3 !in s;
    }
  }

  lemma SomeFree(d0: Device, d: Device, hs: seq<nat>, ms: seq<nat>)
    requires Holding(d0, d, hs, ms) && |hs| <= 3
    ensures !d.handlers.Full() && (|ms| < 3 ==> !d.mappings.Full())
  {
    FourthMissing(hs, 4);
    var x: nat :| x < 4 && x !in hs;
    assert !d.handlers.reserved[x];
    if |ms| < 3 {
      FourthMissing(ms, 3);
      var y: nat :| y < 3 && y !in ms;
      assert !d.mappings.reserved[y];
    }
  }

  lemma PendingDevice(d0: Device, d: Device, hs: seq<nat>, ms: seq<nat>) returns (h: nat, m: nat)
    requires Holding(d0, d, hs, ms) && |hs| < 3
    ensures m < MSG_MAPPING && m !in ms && Holding(d0, WriteSubmit(d, 1, 1, true), hs + [h], ms + [m])
  {
    SomeFree(d0, d, hs, ms);
    AllocNearest(d.handlers);
    AllocNearest(d.mappings);
    WriteConservesIff(d, 1, 1, true);
    ShortKeepsId(d.lastIdOut + 1);
    h, m := Alloc(d.handlers).1.value, Alloc(d.mappings).1.value;
    assert m != MSG_MAPPING;
    PendingRequests(d, WriteSubmit(d, 1, 1, true), h);
  }

  /** One more write, not answered. */
  lemma PendingWrite(d0: Device, s: System, hs: seq<nat>, ms: seq<nat>) returns (s': System, h: nat, m: nat)
    requires Reached(s) && 1 !in s.closing && Holding(d0, s.device, hs, ms) && |hs| < 3
    ensures Reached(s') && s' == s.(device := s'.device)
    ensures m < MSG_MAPPING && m !in ms && Holding(d0, s'.device, hs + [h], ms + [m])
  {
    h, m := PendingDevice(d0, s.device, hs, ms);
    ReachedNext(s, Write(1, 1, true));
    s' := Next(s, Write(1, 1, true));
  }

  lemma PendingRequests(d: Device, d': Device, h: nat)
    requires Shaped(d) && h < NHANDLERS && h !in d.list && d'.list == d.list + [h]
    requires |d'.rch| == NHANDLERS && d'.rch == d.rch[h := d'.rch[h]]
    requires d'.card == d.card + [Request(d'.rch[h].commandId, d'.rch[h].serial)]
    requires forall x :: x in d.list ==> x < |d.rch| && Request(d.rch[x].commandId, d.rch[x].serial) in d.card
    ensures forall x :: x in d'.list ==> x < |d'.rch| && Request(d'.rch[x].commandId, d'.rch[x].serial) in d'.card
  {
    assert Request(d'.rch[h].commandId, d'.rch[h].serial) in d'.card;
    assert forall x :: x in d'.list <==> x in d.list || x == h;
  }

  ghost predicate DistinctMappings(ms: seq<nat>) {
    NoDuplicates(ms) && forall i :: 0 <= i < |ms| ==> ms[i] < MSG_MAPPING
  }

  lemma {:induction false} PendingWrites(s: System, n: nat) returns (s': System, hs: seq<nat>, ms: seq<nat>)
    requires Reached(s) && 1 !in s.closing && Idle(s.device) && n <= 3
    ensures Reached(s') && s' == s.(device := s'.device)
    ensures |hs| == n && Holding(s.device, s'.device, hs, ms) && DistinctMappings(ms)
    decreases n
  {
    if n == 0 {
      AllFree(s.device);
      s', hs, ms := s, [], [];
    } else {
      var s1, hs1, ms1 := PendingWrites(s, n - 1);
      var h, m;
      s', h, m := PendingWrite(s.device, s1, hs1, ms1);
      hs, ms := hs1 + [h], ms1 + [m];
    }
  }

  lemma ThreeAreAll(d: Device, ms: seq<nat>)
    requires Conserved(d) && |ms| == 3 && DistinctMappings(ms)
    requires forall m: nat :: m < MSG_MAPPING ==> (d.mappings.reserved[m] <==> m in ms)
    ensures d.mappings.Full()
  {
    forall m: nat | m < NMAPPINGS ensures d.mappings.reserved[m] {
      assert m == MSG_MAPPING || m == ms[0] || m == ms[1] || m == ms[2];
    }
  }

  lemma NextStale(d0: Device, d: Device, hs: seq<nat>, ms: seq<nat>)
    requires Holding(d0, d, hs, ms) && |hs| == 3
    requires forall h: nat :: h < NHANDLERS ==> Stale(d0.rch[h])
    ensures NextIsStale(d)
  {
    SomeFree(d0, d, hs, ms);
    AllocNearest(d.handlers);
  }

  lemma AllStale(s0: System, d: Device)
    requires Wrote(s0, d, NHANDLERS)
    ensures forall h: nat :: h < NHANDLERS ==> Stale(d.rch[h])
  {
    forall h: nat | h < NHANDLERS ensures Stale(d.rch[h]) {
      assert Back(d.handlers.cursor, Back(d.handlers.cursor, h)) == h;
    }
  }

  // A refused read whose handler was never built.

  lemma NextUnbuilt(d0: Device, d: Device, hs: seq<nat>, ms: seq<nat>)
    requires Holding(d0, d, hs, ms) && |hs| == 3
    requires forall h: nat :: h < NHANDLERS ==> !d0.rch[h].built
    ensures NextIsUnbuilt(d) && !d.handlers.Full()
  {
    SomeFree(d0, d, hs, ms);
    AllocNearest(d.handlers);
  }

  /** On a fresh device three writes that the card has yet to answer hold all the mappings; a
      read, refused for want of a mapping, then follows a null pointer, and its handler stays
      reserved, off the list. */
  lemma RefusedFirstUseFaults() returns (s: System, h: nat)
    ensures Reached(s) && Enabled(s, Read(2, true)) && Agree(s.device) && !s.device.faulted
    ensures var d' := Next(s, Read(2, true)).device;
            && d'.faulted && Shaped(d') && h < NHANDLERS && d'.handlers.reserved[h] && h !in d'.list && !Agree(d')
  {
    FreshReached();
    var hs, ms;
    s, hs, ms := PendingWrites(FreshSystem, 3);
    ThreeAreAll(s.device, ms);
    NextUnbuilt(FreshDevice, s.device, hs, ms);
    RefusedConservesIff(s.device);
    AllocNearest(s.device.handlers);
    AllocNearest(s.device.mappings);
    h := Alloc(s.device.handlers).1.value;
  }

  // A refused read that frees a mapping in use.

  /** After 16 answered writes, three that the card has yet to answer hold all the mappings;
      a read, refused for want of a mapping, then frees mapping `m` of handler `k`, whose
      request is still at the card. */
  lemma RefusedReadFreesMappingInUse() returns (s: System, k: nat, m: nat)
    ensures Reached(s) && Enabled(s, Read(2, true)) && m < NMAPPINGS && s.device.mappings.reserved[m]
    ensures Holds(s.device.rch, s.device.list, k, m)
    ensures Request(s.device.rch[k].commandId, s.device.rch[k].serial) in s.device.card
    ensures var d' := Next(s, Read(2, true)).device;
            |d'.mappings.reserved| == NMAPPINGS && !d'.mappings.reserved[m]
            && Holds(d'.rch, d'.list, k, m) && d'.card == s.device.card
  {
    FreshReached();
    var d := WriteMany(FreshSystem, NHANDLERS);
    AllStale(FreshSystem, d);
    var hs, ms;
    s, hs, ms := PendingWrites(FreshSystem.(device := d), 3);
    ThreeAreAll(s.device, ms);
    NextStale(d, s.device, hs, ms);
    k, m := RefusalFrees(s.device);
    AllocNearest(s.device.mappings);
  }

  lemma RefusalFrees(d: Device) returns (k: nat, m: nat)
    requires Conserved(d) && d.mappings.Full() && NextIsStale(d)
    ensures var d' := Recycle(d.(handlers := Alloc(d.handlers).0), Alloc(d.handlers).1.value);
            && m < NMAPPINGS == |d'.mappings.reserved| && !d'.mappings.reserved[m]
            && d'.rch == d.rch && d'.list == d.list && d'.card == d.card
            && Holds(d'.rch, d'.list, k, m)
  {
    RefusedConservesIff(d);
    AllocNearest(d.handlers);
    var (handlers, h) := Alloc(d.handlers);
    var d' := Recycle(d.(handlers := handlers), h.value);
    m := d.rch[h.value].kbuf.mapping;
    k :| Holds(d'.rch, d'.list, k, m);
  }
}
