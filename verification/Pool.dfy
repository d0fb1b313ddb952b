/** The round-robin allocator behind the handler and mapping pools
    (acq200_bigbuf_alloc.c). */
module Pool {
  import opened Options

  const NHANDLERS: nat := 16
  const NMAPPINGS: nat := 4

  /** The mapping reserved for messages when the pool is created. */
  const MSG_MAPPING: nat := NMAPPINGS - 1

  /** Which entries are handed out, and which was handed out last. */
  datatype Entries = Entries(reserved: seq<bool>, cursor: nat) {
    ghost predicate Ok() {
      cursor < |reserved|
    }

    ghost predicate Full() {
      forall i :: 0 <= i < |reserved| ==> reserved[i]
    }
  }

  function Incr(i: nat, n: nat): nat {
    if i >= n - 1 then 0 else i + 1
  }

  /** The number of steps, from 1 to `n`, that lead from `from` round to `to`. */
  function Distance(from: nat, to: nat, n: nat): int
    requires from < n && to < n
  {
    if to > from then to - from else to - from + n
  }

  /** The first free entry met in at most `probes` steps starting at `i`. */
  function Scan(reserved: seq<bool>, i: nat, probes: nat): Option<nat>
    requires i < |reserved|
    decreases probes
  {
    if probes == 0 then None
    else if !reserved[i] then Some(i)
    else Scan(reserved, Incr(i, |reserved|), probes - 1)
  }

  /** `_alloc` when it does not sleep, or sleeps and times out. */
  function Alloc(p: Entries): (r: (Entries, Option<nat>))
    requires p.Ok()
    ensures r.1.Some? ==> r.1.value < |p.reserved|
    ensures r.0.Ok() && |r.0.reserved| == |p.reserved|
  {
    var n := |p.reserved|;
    var found := Scan(p.reserved, Incr(p.cursor, n), n);
    ScanFinds(p.reserved, p.cursor, Incr(p.cursor, n), n);
    match found
    case None => (p, None)
    case Some(i) => (Entries(p.reserved[i := true], i), found)
  }

  function Free(p: Entries, i: nat): Entries
    requires i < |p.reserved|
  {
    p.(reserved := p.reserved[i := false])
  }

  /** A scan of so many steps finds the first free entry within them, if there is one. */
  lemma {:induction false} ScanFinds(reserved: seq<bool>, from: nat, i: nat, probes: nat)
    requires from < |reserved| && i < |reserved|
    requires Distance(from, i, |reserved|) + probes <= |reserved| + 1
    requires forall j :: 0 <= j < |reserved| && Distance(from, j, |reserved|) < Distance(from, i, |reserved|) ==>
      reserved[j]
    ensures var n, last := |reserved|, Distance(from, i, |reserved|) + probes;
            match Scan(reserved, i, probes)
            case None => forall j :: 0 <= j < n && Distance(from, j, n) < last ==> reserved[j]
            case Some(k) =>
              && k < n && !reserved[k] && Distance(from, k, n) < last
              && forall j :: 0 <= j < n && !reserved[j] ==> Distance(from, k, n) <= Distance(from, j, n)
    decreases probes
  {
    if probes > 0 && reserved[i] && probes > 1 {
      ScanFinds(reserved, from, Incr(i, |reserved|), probes - 1);
    }
  }

  /** The allocator fails exactly when everything is reserved, changing nothing;
      otherwise it hands out the free entry nearest after the cursor. */
  lemma AllocNearest(p: Entries)
    requires p.Ok()
    ensures var (p', r) := Alloc(p);
            match r
            case None => p.Full() && p' == p
            case Some(k) =>
              && !p.reserved[k] && p' == Entries(p.reserved[k := true], k)
              && forall j :: 0 <= j < |p.reserved| && !p.reserved[j] ==>
                Distance(p.cursor, k, |p.reserved|) <= Distance(p.cursor, j, |p.reserved|)
  {
    ScanFinds(p.reserved, p.cursor, Incr(p.cursor, |p.reserved|), |p.reserved|);
  }

  // Sleeping allocations.

  /** How a caller asleep on the pool comes back: by timeout, or woken after other callers
      have left the pool in another state. */
  datatype Sleep = TimedOut | Woken(pool: Entries)

  /** How an allocation ends: the pool as the caller last found it, the entry at which its
      last scan began, and the entry found. */
  datatype Outcome = Outcome(seen: Entries, from: nat, found: Option<nat>)

  /** Other callers neither shrink nor extend the pool. */
  ghost predicate Sized(sleeps: seq<Sleep>, n: nat) {
    forall s :: s in sleeps && s.Woken? ==> s.pool.Ok() && |s.pool.reserved| == n
  }

  /** `_alloc`: the scan goes on from where it slept, and only as far as the cursor, which
      other callers may have moved. After the last of the sleeps the wait times out. */
  ghost function AllocSleeping(p: Entries, from: nat, sleeps: seq<Sleep>): (r: Outcome)
    requires p.Ok() && from < |p.reserved| && Sized(sleeps, |p.reserved|)
    ensures r.seen.Ok() && |r.seen.reserved| == |p.reserved| && r.from < |p.reserved|
    ensures r.found.Some? ==> r.found.value < |p.reserved|
    decreases |sleeps|
  {
    var n := |p.reserved|;
    var found := Scan(p.reserved, Incr(from, n), Distance(from, p.cursor, n));
    ScanFinds(p.reserved, from, Incr(from, n), Distance(from, p.cursor, n));
    if found.Some? || sleeps == [] || sleeps[0].TimedOut? then Outcome(p, from, found)
    else
      assert sleeps[0] in sleeps;
      AllocSleeping(sleeps[0].pool, p.cursor, sleeps[1..])
  }

  /** The entry lies beyond the last scan, which stopped at the cursor. */
  ghost predicate Unvisited(r: Outcome, j: nat)
    requires r.seen.Ok() && r.from < |r.seen.reserved| && j < |r.seen.reserved|
  {
    Distance(r.from, j, |r.seen.reserved|) > Distance(r.from, r.seen.cursor, |r.seen.reserved|)
  }

  /** What an allocation comes to, however often it slept: it times out if and only if all
      entries of its last scan are reserved, and otherwise gets the first free one after where
      that began. */
  lemma {:induction false} TimesOutIff(p: Entries, from: nat, sleeps: seq<Sleep>)
    requires p.Ok() && from < |p.reserved| && Sized(sleeps, |p.reserved|)
    ensures var r := AllocSleeping(p, from, sleeps);
            var n := |p.reserved|;
            && (r.found.None? <==> forall j: nat :: j < n && !Unvisited(r, j) ==> r.seen.reserved[j])
            && match r.found
               case None => true
               case Some(k) =>
                 && !r.seen.reserved[k]
                 && forall j :: 0 <= j < n && !r.seen.reserved[j] ==> Distance(r.from, k, n) <= Distance(r.from, j, n)
    decreases |sleeps|
  {
    var n := |p.reserved|;
    ScanFinds(p.reserved, from, Incr(from, n), Distance(from, p.cursor, n));
    var found := Scan(p.reserved, Incr(from, n), Distance(from, p.cursor, n));
    if !(found.Some? || sleeps == [] || sleeps[0].TimedOut?) {
      assert sleeps[0] in sleeps;
      TimesOutIff(sleeps[0].pool, p.cursor, sleeps[1..]);
    }
  }

  /** The last scan of an allocation that was woken at entry `from`, and times out. */
  ghost predicate TimesOutWoken(reserved: seq<bool>, from: nat, cursor: nat)
    requires from < |reserved| && cursor < |reserved|
  {
    AllocSleeping(Entries(reserved, cursor), from, []).found.None?
  }

  /** A time-out means that the pool is exhausted if and only if no other caller has moved the
      cursor from where the allocation slept: otherwise the pool with just that entry free
      makes it time out, too. */
  lemma TimeoutMeansExhaustedIff(n: nat, from: nat, cursor: nat)
    requires from < n && cursor < n
    ensures (forall reserved :: |reserved| == n && TimesOutWoken(reserved, from, cursor) ==>
               Entries(reserved, cursor).Full())
       <==> from == cursor
  {
    forall reserved | |reserved| == n && TimesOutWoken(reserved, from, cursor) && from == cursor
      ensures Entries(reserved, cursor).Full()
    {
      ScanFinds(reserved, from, Incr(from, n), Distance(from, cursor, n));
    }
    var one := seq(n, i requires 0 <= i < n => i != from);
    ScanFinds(one, from, Incr(from, n), Distance(from, cursor, n));
    assert !one[from];
    if from != cursor {
      assert TimesOutWoken(one, from, cursor) && !Entries(one, cursor).Full();
    }
  }

  /** With an entry free it does not sleep. */
  lemma AllocDoesNotSleep(p: Entries, sleeps: seq<Sleep>)
    requires p.Ok() && !p.Full() && Sized(sleeps, |p.reserved|)
    ensures AllocSleeping(p, p.cursor, sleeps) == Outcome(p, p.cursor, Alloc(p).1)
  {
    AllocNearest(p);
  }

  /** A time-out with an entry free: the caller sleeps at entry 0; meanwhile entries 1 and 2
      are freed and another caller takes 1. Woken, it looks at entry 1 only. */
  lemma TimeoutWithEntryFree()
    ensures var woken := Entries([true, true, false], 1);
            AllocSleeping(Entries([true, true, true], 0), 0, [Woken(woken)]) == Outcome(woken, 0, None)
  {
    var p, woken := Entries([true, true, true], 0), Entries([true, true, false], 1);
    AllocNearest(p);
    assert Scan(woken.reserved, 1, 1) == Scan(woken.reserved, 2, 0) == None;
    assert [Woken(woken)][1..] == [];
  }

  class Allocator {
    const items: seq<int>         // the addresses handed out, all different
    const reserved: array<bool>
    var cursor: nat

    ghost predicate Valid()
      reads this, reserved
    {
      && |items| == reserved.Length && cursor < reserved.Length
      && forall i, j :: 0 <= i < j < |items| ==> items[i] != items[j]
    }

    ghost function State(): Entries
      reads this, reserved
    {
      Entries(reserved[..], cursor)
    }

    /** A pool of the given items, none of them handed out. */
    constructor (items: seq<int>)
      requires items != [] && forall i, j :: 0 <= i < j < |items| ==> items[i] != items[j]
      ensures Valid() && fresh(reserved) && this.items == items
      ensures State() == Entries(seq(|items|, _ => false), 0)
    {
      this.items := items;
      reserved := new bool[|items|](_ => false);
      cursor := 0;
    }

    /** The pool as other callers leave it. */
    method Become(now: Entries)
      requires Valid() && now.Ok() && |now.reserved| == reserved.Length
      modifies this`cursor, reserved
      ensures Valid() && State() == now
    {
      forall i | 0 <= i < reserved.Length { reserved[i] := now.reserved[i]; }
      cursor := now.cursor;
      assert reserved[..] == now.reserved;
    }

    /** Looks for a free entry from the one after `from` up to the cursor. */
    method ScanToCursor(from: nat) returns (ibuf: nat, found: bool)
      requires Valid() && from < reserved.Length
      ensures ibuf < reserved.Length
      ensures Scan(reserved[..], Incr(from, reserved.Length), Distance(from, cursor, reserved.Length))
           == if found then Some(ibuf) else None
    {
      var n := reserved.Length;
      ibuf := Incr(from, n);
      while reserved[ibuf]
        invariant ibuf < n && Distance(from, ibuf, n) <= Distance(from, cursor, n)
        invariant Scan(reserved[..], Incr(from, n), Distance(from, cursor, n))
               == Scan(reserved[..], ibuf, Distance(from, cursor, n) - Distance(from, ibuf, n) + 1)
        decreases n - Distance(from, ibuf, n)
      {
        if ibuf == cursor {
          return ibuf, false;
        }
        ibuf := Incr(ibuf, n);
      }
      return ibuf, true;
    }

    /** `sleeps` says how each sleep ends; after the last of them the wait times out. */
    method Allocate(sleeps: seq<Sleep>) returns (item: Option<int>)
      requires Valid() && Sized(sleeps, reserved.Length)
      modifies this`cursor, reserved
      ensures Valid()
      ensures var r := AllocSleeping(old(State()), old(cursor), sleeps);
              match r.found
              case None => item == None && State() == r.seen
              case Some(k) => item == Some(items[k]) && State() == Entries(r.seen.reserved[k := true], k)
    {
      var from: nat := cursor;
      var k := 0;
      var ibuf, found := ScanToCursor(from);
      while !found
        invariant Valid() && from < reserved.Length && ibuf < reserved.Length && 0 <= k <= |sleeps|
        invariant Sized(sleeps[k..], reserved.Length)
        invariant AllocSleeping(old(State()), old(cursor), sleeps) == AllocSleeping(State(), from, sleeps[k..])
        invariant Scan(State().reserved, Incr(from, reserved.Length), Distance(from, cursor, reserved.Length))
               == if found then Some(ibuf) else None
        decreases |sleeps| - k, !found
      {
        if k == |sleeps| || sleeps[k].TimedOut? {
          return None;
        }
        assert sleeps[k..][0] == sleeps[k] && sleeps[k..][1..] == sleeps[k + 1..];
        assert sleeps[k] in sleeps[k..];
        from := cursor;
        Become(sleeps[k].pool);
        k := k + 1;
        ibuf, found := ScanToCursor(from);
      }
      cursor := ibuf;
      reserved[ibuf] := true;
      item := Some(items[ibuf]);
    }

    /** Frees the entry of an address; an address the pool does not know is ignored. */
    method Release(item: int)
      requires Valid()
      modifies reserved
      ensures Valid()
      ensures item !in items ==> State() == old(State())
      ensures forall i :: 0 <= i < |items| && items[i] == item ==> State() == Free(old(State()), i)
    {
      for i := 0 to reserved.Length
        invariant forall j :: 0 <= j < i ==> items[j] != item
        invariant reserved[..] == old(reserved[..])
      {
        if items[i] == item {
          reserved[i] := false;
          return;
        }
      }
    }
  }
}
