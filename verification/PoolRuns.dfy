/** Runs of a pool, and the items its callers hold (acq200_bigbuf_alloc.c). */
module PoolRuns {
  import opened Options
  import opened Pool

  datatype Event = Take | GiveBack(item: nat)

  datatype Account = Account(pool: Entries, held: multiset<nat>)

  ghost predicate InRange(es: seq<Event>, n: nat) {
    forall i :: 0 <= i < |es| && es[i].GiveBack? ==> es[i].item < n
  }

  ghost function Step(a: Account, e: Event): (r: Account)
    requires a.pool.Ok() && (e.GiveBack? ==> e.item < |a.pool.reserved|)
    ensures r.pool.Ok() && |r.pool.reserved| == |a.pool.reserved|
  {
    match e
    case Take =>
      var (p, r) := Alloc(a.pool);
      Account(p, if r.Some? then a.held + multiset{r.value} else a.held)
    case GiveBack(i) =>
      Account(Free(a.pool, i), a.held - multiset{i})
  }

  ghost function Run(a: Account, es: seq<Event>): (r: Account)
    requires a.pool.Ok() && InRange(es, |a.pool.reserved|)
    ensures r.pool.Ok() && |r.pool.reserved| == |a.pool.reserved|
    decreases |es|
  {
    if es == [] then a else Run(Step(a, es[0]), es[1..])
  }

  /** Callers give back only items they hold. */
  ghost predicate Disciplined(a: Account, es: seq<Event>)
    requires a.pool.Ok() && InRange(es, |a.pool.reserved|)
    decreases |es|
  {
    es == [] || ((es[0].GiveBack? ==> es[0].item in a.held) && Disciplined(Step(a, es[0]), es[1..]))
  }

  /** Each reserved entry outside `kept` is held exactly once; nothing else is held. */
  ghost predicate Exclusive(a: Account, kept: set<nat>) {
    && (forall i :: i in kept && i < |a.pool.reserved| ==> a.pool.reserved[i])
    && (forall i: nat ::
          a.held[i] == if i < |a.pool.reserved| && a.pool.reserved[i] && i !in kept then 1 else 0)
  }

  /** When callers free only what they hold, no item is ever handed out twice at
      once and entries reserved at creation, like the message mapping, never are. */
  lemma {:induction false} PoolExclusive(a: Account, kept: set<nat>, es: seq<Event>)
    requires a.pool.Ok() && InRange(es, |a.pool.reserved|)
    requires Exclusive(a, kept) && Disciplined(a, es)
    ensures Exclusive(Run(a, es), kept)
    decreases |es|
  {
    if es != [] {
      if es[0].Take? {
        AllocNearest(a.pool);
      }
      PoolExclusive(Step(a, es[0]), kept, es[1..]);
    }
  }

  ghost function Takes(es: seq<Event>): nat {
    if es == [] then 0 else (if es[0].Take? then 1 else 0) + Takes(es[1..])
  }

  /** Some allocation of the run hands out `item`. */
  ghost predicate HandedOut(p: Entries, es: seq<Event>, item: nat)
    requires p.Ok() && InRange(es, |p.reserved|)
    decreases |es|
  {
    es != [] &&
    match es[0]
    case Take => Alloc(p).1 == Some(item) || HandedOut(Alloc(p).0, es[1..], item)
    case GiveBack(i) => HandedOut(Free(p, i), es[1..], item)
  }

  /** A free entry is handed out within as many allocations as it is steps away
      from the cursor, so within `max_entries`, whatever frees come between. */
  lemma {:induction false} RoundRobinFair(p: Entries, es: seq<Event>, item: nat)
    requires p.Ok() && InRange(es, |p.reserved|)
    requires item < |p.reserved| && !p.reserved[item]
    requires Takes(es) >= Distance(p.cursor, item, |p.reserved|)
    ensures HandedOut(p, es, item)
    decreases |es|
  {
    match es[0]
    case Take =>
      AllocNearest(p);
      if Alloc(p).1 != Some(item) {
        RoundRobinFair(Alloc(p).0, es[1..], item);
      }
    case GiveBack(i) => RoundRobinFair(Free(p, i), es[1..], item);
  }

  /** The accounts a run passes through, the first and last included. */
  ghost predicate Passes(a: Account, es: seq<Event>, item: nat, count: nat)
    requires a.pool.Ok() && InRange(es, |a.pool.reserved|)
    decreases |es|
  {
    a.held[item] == count || (es != [] && Passes(Step(a, es[0]), es[1..], item, count))
  }

  /** Why the discipline is needed: once somebody frees an item another caller
      still holds, any `max_entries` further allocations hand it to a second holder,
      unless its holder gives it back first. */
  lemma StrayFreeSharesItem(a: Account, holder: nat, es: seq<Event>)
    requires a.pool.Ok() && holder < |a.pool.reserved| && a.held[holder] == 1
    requires InRange(es, |a.pool.reserved|) && (forall e :: e in es ==> e != GiveBack(holder))
    requires Takes(es) >= |a.pool.reserved|
    ensures Passes(Account(Free(a.pool, holder), a.held), es, holder, 2)
  {
    var p := Free(a.pool, holder);
    RoundRobinFair(p, es, holder);
    HandedOutIsHeld(Account(p, a.held), es, holder);
  }

  lemma {:induction false} HandedOutIsHeld(a: Account, es: seq<Event>, item: nat)
    requires a.pool.Ok() && InRange(es, |a.pool.reserved|)
    requires a.held[item] == 1 && (forall e :: e in es ==> e != GiveBack(item))
    requires HandedOut(a.pool, es, item)
    ensures Passes(a, es, item, 2)
    decreases |es|
  {
    var a' := Step(a, es[0]);
    assert es[0] in es;
    if a'.held[item] != 2 {
      forall e | e in es[1..] ensures e != GiveBack(item) {
        assert e in es;
      }
      HandedOutIsHeld(a', es[1..], item);
    } else {
      assert Passes(a', es[1..], item, 2);
    }
  }
}
