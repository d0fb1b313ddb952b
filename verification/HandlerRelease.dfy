/** Releasing a path: the cleanup loop that recycles its handlers, starting over after
    each (acq200_i2o.c). */
module HandlerRelease {
  import opened Options
  import opened Pool
  import opened Handlers
  import opened HandlerBalance

  /** The listed handlers of other paths, in their order. */
  ghost function Others(rch: seq<Rch>, list: seq<nat>, path: nat): seq<nat>
    requires forall i :: 0 <= i < |list| ==> list[i] < |rch|
  {
    if list == [] then []
    else
      (if rch[list[0]].path == Some(path) then [] else [list[0]]) + Others(rch, list[1..], path)
  }

  lemma {:induction false} OthersWithout(rch: seq<Rch>, rch': seq<Rch>, list: seq<nat>, h: nat, path: nat)
    requires forall i :: 0 <= i < |list| ==> list[i] < |rch|
    requires |rch'| == |rch| && (forall x: nat :: x < |rch| && x != h ==> rch'[x] == rch[x])
    requires h in list ==> rch[h].path == Some(path)
    requires NoDuplicates(list)
    ensures forall i :: 0 <= i < |Without(list, h)| ==> Without(list, h)[i] < |rch|
    ensures Others(rch', Without(list, h), path) == Others(rch, list, path)
  {
    if list != [] {
      if list[0] != h {
        OthersWithout(rch, rch', list[1..], h, path);
      } else {
        assert h !in list[1..];
        OthersSame(rch, rch', list[1..], h, path);
      }
    }
  }

  lemma {:induction false} OthersSame(rch: seq<Rch>, rch': seq<Rch>, list: seq<nat>, h: nat, path: nat)
    requires forall i :: 0 <= i < |list| ==> list[i] < |rch|
    requires |rch'| == |rch| && (forall x: nat :: x < |rch| && x != h ==> rch'[x] == rch[x])
    requires h !in list
    ensures Others(rch', list, path) == Others(rch, list, path)
  {
    if list != [] {
      assert list[0] in list && forall x :: x in list[1..] ==> x in list;
      OthersSame(rch, rch', list[1..], h, path);
    }
  }

  lemma {:induction false} FirstOfPathNone(rch: seq<Rch>, list: seq<nat>, path: nat)
    requires forall i :: 0 <= i < |list| ==> list[i] < |rch|
    requires FirstOfPath(rch, list, path).None?
    ensures Others(rch, list, path) == list
    ensures forall x :: x in list ==> rch[x].path != Some(path)
  {
    if list != [] {
      FirstOfPathNone(rch, list[1..], path);
    }
  }

  lemma {:induction false} OthersMembers(rch: seq<Rch>, list: seq<nat>, path: nat)
    requires forall i :: 0 <= i < |list| ==> list[i] < |rch|
    ensures forall h :: h in Others(rch, list, path) <==> h in list && rch[h].path != Some(path)
  {
    if list != [] {
      OthersMembers(rch, list[1..], path);
    }
  }

  /** Only handlers that have been built get onto the list. */
  ghost predicate ListedBuilt(d: Device) {
    forall h :: h in d.list ==> h < |d.rch| && d.rch[h].built
  }

  /** From any list the cleanup leaves the handlers of other paths as they were, in their
      order, and what the card owes. */
  lemma {:induction false} CleanupKeeps(d: Device, path: nat)
    requires Shaped(d) && NoDuplicates(d.list) && ListedBuilt(d)
    ensures var d' := Cleanup(d, path);
            && d'.list == Others(d.rch, d.list, path)
            && (forall h :: h in d'.list ==> d'.rch[h] == d.rch[h] && d'.rch[h].path != Some(path))
            && d'.(handlers := d.handlers, mappings := d.mappings, rch := d.rch, list := d.list) == d
    decreases |d.list|
  {
    match FirstOfPath(d.rch, d.list, path)
    case None =>
      FirstOfPathNone(d.rch, d.list, path);
    case Some(h) =>
      var d1 := Recycle(d, h);
      RecycleShaped(d, h);
      WithoutMembers(d.list, h);
      OthersWithout(d.rch, d1.rch, d.list, h, path);
      CleanupKeeps(d1, path);
      OthersMembers(d1.rch, d1.list, path);
  }

  ghost predicate OnPath(d: Device, h: nat, path: nat)
    requires Shaped(d)
  {
    h < NHANDLERS && h in d.list && d.rch[h].path == Some(path)
  }

  ghost predicate NamedOnPath(d: Device, m: nat, path: nat)
    requires Shaped(d)
  {
    exists h: nat :: OnPath(d, h, path) && Holds(d.rch, d.list, h, m)
  }

  /** From any list and whatever is reserved: exactly the path's handlers are unlisted,
      and exactly they and the mappings they name are freed. */
  lemma {:induction false} CleanupFreesExactly(d: Device, path: nat)
    requires Shaped(d) && NoDuplicates(d.list) && ListedBuilt(d)
    ensures var d' := Cleanup(d, path);
            && (forall h :: h in d'.list <==> h in d.list && !OnPath(d, h, path))
            && (forall h: nat :: h < NHANDLERS ==>
                  (d'.handlers.reserved[h] <==> d.handlers.reserved[h] && !OnPath(d, h, path)))
            && (forall m: nat :: m < NMAPPINGS ==>
                  (d'.mappings.reserved[m] <==> d.mappings.reserved[m] && !NamedOnPath(d, m, path)))
    decreases |d.list|
  {
    match FirstOfPath(d.rch, d.list, path)
    case None =>
      FirstOfPathNone(d.rch, d.list, path);
    case Some(h) =>
      var d1 := Recycle(d, h);
      RecycleShaped(d, h);
      WithoutMembers(d.list, h);
      CleanupFreesExactly(d1, path);
      assert forall k: nat :: OnPath(d1, k, path) <==> OnPath(d, k, path) && k != h;
      forall m: nat | m < NMAPPINGS
        ensures NamedOnPath(d, m, path) <==> NamedOnPath(d1, m, path) || Holds(d.rch, d.list, h, m)
      {
        OneLessOnPath(d, d1, h, m, path);
      }
  }

  lemma OneLessOnPath(d: Device, d1: Device, h: nat, m: nat, path: nat)
    requires Shaped(d) && Shaped(d1) && OnPath(d, h, path)
    requires forall k: nat :: OnPath(d1, k, path) <==> OnPath(d, k, path) && k != h
    requires forall k: nat :: k < NHANDLERS && k != h ==> d1.rch[k] == d.rch[k]
    ensures NamedOnPath(d, m, path) <==> NamedOnPath(d1, m, path) || Holds(d.rch, d.list, h, m)
  {
    if NamedOnPath(d1, m, path) {
      var k: nat :| OnPath(d1, k, path) && Holds(d1.rch, d1.list, k, m);
      assert OnPath(d, k, path) && Holds(d.rch, d.list, k, m);
    }
    if NamedOnPath(d, m, path) {
      var k: nat :| OnPath(d, k, path) && Holds(d.rch, d.list, k, m);
      assert k == h || (OnPath(d1, k, path) && Holds(d1.rch, d1.list, k, m));
    }
  }

  lemma {:induction false} CleanupConserves(d: Device, path: nat)
    requires Conserved(d)
    ensures Conserved(Cleanup(d, path))
    decreases |d.list|
  {
    match FirstOfPath(d.rch, d.list, path)
    case None =>
    case Some(h) =>
      RecycleShaped(d, h);
      RecycleConserves(d, h);
      CleanupConserves(Recycle(d, h), path);
  }
}
