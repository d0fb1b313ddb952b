/** The handler operations as the driver performs them, updating its handlers, list
    and pools in place (acq200_i2o.c, rch.h), each proved to be the corresponding
    step of `Handlers`. */
module HandlerDevice {
  import opened Ids
  import opened Options
  import opened Pool
  import opened Handlers

  class I2oDevice {
    const handlerPool: Allocator
    const mappingPool: Allocator
    const rch: array<Rch>
    var list: seq<nat>
    var lastIdOut: int
    var card: seq<Request>
    var discarded: nat
    var sent: nat           // i2o_packets_outgoing
    ghost var unlinkedTwice: bool
    ghost var faulted: bool

    ghost function State(): Device
      reads this, rch, handlerPool, handlerPool.reserved, mappingPool, mappingPool.reserved
    {
      Device(handlerPool.State(), mappingPool.State(), rch[..], list, lastIdOut, sent, card, discarded,
             unlinkedTwice, faulted)
    }

    ghost predicate Valid()
      reads this, rch, handlerPool, handlerPool.reserved, mappingPool, mappingPool.reserved
    {
      && handlerPool.Valid() && mappingPool.Valid() && handlerPool != mappingPool
      && handlerPool.reserved != mappingPool.reserved
      && (forall i :: 0 <= i < |handlerPool.items| ==> handlerPool.items[i] == i)
      && (forall i :: 0 <= i < |mappingPool.items| ==> mappingPool.items[i] == i)
      && Shaped(State())
    }

    constructor ()
      ensures Valid() && State() == FreshDevice
    {
      handlerPool := new Allocator(seq(NHANDLERS, i => i));
      mappingPool := new Allocator(seq(NMAPPINGS, i => i));
      rch := new Rch[NHANDLERS](_ => UnusedRch);
      list, lastIdOut, card, discarded, sent, unlinkedTwice, faulted := [], 0, [], 0, 0, false, false;
      new;
      mappingPool.reserved[MSG_MAPPING] := true;
      assert mappingPool.reserved[..] == Copies(NMAPPINGS, false)[MSG_MAPPING := true];
      assert handlerPool.reserved[..] == Copies(NHANDLERS, false);
      assert rch[..] == Copies(NHANDLERS, UnusedRch);
    }

    /** `list_del`. */
    method ListDelete(h: nat)
      requires Valid()
      modifies this`list, this`unlinkedTwice
      ensures State() == Unlink(old(State()), h)
    {
      if h in list {
        list := Without(list, h);
      } else {
        unlinkedTwice := true;
      }
    }

    method RchRemove(h: nat)
      requires Valid() && h < NHANDLERS
      modifies this`list, this`unlinkedTwice, rch
      ensures State() == Remove(old(State()), h)
    {
      ListDelete(h);
      rch[h] := rch[h].(path := None, handler := Cleared);
    }

    /** Frees a mapping or handler in its pool; the pool ignores what it does not know. */
    method FreeIn(pool: Allocator, index: nat)
      requires pool.Valid() && (forall i :: 0 <= i < |pool.items| ==> pool.items[i] == i)
      modifies pool.reserved
      ensures pool.Valid()
      ensures pool.State() == if index < |pool.items| then Free(old(pool.State()), index) else old(pool.State())
    {
      if index < |pool.items| {
        assert pool.items[index] == index;
      }
      pool.Release(index);
    }

    /** Frees the handler's mapping, if it is the pool's, and the handler. */
    method FreeHandler(h: nat)
      requires Valid() && h < NHANDLERS
      modifies handlerPool.reserved, mappingPool.reserved
      ensures Valid() && State() == FreeRch(old(State()), h)
    {
      if rch[h].kbuf.PoolKbuf? && rch[h].pooled {
        FreeIn(mappingPool, rch[h].kbuf.mapping);
      }
      FreeIn(handlerPool, h);
    }

    method RecycleRch(h: nat)
      requires Valid() && h < NHANDLERS
      modifies this`list, this`unlinkedTwice, this`faulted, rch, handlerPool.reserved, mappingPool.reserved
      ensures Valid() && State() == Recycle(old(State()), h)
    {
      UnlinkShaped(State(), h);
      if rch[h].path.Some? {
        RchRemove(h);
      }
      if rch[h].built {
        FreeHandler(h);
      } else {
        faulted := true;   // the handler's device is a null pointer
      }
    }

    /** Takes an entry of a pool without sleeping; `None` when all are reserved. */
    method Take(pool: Allocator) returns (r: Option<nat>)
      requires pool.Valid() && (forall i :: 0 <= i < |pool.items| ==> pool.items[i] == i)
      modifies pool`cursor, pool.reserved
      ensures pool.Valid() && (pool.State(), r) == Alloc(old(pool.State()))
    {
      AllocNearest(pool.State());
      var item := pool.Allocate([]);
      r := if item.None? then None else Some(pool.cursor);
    }

    method BuildRch(h: nat, f: Function, path: nat, kbuf: Kbuf, pooled: bool)
      requires Valid() && h < NHANDLERS
      modifies rch, this`list
      ensures Valid() && State() == BuildAndAppend(old(State()), h, f, path, kbuf, pooled)
    {
      rch[h] := rch[h].(handler := f, path := Some(path), commandId := MakeId(lastIdOut + 1), serial := sent + 1,
                        valid := 0, nbytes := 0, kbuf := kbuf, pooled := pooled, built := true);
      list := list + [h];
    }

    /** Sends a request if the card has a free inbound frame. */
    method SendI2o(frameFree: bool) returns (sentIt: bool)
      requires Valid()
      modifies this`lastIdOut, this`sent, this`card
      ensures Valid() && sentIt == frameFree && State() == Send(old(State()), frameFree)
    {
      if !frameFree {
        return false;
      }
      lastIdOut := Short(lastIdOut + 1);
      sent := sent + 1;
      card := card + [Request(MakeId(lastIdOut), sent)];
      return true;
    }

    method BridgeReadSubmit(path: nat, frameFree: bool) returns (waitOn: Option<nat>)
      requires Valid()
      modifies this, rch, handlerPool, handlerPool.reserved, mappingPool, mappingPool.reserved
      ensures Valid() && (State(), waitOn) == ReadSubmit(old(State()), path, frameFree)
    {
      var h := Take(handlerPool);
      if h.None? {
        return None;
      }
      var m := Take(mappingPool);
      if m.None? {
        RecycleRch(h.value);
        return None;
      }
      BuildRch(h.value, ReadMessage, path, PoolKbuf(m.value), true);
      var _ := SendI2o(frameFree);
      return h;
    }
  
    /** The rest of a read: how many bytes it returns, or why it failed. */
    method BridgeReadFinish(h: nat) returns (r: ReadResult)
      requires Valid() && h < NHANDLERS
      modifies this, rch, handlerPool.reserved, mappingPool.reserved
      ensures Valid() && State() == ReadFinish(old(State()), h)
      ensures r == ReadReturns(old(rch[h]))
    {
      var valid := rch[h].valid;
      if valid != 1 {
        if valid < 0 {
          ListDelete(h);
        }
        rch[h] := rch[h].(handler := Cleared);
        UnlinkShaped(old(State()), h);
      }
      if valid == 0 {
        return Eintr;
      }
      var count := rch[h].nbytes;
      RecycleRch(h);
      return if valid == 1 then Returned(count) else Efault;
    }

    /** Writes up to `count` bytes, as far as the mapping's `kbufLen` allows. */
    method BridgeWrite(path: nat, count: nat, kbufLen: nat, frameFree: bool) returns (r: ReadResult)
      requires Valid()
      modifies this, rch, handlerPool, handlerPool.reserved, mappingPool, mappingPool.reserved
      ensures var n := if count < kbufLen then count else kbufLen;
              && Valid() && State() == WriteSubmit(old(State()), path, n, frameFree)
              && r == if old(handlerPool.State().Full() || mappingPool.State().Full()) then Etimedout
                      else if n == 0 then Enomem else Returned(n)
    {
      AllocNearest(handlerPool.State());
      AllocNearest(mappingPool.State());
      var h := Take(handlerPool);
      if h.None? {
        return Etimedout;
      }
      var m := Take(mappingPool);
      if m.None? {
        RecycleRch(h.value);
        return Etimedout;
      }
      var n := if count < kbufLen then count else kbufLen;
      if n == 0 {
        return Enomem;
      }
      BuildRch(h.value, RecycleOnly, path, PoolKbuf(m.value), true);
      var _ := SendI2o(frameFree);
      return Returned(n);
    }

    /** Queues a request without a pool mapping: a swinging buffer, or the message that
        ends a transfer. Without a free handler the first faults; the second comes to nothing,
        and the release tries again. */
    method QueuePlain(f: Function, path: nat, kbuf: Kbuf, pooled: bool, frameFree: bool) returns (h: Option<nat>)
      requires Valid()
      modifies this, rch, handlerPool, handlerPool.reserved
      ensures Valid() && (h.None? <==> old(handlerPool.State()).Full())
      ensures h.None? ==> State() == old(State()).(faulted := old(faulted) || !f.LastMessage?)
      ensures h.Some? ==> (State(), h.value) == PlainSubmit(old(State()), f, path, kbuf, pooled, frameFree)
    {
      AllocNearest(handlerPool.State());
      h := Take(handlerPool);
      if h.Some? {
        BuildRch(h.value, f, path, kbuf, pooled);
        var _ := SendI2o(frameFree);
      } else if !f.LastMessage? {
        faulted := true;
      }
    }

    method RunHandler(h: nat, a: Answer)
      requires Valid() && h < NHANDLERS
      modifies this, rch, handlerPool.reserved, mappingPool.reserved
      ensures Valid() && State() == Handle(old(State()), h, a)
    {
      match rch[h].handler {
        case Cleared =>
          RecycleRch(h);
          discarded := discarded + 1;
        case ReadMessage =>
          rch[h] := SetSamples(rch[h], a);
          if rch[h].path.None? {
            RecycleRch(h);
          }
        case RecycleOnly =>
          RecycleRch(h);
        case LastMessage =>
          rch[h] := rch[h].(valid := 1);
          RecycleRch(h);
      }
    }

    /** A release after its wait: recycles its handler, if that has had its response. */
    method FinishWait(h: nat)
      requires Valid() && h < NHANDLERS
      modifies this`list, this`unlinkedTwice, this`faulted, rch, handlerPool.reserved, mappingPool.reserved
      ensures Valid() && State() == WaitOver(old(State()), h)
    {
      if rch[h].valid == 1 {
        RecycleRch(h);
      }
    }

    /** Scans the list for the first handler carrying the id. */
    method FindOfId(id: nat) returns (r: Option<nat>)
      requires Valid()
      ensures r == Find(rch[..], list, id)
    {
      var i := 0;
      while i < |list|
        invariant 0 <= i <= |list|
        invariant Find(rch[..], list, id) == Find(rch[..], list[i..], id)
      {
        var h := list[i];
        assert h in list;
        if rch[h].commandId == id {
          return Some(h);
        }
        assert list[i..][1..] == list[i + 1..];
        i := i + 1;
      }
      return None;
    }

    /** Runs the first listed handler carrying the response's id, if there is one. */
    method ProcessCommandMessageReturn(id: nat, a: Answer)
      requires Valid()
      modifies this, rch, handlerPool.reserved, mappingPool.reserved
      ensures Valid() && State() == Dispatch(old(State()), id, a)
    {
      var found := FindOfId(id);
      if found.Some? {
        assert found.value in list;
        RunHandler(found.value, a);
      }
    }

    method FindOfPath(path: nat) returns (r: Option<nat>)
      requires Valid()
      ensures r == FirstOfPath(rch[..], list, path)
    {
      var i := 0;
      while i < |list|
        invariant 0 <= i <= |list|
        invariant FirstOfPath(rch[..], list, path) == FirstOfPath(rch[..], list[i..], path)
      {
        var h := list[i];
        assert h in list;
        if rch[h].path == Some(path) {
          return Some(h);
        }
        assert list[i..][1..] == list[i + 1..];
        i := i + 1;
      }
      return None;
    }

    /** Recycles the path's handlers, starting the search over after each. */
    method CleanupOnBridgeRelease(path: nat)
      requires Valid()
      modifies this`list, this`unlinkedTwice, this`faulted, rch, handlerPool.reserved, mappingPool.reserved
      ensures Valid() && State() == Cleanup(old(State()), path)
    {
      var found := FindOfPath(path);
      while found.Some?
        invariant Valid() && found == FirstOfPath(rch[..], list, path)
        invariant Cleanup(State(), path) == Cleanup(old(State()), path)
        decreases |list|
      {
        RecycleShaped(State(), found.value);
        RecycleRch(found.value);
        found := FindOfPath(path);
      }
    }
  }
}
