/** Return-command handlers: reserved from a pool, listed while a request is out,
    found again by the id the card echoes, and recycled (acq200_i2o.c, rch.h). */
module Handlers {
  import opened Ids
  import opened Options
  import opened Pool

  /** The function a handler runs on its response; `Cleared` once its reader has left. */
  datatype Function = Cleared | ReadMessage | RecycleOnly | LastMessage

  /** The buffer a handler names: none, a mapping of the pool, or a path's own. */
  datatype Kbuf = NoKbuf | PoolKbuf(mapping: nat) | PathKbuf(buffer: nat)

  /** A handler. `serial` numbers the request it was stamped for; `built` says that it ever
      was, and so has got its device, through which it is freed. */
  datatype Rch = Rch(
    handler: Function,
    path: Option<nat>,
    commandId: nat,
    serial: nat,
    valid: int,
    startId: nat,
    nbytes: nat,
    kbuf: Kbuf,
    pooled: bool,    // the RCH_KB_POOL flag
    built: bool)

  const UnusedRch := Rch(Cleared, None, 0, 0, 0, 0, 0, NoKbuf, false, false)

  /** A request sent to the card and not yet answered. */
  datatype Request = Request(id: nat, serial: nat)

  /** What the card answers to a read: data, or the error code 0xffffffff. */
  datatype Answer = Data(start: nat, nsamples: nat) | Error

  datatype Device = Device(
    handlers: Entries,
    mappings: Entries,
    rch: seq<Rch>,
    list: seq<nat>,              // the listed handlers, oldest first
    lastIdOut: int,              // a 16-bit counter
    sent: nat,                   // i2o_packets_outgoing, the requests sent so far
    card: seq<Request>,
    discarded: nat,
    unlinkedTwice: bool,         // a handler off the list was unlinked again
    faulted: bool)               // a null pointer was followed

  function Copies<T>(n: nat, x: T): (r: seq<T>)
    ensures |r| == n && forall i :: 0 <= i < n ==> r[i] == x
  {
    seq(n, _ => x)
  }

  const FreshDevice := Device(
    Entries(Copies(NHANDLERS, false), 0),
    Entries(Copies(NMAPPINGS, false)[MSG_MAPPING := true], 0),
    Copies(NHANDLERS, UnusedRch), [], 0, 0, [], 0, false, false)

  // Single operations.

  function Without(list: seq<nat>, h: nat): seq<nat> {
    if list == [] then []
    else if list[0] == h then list[1..]
    else [list[0]] + Without(list[1..], h)
  }

  ghost predicate NoDuplicates(list: seq<nat>) {
    forall i, j :: 0 <= i < j < |list| ==> list[i] != list[j]
  }

  ghost predicate Shaped(d: Device) {
    && d.handlers.Ok() && |d.handlers.reserved| == NHANDLERS == |d.rch|
    && d.mappings.Ok() && |d.mappings.reserved| == NMAPPINGS
    && (forall i :: 0 <= i < |d.list| ==> d.list[i] < NHANDLERS)
  }

  function Unlink(d: Device, h: nat): Device {
    if h in d.list then d.(list := Without(d.list, h)) else d.(unlinkedTwice := true)
  }

  function Remove(d: Device, h: nat): Device
    requires h < |d.rch|
  {
    var d1 := Unlink(d, h);
    d1.(rch := d1.rch[h := d1.rch[h].(path := None, handler := Cleared)])
  }

  /** Frees the mapping a handler names, if it is one of the pool's. */
  function FreeKbuf(reserved: seq<bool>, r: Rch): seq<bool> {
    if r.pooled && r.kbuf.PoolKbuf? && r.kbuf.mapping < |reserved| then reserved[r.kbuf.mapping := false]
    else reserved
  }

  /** Frees the handler's mapping and the handler. */
  function FreeRch(d: Device, h: nat): Device
    requires h < |d.rch| && h < |d.handlers.reserved|
  {
    d.(mappings := d.mappings.(reserved := FreeKbuf(d.mappings.reserved, d.rch[h])), handlers := Free(d.handlers, h))
  }

  /** Unlinks the handler if it has a path, and frees its mapping and itself. One that was
      never built has no device to do so through. */
  function Recycle(d: Device, h: nat): Device
    requires h < |d.rch| && h < |d.handlers.reserved|
  {
    var d1 := if d.rch[h].path.Some? then Remove(d, h) else d;
    if d1.rch[h].built then FreeRch(d1, h) else d1.(faulted := true)
  }

  /** Stamps the handler for the next request and appends it to the list. */
  function BuildAndAppend(d: Device, h: nat, f: Function, path: nat, kbuf: Kbuf, pooled: bool): Device
    requires h < |d.rch|
  {
    var r := d.rch[h].(handler := f, path := Some(path), commandId := MakeId(d.lastIdOut + 1), serial := d.sent + 1,
                       valid := 0, nbytes := 0, kbuf := kbuf, pooled := pooled, built := true);
    d.(rch := d.rch[h := r], list := d.list + [h])
  }

  /** Sends a request; without a free inbound frame nothing happens. */
  function Send(d: Device, frameFree: bool): Device {
    if !frameFree then d
    else
      var id := Short(d.lastIdOut + 1);
      d.(lastIdOut := id, sent := d.sent + 1, card := d.card + [Request(MakeId(id), d.sent + 1)])
  }

  function Submit(d: Device, h: nat, f: Function, path: nat, kbuf: Kbuf, pooled: bool, frameFree: bool): Device
    requires h < |d.rch|
  {
    Send(BuildAndAppend(d, h, f, path, kbuf, pooled), frameFree)
  }

  /** The first listed handler carrying the id. */
  function Find(rch: seq<Rch>, list: seq<nat>, id: nat): (r: Option<nat>)
    requires forall i :: 0 <= i < |list| ==> list[i] < |rch|
    ensures r.Some? ==> r.value in list && rch[r.value].commandId == id
  {
    if list == [] then None
    else if rch[list[0]].commandId == id then Some(list[0])
    else Find(rch, list[1..], id)
  }

  // The driver's operations, each one locked or "build, append, send" step.

  /** `acq200_bridge_read_generic` up to its wait: the handler waited on, if the
      pools had one and a mapping for it. */
  function ReadSubmit(d: Device, path: nat, frameFree: bool): (Device, Option<nat>)
    requires Shaped(d)
  {
    var (handlers, h) := Alloc(d.handlers);
    if h.None? then (d, None)
    else
      var d1 := d.(handlers := handlers);
      var (mappings, m) := Alloc(d.mappings);
      if m.None? then (Recycle(d1, h.value), None)
      else (Submit(d1.(mappings := mappings), h.value, ReadMessage, path, PoolKbuf(m.value), true, frameFree), h)
  }

  /** The rest of a read, after its wait ended with or without a response. */
  function ReadFinish(d: Device, h: nat): Device
    requires h < |d.rch| && h < |d.handlers.reserved|
  {
    var cleared := d.rch[h := d.rch[h].(handler := Cleared)];
    if d.rch[h].valid == 1 then Recycle(d, h)
    else if d.rch[h].valid == 0 then d.(rch := cleared)
    else Recycle((if d.rch[h].valid < 0 then Unlink(d, h) else d).(rch := cleared), h)
  }

  /** What a system call returns: a number of bytes or an error. */
  datatype ReadResult = Returned(count: nat) | Etimedout | Eintr | Efault | Enomem

  /** What a read returns after its wait, by its handler. */
  function ReadReturns(r: Rch): ReadResult {
    if r.valid == 1 then Returned(r.nbytes) else if r.valid == 0 then Eintr else Efault
  }

  /** `acq200_bridge_write_generic`. */
  function WriteSubmit(d: Device, path: nat, count: nat, frameFree: bool): Device
    requires Shaped(d)
  {
    var (handlers, h) := Alloc(d.handlers);
    if h.None? then d
    else
      var d1 := d.(handlers := handlers);
      var (mappings, m) := Alloc(d.mappings);
      if m.None? then Recycle(d1, h.value)
      else
        var d2 := d1.(mappings := mappings);
        if count == 0 then d2
        else Submit(d2, h.value, RecycleOnly, path, PoolKbuf(m.value), true, frameFree)
  }

  /** A handler without a pool mapping: `acq200_bufferAB_queue`, and the message of a
      release. */
  function PlainSubmit(d: Device, f: Function, path: nat, kbuf: Kbuf, pooled: bool, frameFree: bool): (Device, nat)
    requires Shaped(d) && !d.handlers.Full()
  {
    AllocNearest(d.handlers);
    var (handlers, h) := Alloc(d.handlers);
    (Submit(d.(handlers := handlers), h.value, f, path, kbuf, pooled, frameFree), h.value)
  }

  /** `rchSetSamplesAndGetPath`. */
  function SetSamples(r: Rch, a: Answer): Rch {
    match a
    case Data(start, nsamples) => r.(startId := start, nbytes := 2 * nsamples, valid := 1)
    case Error => r.(valid := -1)
  }

  /** Runs a listed handler on its response. */
  function Handle(d: Device, h: nat, a: Answer): Device
    requires h < |d.rch| && h < |d.handlers.reserved|
  {
    match d.rch[h].handler
    case Cleared =>
      var d1 := Recycle(d, h);
      d1.(discarded := d1.discarded + 1)
    case ReadMessage =>
      var d1 := d.(rch := d.rch[h := SetSamples(d.rch[h], a)]);
      if d.rch[h].path.Some? then d1 else Recycle(d1, h)
    case RecycleOnly => Recycle(d, h)
    case LastMessage => Recycle(d.(rch := d.rch[h := d.rch[h].(valid := 1)]), h)
  }

  /** What a release does when its wait for handler `h` is over: it recycles the handler
      once more, the response having done so already. */
  function WaitOver(d: Device, h: nat): Device
    requires h < |d.rch| && h < |d.handlers.reserved|
  {
    if d.rch[h].valid == 1 then Recycle(d, h) else d
  }

  /** A message from the card carrying `id`. */
  function Dispatch(d: Device, id: nat, a: Answer): Device
    requires Shaped(d)
  {
    match Find(d.rch, d.list, id)
    case None => d
    case Some(h) => Handle(d, h, a)
  }

  /** The card answers its `k`-th outstanding request, echoing the id. */
  function Respond(d: Device, k: nat, a: Answer): Device
    requires Shaped(d) && k < |d.card|
  {
    Dispatch(d.(card := d.card[..k] + d.card[k + 1..]), d.card[k].id, a)
  }

  function FirstOfPath(rch: seq<Rch>, list: seq<nat>, path: nat): (r: Option<nat>)
    requires forall i :: 0 <= i < |list| ==> list[i] < |rch|
    ensures r.Some? ==> r.value in list && rch[r.value].path == Some(path)
  {
    if list == [] then None
    else if rch[list[0]].path == Some(path) then Some(list[0])
    else FirstOfPath(rch, list[1..], path)
  }

  lemma {:induction false} WithoutShorter(list: seq<nat>, h: nat)
    ensures |Without(list, h)| == |list| - if h in list then 1 else 0
    ensures forall x :: x in Without(list, h) ==> x in list
  {
    if list != [] && list[0] != h {
      WithoutShorter(list[1..], h);
    }
  }

  lemma UnlinkShaped(d: Device, h: nat)
    requires Shaped(d)
    ensures Shaped(Unlink(d, h))
  {
    WithoutShorter(d.list, h);
    var list' := Unlink(d, h).list;
    forall i | 0 <= i < |list'| ensures list'[i] < NHANDLERS {
      assert list'[i] in d.list;
    }
  }

  lemma RecycleShaped(d: Device, h: nat)
    requires Shaped(d) && h < NHANDLERS
    ensures Shaped(Recycle(d, h))
    ensures h in d.list && d.rch[h].path.Some? ==> |Recycle(d, h).list| < |d.list|
  {
    WithoutShorter(d.list, h);
    var list' := Recycle(d, h).list;
    forall i | 0 <= i < |list'| ensures list'[i] < NHANDLERS {
      assert list'[i] in d.list;
    }
  }

  /** `_cleanup_on_bridge_release`: recycles the path's handlers one by one, the
      search starting over after each. */
  function Cleanup(d: Device, path: nat): (r: Device)
    requires Shaped(d)
    ensures Shaped(r)
    decreases |d.list|
  {
    match FirstOfPath(d.rch, d.list, path)
    case None => d
    case Some(h) =>
      RecycleShaped(d, h);
      Cleanup(Recycle(d, h), path)
  }
}
