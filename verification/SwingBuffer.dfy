/** The swinging A/B buffer protocol: the driver's ioctl (acq200_i2o.c), the
    streaming client's loop (htstream.c) and a card that answers requests in the
    order they were sent. */
module SwingBuffer {
  import opened Handlers
  import opened Ids
  import opened Options

  const BUFFERA: nat := 0
  const BUFFERB: nat := 1

  /** What a path's `rchAB` entry refers to: no handler, one still waiting for the
      card, or one whose response has come. `tag` numbers its request. */
  datatype Slot = Empty | Waiting(tag: nat) | Filled(tag: nat, answer: Answer)

  /** A request at the card: read the next block into the given buffer. */
  datatype Pending = Pending(tag: nat, buffer: nat)

  /** The driver's path and the card. The card numbers the blocks it reads out 0, 1,
      ...; `memory` says which block each buffer holds. `reported` lists the requests
      reported full to the client, `givenUp` those recycled without having been. */
  datatype Driver = Driver(
    slots: seq<Slot>,
    abNext: nat,
    sent: nat,
    fifo: seq<Pending>,
    answers: seq<Answer>,
    memory: seq<nat>,
    reported: seq<nat>,
    givenUp: seq<nat>)

  const FreshDriver := Driver([Empty, Empty], BUFFERA, 0, [], [], [0, 0], [], [])

  /** The status part of the ioctl's argument. */
  datatype Status = Status(full: seq<bool>, eof: bool, len: seq<nat>)

  /** How an ioctl's wait for the next buffer may end if that has not been full from the
      start: when it gets full or the time runs out; when the time runs out, without another
      look at the buffer; or when it gets full or a signal comes. A signal may also come
      before the ioctl has the device. */
  datatype Wait = Timed | TimedOut | Interrupted | NotEntered

  /** What happens around one ioctl: the card's answers while it waits, between its
      two looks at the buffers, and from its return until the client is done with
      the buffers and calls again; and how it ends. */
  datatype Env = Env(during: seq<Answer>, between: seq<Answer>, after: seq<Answer>, wait: Wait)

  function Other(b: nat): nat {
    if b == BUFFERA then BUFFERB else BUFFERA
  }

  function Length(a: Answer): nat {
    match a
    case Data(_, nsamples) => 2 * nsamples
    case Error => 0
  }

  predicate Formed(d: Driver) {
    && |d.slots| == 2 && |d.memory| == 2 && d.abNext < 2
    && forall i :: 0 <= i < |d.fifo| ==> d.fifo[i].buffer < 2
  }

  /** The id that request number `tag` carries, and its handler with it. */
  function Id(tag: nat): nat {
    MakeId(tag + 1)
  }

  predicate HasId(slot: Slot, id: nat) {
    !slot.Empty? && Id(slot.tag) == id
  }

  /** The slot of the first listed handler carrying the id. Handlers are listed in the
      order of their requests, until they are recycled. */
  function FindSlot(slots: seq<Slot>, id: nat): (r: Option<nat>)
    requires |slots| == 2
    ensures r.Some? ==> r.value < 2 && HasId(slots[r.value], id)
  {
    var first :=
      if !slots[BUFFERA].Empty? && !slots[BUFFERB].Empty? && slots[BUFFERB].tag < slots[BUFFERA].tag then BUFFERB
      else BUFFERA;
    if HasId(slots[first], id) then Some(first)
    else if HasId(slots[Other(first)], id) then Some(Other(first))
    else None
  }

  /** The handler takes the answer, even if it has had one. */
  function TakeAnswer(slots: seq<Slot>, id: nat, a: Answer): (r: seq<Slot>)
    requires |slots| == 2
    ensures |r| == 2
  {
    match FindSlot(slots, id)
    case None => slots
    case Some(b) => slots[b := Filled(slots[b].tag, a)]
  }

  /** The card answers its oldest request, if it has one: it fills the buffer, and the
      response goes to the first listed handler with the request's id. */
  function AnswerOne(d: Driver, a: Answer): (r: Driver)
    requires Formed(d)
    ensures Formed(r)
  {
    if d.fifo == [] then d
    else
      var p := d.fifo[0];
      d.(fifo := d.fifo[1..], answers := d.answers + [a], memory := d.memory[p.buffer := |d.answers|],
         slots := TakeAnswer(d.slots, Id(p.tag), a))
  }

  function AnswerAll(d: Driver, answers: seq<Answer>): (r: Driver)
    requires Formed(d)
    ensures Formed(r)
    decreases |answers|
  {
    if answers == [] then d else AnswerAll(AnswerOne(d, answers[0]), answers[1..])
  }

  function RecycleSlot(d: Driver, b: nat): (r: Driver)
    requires Formed(d) && b < 2
    ensures Formed(r)
  {
    if d.slots[b].Empty? then d
    else
      d.(slots := d.slots[b := Empty],
         givenUp := d.givenUp + if d.slots[b].tag in d.reported then [] else [d.slots[b].tag])
  }

  function QueueSlot(d: Driver, b: nat): (r: Driver)
    requires Formed(d) && b < 2
    ensures Formed(r)
  {
    if !d.slots[b].Empty? then d
    else d.(slots := d.slots[b := Waiting(d.sent)], sent := d.sent + 1, fifo := d.fifo + [Pending(d.sent, b)])
  }

  /** `acq200_bufferABrecycle`. */
  function TakeBack(d: Driver, recycle: seq<bool>): (r: Driver)
    requires Formed(d) && |recycle| == 2
    ensures Formed(r)
  {
    var d1 := if recycle[BUFFERA] then RecycleSlot(d, BUFFERA) else d;
    if recycle[BUFFERB] then RecycleSlot(d1, BUFFERB) else d1
  }

  /** Recycles the buffers the client gives back, then queues those not queued, A first. */
  function Prepare(d: Driver, recycle: seq<bool>): (r: Driver)
    requires Formed(d) && |recycle| == 2
    ensures Formed(r)
  {
    QueueSlot(QueueSlot(TakeBack(d, recycle), BUFFERA), BUFFERB)
  }

  function FillStatus(d: Driver, ds: Status): (r: (Driver, Status, bool))
    requires Formed(d) && |ds.full| == 2 == |ds.len|
    ensures Formed(r.0) && |r.1.full| == 2 == |r.1.len|
  {
    var b := d.abNext;
    if !d.slots[b].Filled? then (d, ds, false)
    else
      var len := Length(d.slots[b].answer);
      (d.(abNext := Other(b), reported := d.reported + [d.slots[b].tag]),
       Status(ds.full[b := true], ds.eof || len == 0, ds.len[b := len]),
       true)
  }

  datatype Reply = Ok(ds: Status) | Failed(timeout: bool) | Refused

  /** Whether the wait ends with the next buffer found full, `d0` being the driver at its
      beginning and `d1` at its end. */
  predicate FoundFull(d0: Driver, d1: Driver, wait: Wait)
    requires Formed(d0) && Formed(d1)
  {
    d1.slots[d1.abNext].Filled? && (wait.TimedOut? ==> d0.slots[d0.abNext].Filled?)
  }

  /** `acq200_ioctlAB` and `acq200_bufferABaction`. */
  function Action(d: Driver, recycle: seq<bool>, ds: Status, env: Env): (r: (Driver, Reply))
    requires Formed(d) && |recycle| == 2 && |ds.full| == 2 == |ds.len|
    ensures Formed(r.0) && (r.1.Ok? ==> |r.1.ds.full| == 2 == |r.1.ds.len|)
  {
    if env.wait.NotEntered? then (d, Refused)
    else
      var d0 := Prepare(d, recycle);
      var d1 := AnswerAll(d0, env.during);
      if FoundFull(d0, d1, env.wait) then
        var (d2, ds2, _) := FillStatus(d1, Status([false, false], false, ds.len));
        var (d3, ds3, _) := FillStatus(AnswerAll(d2, env.between), ds2);
        (d3, Ok(ds3))
      else (d1, Failed(!env.wait.Interrupted?))
  }

  /** One successful ioctl: the first buffer processed and how many. */
  datatype Burst = Burst(start: nat, count: nat)

  /** The client's variables. `delivered` lists the blocks it found in the buffers it
      processed, `bursts` its successful ioctls; `retrying` says that its last ioctl failed
      after the driver had taken back the buffers in `recycle`. */
  datatype Client = Client(
    next: nat,
    recycle: seq<bool>,
    ds: Status,
    total: nat,          // a 64-bit sum
    timeouts: nat,
    started: bool,
    stopped: bool,
    retrying: bool,
    delivered: seq<nat>,
    bursts: seq<Burst>)

  const FreshClient :=
    Client(BUFFERA, [false, false], Status([false, false], false, [0, 0]), 0, 0, false, false, false, [], [])

  const TWO_TO_THE_64: nat := 0x1_0000_0000_0000_0000

  predicate ClientFormed(c: Client) {
    c.next < 2 && |c.recycle| == 2 && |c.ds.full| == 2 == |c.ds.len|
  }

  /** The client processes buffer `next` and turns to the other one. */
  function Process(c: Client, memory: seq<nat>): (r: Client)
    requires ClientFormed(c) && |memory| == 2
    ensures ClientFormed(r)
  {
    c.(total := (c.total + c.ds.len[c.next]) % TWO_TO_THE_64, recycle := c.recycle[c.next := true],
       delivered := c.delivered + [memory[c.next]], next := Other(c.next))
  }

  /** The client's loop body after a successful ioctl. */
  function Succeed(c: Client, ds: Status, memory: seq<nat>): (r: Client)
    requires ClientFormed(c) && |ds.full| == 2 == |ds.len| && |memory| == 2
    ensures ClientFormed(r)
  {
    var c1 := c.(ds := ds, timeouts := 0, started := true, retrying := false, recycle := [false, false]);
    var c2 := if ds.full[c1.next] then Process(c1, memory) else c1;
    var c3 := if ds.full[c1.next] && ds.full[c2.next] then Process(c2, memory) else c2;
    c3.(stopped := ds.eof, bursts := c.bursts + [Burst(c.next, |c3.delivered| - |c.delivered|)])
  }

  function Fail(c: Client, timeout: bool, maxTimeouts: nat): Client {
    var timeouts := if timeout && c.started then c.timeouts + 1 else c.timeouts;
    c.(retrying := true, timeouts := timeouts, stopped := timeout && c.started && timeouts >= maxTimeouts)
  }

  datatype System = System(driver: Driver, client: Client)

  const FreshSystem := System(FreshDriver, FreshClient)

  predicate SystemFormed(s: System) {
    Formed(s.driver) && ClientFormed(s.client)
  }

  /** One turn of the client's loop. */
  function Turn(s: System, env: Env, maxTimeouts: nat): (r: System)
    requires SystemFormed(s)
    ensures SystemFormed(r)
  {
    if s.client.stopped then s
    else
      var (d, reply) := Action(s.driver, s.client.recycle, s.client.ds, env);
      var d' := AnswerAll(d, env.after);
      match reply
      case Ok(ds) => System(d', Succeed(s.client, ds, d'.memory))
      case Failed(timeout) => System(d', Fail(s.client, timeout, maxTimeouts))
      case Refused => System(d', s.client)
  }

  function Run(s: System, envs: seq<Env>, maxTimeouts: nat): (r: System)
    requires SystemFormed(s)
    ensures SystemFormed(r)
    decreases |envs|
  {
    if envs == [] then s else Run(Turn(s, envs[0], maxTimeouts), envs[1..], maxTimeouts)
  }
}
