/** The swinging-buffer protocol as the code runs it: the driver's path, updated in
    place, and the client's streaming loop, each proved to do what the protocol's
    step functions say. */
module SwingStream {
  import opened Handlers
  import opened SwingBuffer
  import opened SwingRuns
  import opened SwingLosses
  import opened SwingEnds

  class Path {
    const rchAB: array<Slot>
    var abNext: nat
    var sent: nat
    var fifo: seq<Pending>
    var answers: seq<Answer>
    var memory: seq<nat>
    ghost var reported: seq<nat>
    ghost var givenUp: seq<nat>

    ghost function State(): Driver
      reads this, rchAB
    {
      Driver(rchAB[..], abNext, sent, fifo, answers, memory, reported, givenUp)
    }

    ghost predicate Valid()
      reads this, rchAB
    {
      rchAB.Length == 2 && Formed(State())
    }

    constructor ()
      ensures Valid() && fresh(rchAB) && State() == FreshDriver
    {
      rchAB := new Slot[2](_ => Empty);
      abNext, sent, fifo, answers, memory, reported, givenUp := BUFFERA, 0, [], [], [0, 0], [], [];
      new;
      assert rchAB[..] == [Empty, Empty];
    }

    /** The card works through its queue. */
    method CardAnswers(batch: seq<Answer>)
      requires Valid()
      modifies this, rchAB
      ensures Valid() && State() == AnswerAll(old(State()), batch)
    {
      var i := 0;
      while i < |batch| && fifo != []
        invariant 0 <= i <= |batch| && Valid()
        invariant AnswerAll(old(State()), batch) == AnswerAll(State(), batch[i..])
      {
        CardAnswersOne(batch[i]);
        assert batch[i..][1..] == batch[i + 1..];
        i := i + 1;
      }
      IdleCard(State(), batch[i..]);
    }

    lemma {:induction false} IdleCard(d: Driver, batch: seq<Answer>)
      requires Formed(d) && (d.fifo == [] || batch == [])
      ensures AnswerAll(d, batch) == d
      decreases |batch|
    {
      if batch != [] {
        IdleCard(d, batch[1..]);
      }
    }

    method CardAnswersOne(a: Answer)
      requires Valid() && fifo != []
      modifies this, rchAB
      ensures Valid() && State() == AnswerOne(old(State()), a)
    {
      var p := fifo[0];
      memory := memory[p.buffer := |answers|];
      var found := FindSlot(rchAB[..], Id(p.tag));
      if found.Some? {
        rchAB[found.value] := Filled(rchAB[found.value].tag, a);
      }
      fifo, answers := fifo[1..], answers + [a];
    }

    method Recycle(ibuf: nat)
      requires Valid() && ibuf < 2
      modifies this`givenUp, rchAB
      ensures Valid() && State() == RecycleSlot(old(State()), ibuf)
    {
      if !rchAB[ibuf].Empty? {
        givenUp := givenUp + if rchAB[ibuf].tag in reported then [] else [rchAB[ibuf].tag];
        rchAB[ibuf] := Empty;
      }
    }

    method BufferAbRecycle(recycle: seq<bool>)
      requires Valid() && |recycle| == 2
      modifies this`givenUp, rchAB
      ensures Valid() && State() == TakeBack(old(State()), recycle)
    {
      if recycle[BUFFERA] {
        Recycle(BUFFERA);
      }
      if recycle[BUFFERB] {
        Recycle(BUFFERB);
      }
    }

    method BufferAbQueue(buffer: nat)
      requires Valid() && buffer < 2 && rchAB[buffer].Empty?
      modifies this`sent, this`fifo, rchAB
      ensures Valid() && State() == QueueSlot(old(State()), buffer)
    {
      rchAB[buffer] := Waiting(sent);
      fifo := fifo + [Pending(sent, buffer)];
      sent := sent + 1;
    }

    method FillDeviceStatus(ds: Status) returns (r: Status, filled: bool)
      requires Valid() && |ds.full| == 2 == |ds.len|
      modifies this`abNext, this`reported
      ensures Valid() && (State(), r, filled) == FillStatus(old(State()), ds)
    {
      var buffer := abNext;
      if !rchAB[buffer].Filled? {
        return ds, false;
      }
      var nbytes := Length(rchAB[buffer].answer);
      r := ds.(full := ds.full[buffer := true], len := ds.len[buffer := nbytes]);
      if nbytes == 0 {
        r := r.(eof := true);
      }
      abNext := if buffer == BUFFERA then BUFFERB else BUFFERA;
      reported := reported + [rchAB[buffer].tag];
      return r, true;
    }

    method PrepareBuffers(recycle: seq<bool>)
      requires Valid() && |recycle| == 2
      modifies this`sent, this`fifo, this`givenUp, rchAB
      ensures Valid() && State() == Prepare(old(State()), recycle)
    {
      BufferAbRecycle(recycle);
      if rchAB[BUFFERA].Empty? {
        BufferAbQueue(BUFFERA);
      }
      if rchAB[BUFFERB].Empty? {
        BufferAbQueue(BUFFERB);
      }
    }

    method BufferAbAction(recycle: seq<bool>, ds: Status, env: Env) returns (reply: Reply)
      requires Valid() && |recycle| == 2 && |ds.full| == 2 == |ds.len|
      modifies this, rchAB
      ensures Valid() && (State(), reply) == Action(old(State()), recycle, ds, env)
    {
      if env.wait.NotEntered? {
        return Refused;
      }
      PrepareBuffers(recycle);
      var full := rchAB[abNext].Filled?;
      CardAnswers(env.during);
      if !rchAB[abNext].Filled? || (env.wait.TimedOut? && !full) {
        return Failed(!env.wait.Interrupted?);
      }
      var status, more := FillDeviceStatus(ds.(full := [false, false], eof := false));
      CardAnswers(env.between);
      if more {
        status, more := FillDeviceStatus(status);
      }
      return Ok(status);
    }
  }

  /** One turn of the client's loop, over the driver. */
  method TurnOnce(path: Path, c: Client, env: Env, maxTimeouts: nat) returns (r: Client)
    requires path.Valid() && ClientFormed(c) && !c.stopped
    modifies path, path.rchAB
    ensures path.Valid() && System(path.State(), r) == Turn(System(old(path.State()), c), env, maxTimeouts)
  {
    var reply := path.BufferAbAction(c.recycle, c.ds, env);
    path.CardAnswers(env.after);
    match reply {
      case Ok(ds) =>
        r := Work(c, ds, path.memory);
      case Failed(timeout) =>
        r := Retry(c, timeout, maxTimeouts);
      case Refused =>
        r := c;
    }
  }

  lemma RunOnce(s: System, envs: seq<Env>, i: nat, maxTimeouts: nat)
    requires SystemFormed(s) && i < |envs|
    ensures Run(s, envs[i..], maxTimeouts) == Run(Turn(s, envs[i], maxTimeouts), envs[i + 1..], maxTimeouts)
  {
    assert envs[i..][1..] == envs[i + 1..];
  }

  /** The client's loop, over as many ioctls as the script has or until it stops. With
      a fresh path it makes exactly the protocol's run, whose properties it inherits. */
  method Stream(path: Path, script: seq<Env>, maxTimeouts: nat) returns (c: Client)
    requires path.Valid() && path.State() == FreshDriver
    modifies path, path.rchAB
    ensures path.Valid() && System(path.State(), c) == Run(FreshSystem, script, maxTimeouts)
    ensures c.next == path.abNext
    ensures c.stopped <==> Ends(Replies(FreshSystem, [], script, maxTimeouts), maxTimeouts)
    ensures path.givenUp == [] <==> CleanRun(FreshSystem, script, maxTimeouts)
    ensures UnusedIds(FreshSystem, script, maxTimeouts) ==>
      && c.delivered == path.reported && NoDuplicates(c.delivered)
      && ((exists t: nat :: Missing(System(path.State(), c), t)) <==> !CleanRun(FreshSystem, script, maxTimeouts))
  {
    c := FreshClient;
    var i := 0;
    while i < |script| && !c.stopped
      invariant 0 <= i <= |script| && path.Valid() && ClientFormed(c)
      invariant Run(FreshSystem, script, maxTimeouts) == Run(System(path.State(), c), script[i..], maxTimeouts)
    {
      RunOnce(System(path.State(), c), script, i, maxTimeouts);
      c := TurnOnce(path, c, script[i], maxTimeouts);
      i := i + 1;
    }
    if c.stopped {
      StoppedStays(System(path.State(), c), script[i..], maxTimeouts);
    }
    RunInLockstep(FreshSystem, script, maxTimeouts);
    RequestsGivenUpIffRetried(script, maxTimeouts);
    StoppedIff(script, maxTimeouts);
    if UnusedIds(FreshSystem, script, maxTimeouts) {
      EveryBlockAccountedFor(script, maxTimeouts);
      BlocksMissingIffRetried(script, maxTimeouts);
    }
  }

  /** Works through the buffers an ioctl reported, in turn from `next`. */
  method Work(c: Client, ds: Status, memory: seq<nat>) returns (r: Client)
    requires ClientFormed(c) && |ds.full| == 2 == |ds.len| && |memory| == 2
    ensures r == Succeed(c, ds, memory)
  {
    var next, total, recycle, delivered := c.next, c.total, [false, false], c.delivered;
    if ds.full[next] {
      total := (total + ds.len[next]) % TWO_TO_THE_64;
      recycle, delivered := recycle[next := true], delivered + [memory[next]];
      next := Other(next);
      if ds.full[next] {
        total := (total + ds.len[next]) % TWO_TO_THE_64;
        recycle, delivered := recycle[next := true], delivered + [memory[next]];
        next := Other(next);
      }
    }
    r := Client(next, recycle, ds, total, 0, true, ds.eof, false, delivered,
                c.bursts + [Burst(c.next, |delivered| - |c.delivered|)]);
  }

  method Retry(c: Client, timeout: bool, maxTimeouts: nat) returns (r: Client)
    requires !c.stopped
    ensures r == Fail(c, timeout, maxTimeouts)
  {
    r := c.(retrying := true);
    if timeout && c.started {
      r := r.(timeouts := c.timeouts + 1);
      if r.timeouts >= maxTimeouts {
        r := r.(stopped := true);
      }
    }
  }
}
