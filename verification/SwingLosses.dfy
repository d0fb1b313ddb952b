/** Failing ioctls: which requests a run of the swinging-buffer protocol gives up, which
    blocks the client then misses, and what every run keeps. */
module SwingLosses {
  import opened Handlers
  import opened SwingBuffer
  import opened SwingRuns

  // Requests are given up exactly when an ioctl that took buffers back is repeated.

  lemma PrepareKeepsGivenUp(d: Driver, recycle: seq<bool>)
    requires Formed(d) && |recycle| == 2
    ensures d.givenUp <= Prepare(d, recycle).givenUp
  {
  }

  lemma ActionKeepsGivenUp(d: Driver, recycle: seq<bool>, ds: Status, env: Env)
    requires Formed(d) && |recycle| == 2 && |ds.full| == 2 == |ds.len|
    ensures Action(d, recycle, ds, env).0.givenUp
         == if env.wait.NotEntered? then d.givenUp else Prepare(d, recycle).givenUp
  {
    var d1 := AnswerAll(Prepare(d, recycle), env.during);
    AnswersKeepTurn(Prepare(d, recycle), env.during);
    var (d2, _, _) := FillStatus(d1, Status([false, false], false, ds.len));
    AnswersKeepTurn(d2, env.between);
  }

  lemma TurnKeepsGivenUp(s: System, env: Env, maxTimeouts: nat)
    requires SystemFormed(s)
    ensures s.driver.givenUp <= Turn(s, env, maxTimeouts).driver.givenUp
  {
    if !s.client.stopped {
      var d, c := s.driver, s.client;
      PrepareKeepsGivenUp(d, c.recycle);
      ActionKeepsGivenUp(d, c.recycle, c.ds, env);
      AnswersKeepTurn(Action(d, c.recycle, c.ds, env).0, env.after);
    }
  }

  lemma {:induction false} RunKeepsGivenUp(s: System, envs: seq<Env>, maxTimeouts: nat)
    requires SystemFormed(s)
    ensures s.driver.givenUp <= Run(s, envs, maxTimeouts).driver.givenUp
    decreases |envs|
  {
    if envs != [] {
      TurnKeepsGivenUp(s, envs[0], maxTimeouts);
      RunKeepsGivenUp(Turn(s, envs[0], maxTimeouts), envs[1..], maxTimeouts);
    }
  }

  /** Giving back a buffer that has been queued afresh gives up its request. */
  lemma RetakenIsGivenUp(d: Driver, recycle: seq<bool>)
    requires Retaken(d, recycle) && recycle != [false, false]
    ensures |Prepare(d, recycle).givenUp| > |d.givenUp|
  {
    assert recycle[BUFFERA] || recycle[BUFFERB];
  }

  lemma RetryGivesUp(s: System, env: Env, maxTimeouts: nat)
    requires Clean(s) && UnsafeRetry(s, env)
    ensures Turn(s, env, maxTimeouts).driver.givenUp != []
  {
    var d, c := s.driver, s.client;
    RetakenIsGivenUp(d, c.recycle);
    ActionKeepsGivenUp(d, c.recycle, c.ds, env);
    AnswersKeepTurn(Action(d, c.recycle, c.ds, env).0, env.after);
  }

  lemma {:induction false} GivenUpIff(s: System, envs: seq<Env>, maxTimeouts: nat)
    requires Clean(s)
    ensures Run(s, envs, maxTimeouts).driver.givenUp == [] <==> CleanRun(s, envs, maxTimeouts)
    decreases |envs|
  {
    if envs != [] {
      if UnsafeRetry(s, envs[0]) {
        RetryGivesUp(s, envs[0], maxTimeouts);
        RunKeepsGivenUp(Turn(s, envs[0], maxTimeouts), envs[1..], maxTimeouts);
      } else {
        CleanTurn(s, envs[0], maxTimeouts);
        GivenUpIff(Turn(s, envs[0], maxTimeouts), envs[1..], maxTimeouts);
      }
    }
  }

  /** A run gives up a request, recycling its handler before it is reported, if and only if
      the client ever repeats, inside the driver, a failed ioctl with recycle flags: the
      driver had already queued those buffers again, and the repeat throws away the requests
      made for them. */
  lemma RequestsGivenUpIffRetried(envs: seq<Env>, maxTimeouts: nat)
    ensures Run(FreshSystem, envs, maxTimeouts).driver.givenUp == [] <==> CleanRun(FreshSystem, envs, maxTimeouts)
  {
    FreshClean();
    GivenUpIff(FreshSystem, envs, maxTimeouts);
  }

  // What every run keeps in which no request uses an id still carried.

  predicate Carries(slot: Slot, t: nat) {
    !slot.Empty? && slot.tag == t
  }

  /** Outstanding requests for a buffer are no younger than its slot's, and a full
      buffer holds the block its response reported. */
  ghost predicate Older(d: Driver) {
    && Formed(d)
    && (forall i :: 0 <= i < |d.fifo| && !d.slots[d.fifo[i].buffer].Empty? ==>
          d.fifo[i].tag <= d.slots[d.fifo[i].buffer].tag)
    && (forall b :: 0 <= b < 2 && d.slots[b].Filled? ==> d.memory[b] == d.slots[b].tag)
  }

  /** Every request made was reported once, given up once, or is still held by a slot. */
  ghost predicate Ledger(d: Driver)
    requires Formed(d)
  {
    && NoDuplicates(d.reported) && NoDuplicates(d.givenUp)
    && (forall t :: t in d.reported ==> t < d.sent)
    && (forall t :: t in d.givenUp ==>
          t < d.sent && t !in d.reported && !Carries(d.slots[BUFFERA], t) && !Carries(d.slots[BUFFERB], t))
    && (forall t: nat :: t < d.sent ==>
          t in d.reported || t in d.givenUp || Carries(d.slots[BUFFERA], t) || Carries(d.slots[BUFFERB], t))
    && (forall t: nat :: !(Carries(d.slots[BUFFERA], t) && Carries(d.slots[BUFFERB], t)))
  }

  ghost predicate Accounted(d: Driver) {
    InOrder(d) && Older(d) && Ledger(d)
  }

  lemma AnswerOlder(d: Driver, a: Answer)
    requires InOrder(d) && Older(d)
    ensures Older(AnswerOne(d, a))
  {
    if d.fifo != [] {
      AnswerFindsSlot(d, a);
      var d' := AnswerByRequest(d, a);
      assert forall i :: 0 <= i < |d'.fifo| ==> d'.fifo[i] == d.fifo[i + 1];
    }
  }

  lemma {:induction false} AnswersOlder(d: Driver, answers: seq<Answer>)
    requires InOrder(d) && Older(d)
    ensures Older(AnswerAll(d, answers))
    decreases |answers|
  {
    if answers != [] {
      AnswerInOrder(d, answers[0]);
      AnswerOlder(d, answers[0]);
      AnswersOlder(AnswerOne(d, answers[0]), answers[1..]);
    }
  }

  lemma AnswersAccounted(d: Driver, answers: seq<Answer>)
    requires Accounted(d)
    ensures Accounted(AnswerAll(d, answers)) && Follows(d, AnswerAll(d, answers))
  {
    AnswersInOrder(d, answers);
    AnswersOlder(d, answers);
    var d' := AnswerAll(d, answers);
    assert forall b: nat, t: nat :: b < 2 ==> (Carries(d'.slots[b], t) <==> Carries(d.slots[b], t));
  }

  lemma RecycleLedger(d: Driver, b: nat)
    requires InOrder(d) && Ledger(d) && b < 2
    ensures Ledger(RecycleSlot(d, b))
  {
  }

  lemma RecycleAccounted(d: Driver, b: nat)
    requires Accounted(d) && b < 2
    ensures Accounted(RecycleSlot(d, b))
  {
    RecycleInOrder(d, b);
    RecycleLedger(d, b);
  }

  lemma QueueAccounted(d: Driver, b: nat)
    requires Accounted(d) && b < 2 && (d.slots[b].Empty? ==> IdUnused(d))
    ensures Accounted(QueueSlot(d, b))
  {
    QueueInOrder(d, b);
  }

  lemma FillAccounted(d: Driver, ds: Status)
    requires Accounted(d) && |ds.full| == 2 == |ds.len| && d.slots[d.abNext].Filled?
    requires d.slots[d.abNext].tag !in d.reported
    ensures Accounted(FillStatus(d, ds).0)
  {
  }

  /** No slot's request has been reported yet. */
  ghost predicate Unreported(d: Driver) {
    Formed(d) && forall b: nat :: b < 2 && !d.slots[b].Empty? ==> d.slots[b].tag !in d.reported
  }

  /** The client holds the flag of every slot whose request has been reported. */
  ghost predicate Flagged(d: Driver, recycle: seq<bool>) {
    && Formed(d) && |recycle| == 2
    && forall b: nat :: b < 2 && !d.slots[b].Empty? && d.slots[b].tag in d.reported ==> recycle[b]
  }

  lemma RecycleUnflags(d: Driver, b: nat)
    requires Accounted(d) && b < 2
    ensures var d' := RecycleSlot(d, b);
            Accounted(d') && d'.reported == d.reported && d'.slots == d.slots[b := Empty]
  {
    RecycleAccounted(d, b);
  }

  lemma TakeBackAccounted(d: Driver, recycle: seq<bool>)
    requires Accounted(d) && Flagged(d, recycle)
    ensures var d' := TakeBack(d, recycle);
            Accounted(d') && Unreported(d') && d'.reported == d.reported
  {
    var d1 := if recycle[BUFFERA] then RecycleSlot(d, BUFFERA) else d;
    if recycle[BUFFERA] {
      RecycleUnflags(d, BUFFERA);
    }
    if recycle[BUFFERB] {
      RecycleUnflags(d1, BUFFERB);
    }
  }

  lemma QueueUnreported(d: Driver, b: nat)
    requires Accounted(d) && Unreported(d) && b < 2 && (d.slots[b].Empty? ==> IdUnused(d))
    ensures var d' := QueueSlot(d, b);
            Accounted(d') && Unreported(d') && d'.reported == d.reported
  {
    QueueAccounted(d, b);
  }

  /** No request the ioctl makes uses an id that a slot or a request at the card carries. */
  ghost predicate FreshIds(d: Driver, recycle: seq<bool>)
    requires Formed(d) && |recycle| == 2
  {
    var d1 := TakeBack(d, recycle);
    var d2 := QueueSlot(d1, BUFFERA);
    && (d1.slots[BUFFERA].Empty? ==> IdUnused(d1))
    && (d2.slots[BUFFERB].Empty? ==> IdUnused(d2))
  }

  lemma PrepareAccounted(d: Driver, recycle: seq<bool>)
    requires Accounted(d) && Flagged(d, recycle) && FreshIds(d, recycle)
    ensures var d' := Prepare(d, recycle);
            Accounted(d') && Unreported(d') && d'.reported == d.reported
  {
    var d1 := TakeBack(d, recycle);
    TakeBackAccounted(d, recycle);
    QueueUnreported(d1, BUFFERA);
    QueueUnreported(QueueSlot(d1, BUFFERA), BUFFERB);
  }

  /** After the first look: its slot is reported, the other is not. */
  ghost predicate HalfReported(d: Driver, first: nat) {
    && Accounted(d) && first < 2 && d.abNext == Other(first) && d.slots[first].Filled?
    && (!d.slots[Other(first)].Empty? ==> d.slots[Other(first)].tag !in d.reported)
  }

  lemma AnswersKeepHalf(d: Driver, first: nat, answers: seq<Answer>)
    requires HalfReported(d, first)
    ensures var d' := AnswerAll(d, answers);
            HalfReported(d', first) && d'.reported == d.reported && d'.slots[first] == d.slots[first]
  {
    AnswersAccounted(d, answers);
  }

  lemma FirstLook(d1: Driver, ds: Status, between: seq<Answer>)
    requires Accounted(d1) && Unreported(d1) && d1.slots[d1.abNext].Filled? && |ds.full| == 2 == |ds.len|
    ensures var d2 := AnswerAll(FillStatus(d1, ds).0, between);
            && HalfReported(d2, d1.abNext)
            && d2.reported == d1.reported + [d2.slots[d1.abNext].tag]
  {
    FillAccounted(d1, ds);
    AnswersKeepHalf(FillStatus(d1, ds).0, d1.abNext, between);
  }

  /** After the second look: the flags name the reported slots, which are full. */
  lemma SecondLook(d2: Driver, first: nat, ds: Status)
    requires HalfReported(d2, first) && |ds.full| == 2 == |ds.len| && ds.full == [false, false][first := true]
    ensures var (d3, ds3, both) := FillStatus(d2, ds);
            && Accounted(d3) && Flagged(d3, ds3.full) && d3.slots == d2.slots
            && ds3.full[first] && ds3.full[Other(first)] == both && (both ==> d3.slots[Other(first)].Filled?)
            && d3.reported == d2.reported + (if both then [d3.slots[Other(first)].tag] else [])
            && d3.abNext == (if both then first else Other(first))
  {
    if d2.slots[Other(first)].Filled? {
      FillAccounted(d2, ds);
    } else {
      assert d2.reported + [] == d2.reported;
    }
  }

  /** Between ioctls, in every run. */
  ghost predicate Kept(s: System) {
    && Lockstep(s) && Accounted(s.driver) && s.client.delivered == s.driver.reported
    && Flagged(s.driver, s.client.recycle)
  }

  /** The client's loop body after a successful ioctl, the card reading on meanwhile. */
  lemma SuccessKeeps(d3: Driver, ds: Status, c: Client, after: seq<Answer>, earlier: seq<nat>)
    requires Accounted(d3) && ClientFormed(c) && |ds.full| == 2 == |ds.len|
    requires var n, both := c.next, ds.full[Other(c.next)];
             && Flagged(d3, ds.full) && ds.full[n] && d3.slots[n].Filled? && (both ==> d3.slots[Other(n)].Filled?)
             && c.delivered == earlier
             && d3.reported == earlier + [d3.slots[n].tag] + (if both then [d3.slots[Other(n)].tag] else [])
             && d3.abNext == (if both then n else Other(n))
    ensures var d4 := AnswerAll(d3, after);
            Kept(System(d4, Succeed(c, ds, d4.memory)))
  {
    AnswersAccounted(d3, after);
    SucceedProcesses(c, ds, AnswerAll(d3, after).memory);
  }

  lemma WaitedKeeps(d: Driver, recycle: seq<bool>, env: Env)
    requires Accounted(d) && Flagged(d, recycle) && FreshIds(d, recycle)
    ensures var d1 := Waited(d, recycle, env);
            Accounted(d1) && Unreported(d1) && d1.reported == d.reported && d1.abNext == d.abNext
  {
    PrepareAccounted(d, recycle);
    AnswersAccounted(Prepare(d, recycle), env.during);
  }

  lemma SuccessfulTurnKeeps(s: System, env: Env, maxTimeouts: nat)
    requires Kept(s) && !s.client.stopped && FreshIds(s.driver, s.client.recycle)
    requires Action(s.driver, s.client.recycle, s.client.ds, env).1.Ok?
    ensures Kept(Turn(s, env, maxTimeouts))
  {
    var d, c := s.driver, s.client;
    var d1, clear := Waited(d, c.recycle, env), Status([false, false], false, c.ds.len);
    WaitedKeeps(d, c.recycle, env);
    FirstLook(d1, clear, env.between);
    var (d2, ds2, _) := FillStatus(d1, clear);
    SecondLook(AnswerAll(d2, env.between), c.next, ds2);
    var (d3, reply) := Action(d, c.recycle, c.ds, env);
    SuccessKeeps(d3, reply.ds, c, env.after, c.delivered);
  }

  /** The turn makes no request with an id still carried. */
  ghost predicate TurnFresh(s: System, env: Env)
    requires SystemFormed(s)
  {
    !s.client.stopped && !env.wait.NotEntered? ==> FreshIds(s.driver, s.client.recycle)
  }

  ghost predicate UnusedIds(s: System, envs: seq<Env>, maxTimeouts: nat)
    requires SystemFormed(s)
    decreases |envs|
  {
    envs == [] || (TurnFresh(s, envs[0]) && UnusedIds(Turn(s, envs[0], maxTimeouts), envs[1..], maxTimeouts))
  }

  lemma TurnKeeps(s: System, env: Env, maxTimeouts: nat)
    requires Kept(s) && TurnFresh(s, env)
    ensures Kept(Turn(s, env, maxTimeouts))
  {
    var d, c := s.driver, s.client;
    if s.client.stopped {
    } else if Action(d, c.recycle, c.ds, env).1.Ok? {
      SuccessfulTurnKeeps(s, env, maxTimeouts);
    } else {
      if !env.wait.NotEntered? {
        WaitedKeeps(d, c.recycle, env);
      }
      AnswersAccounted(if env.wait.NotEntered? then d else Waited(d, c.recycle, env), env.after);
    }
  }

  lemma {:induction false} RunKeeps(s: System, envs: seq<Env>, maxTimeouts: nat)
    requires Kept(s) && UnusedIds(s, envs, maxTimeouts)
    ensures Kept(Run(s, envs, maxTimeouts))
    decreases |envs|
  {
    if envs != [] {
      TurnKeeps(s, envs[0], maxTimeouts);
      RunKeeps(Turn(s, envs[0], maxTimeouts), envs[1..], maxTimeouts);
    }
  }

  lemma FreshKept()
    ensures Kept(FreshSystem)
  {
  }

  /** In every run in which no request uses an id still carried, whatever fails: no block is
      delivered twice, or delivered though its request was given up; every block the card has
      read out was delivered, given up or is still held; and what the client finds in a buffer
      is the block that was reported. */
  lemma EveryBlockAccountedFor(envs: seq<Env>, maxTimeouts: nat)
    requires UnusedIds(FreshSystem, envs, maxTimeouts)
    ensures var s := Run(FreshSystem, envs, maxTimeouts);
            var d, delivered := s.driver, s.client.delivered;
            && Formed(d) && delivered == d.reported
            && NoDuplicates(delivered) && NoDuplicates(d.givenUp) && (forall t :: t in d.givenUp ==> t !in delivered)
            && (forall t: nat :: t < |d.answers| ==>
                  t in delivered || t in d.givenUp || Carries(d.slots[BUFFERA], t) || Carries(d.slots[BUFFERB], t))
  {
    FreshKept();
    RunKeeps(FreshSystem, envs, maxTimeouts);
  }

  // Blocks the client misses.

  /** The block has been asked for, but was not delivered, and no slot is left for it. */
  ghost predicate Missing(s: System, t: nat) {
    && Formed(s.driver) && t < s.driver.sent && t !in s.client.delivered
    && !Carries(s.driver.slots[BUFFERA], t) && !Carries(s.driver.slots[BUFFERB], t)
  }

  lemma MissingIsGivenUp(s: System, t: nat)
    requires Kept(s)
    ensures Missing(s, t) <==> t in s.driver.givenUp
  {
  }

  lemma SomeMissingIff(s: System)
    requires Kept(s)
    ensures (exists t: nat :: Missing(s, t)) <==> s.driver.givenUp != []
  {
    forall t: nat ensures Missing(s, t) <==> t in s.driver.givenUp {
      MissingIsGivenUp(s, t);
    }
    if s.driver.givenUp != [] {
      assert Missing(s, s.driver.givenUp[0]);
    }
  }

  /** While no request uses an id still carried, the client misses a block if and only if it
      ever repeats, inside the driver, a failed ioctl with recycle flags. */
  lemma BlocksMissingIffRetried(envs: seq<Env>, maxTimeouts: nat)
    requires UnusedIds(FreshSystem, envs, maxTimeouts)
    ensures (exists t: nat :: Missing(Run(FreshSystem, envs, maxTimeouts), t)) <==>
      !CleanRun(FreshSystem, envs, maxTimeouts)
  {
    FreshKept();
    RunKeeps(FreshSystem, envs, maxTimeouts);
    RequestsGivenUpIffRetried(envs, maxTimeouts);
    SomeMissingIff(Run(FreshSystem, envs, maxTimeouts));
  }

  lemma StaysMissing(s: System, more: seq<Env>, maxTimeouts: nat, t: nat)
    requires Kept(s) && Missing(s, t) && UnusedIds(s, more, maxTimeouts)
    ensures Missing(Run(s, more, maxTimeouts), t)
  {
    MissingIsGivenUp(s, t);
    RunKeepsGivenUp(s, more, maxTimeouts);
    RunKeeps(s, more, maxTimeouts);
    MissingIsGivenUp(Run(s, more, maxTimeouts), t);
  }

  /** A block the client misses after such a run it never gets in any such continuation. */
  lemma MissingForever(envs: seq<Env>, s: System, more: seq<Env>, maxTimeouts: nat, t: nat)
    requires UnusedIds(FreshSystem, envs, maxTimeouts) && s == Run(FreshSystem, envs, maxTimeouts)
    requires Missing(s, t) && UnusedIds(s, more, maxTimeouts)
    ensures Missing(Run(s, more, maxTimeouts), t)
  {
    FreshKept();
    RunKeeps(FreshSystem, envs, maxTimeouts);
    StaysMissing(s, more, maxTimeouts, t);
  }

  // Clean runs use no id still carried.

  lemma TakeBackAges(d: Driver, recycle: seq<bool>)
    requires Settled(d, recycle)
    ensures var d1 := TakeBack(d, recycle);
            && InOrder(d1) && Intact(d1) && d1.sent == d.sent
            && (forall c: nat :: c < 2 && !d1.slots[c].Empty? && (d1.slots[BUFFERA].Empty? || d1.slots[BUFFERB].Empty?)
                  ==> d1.sent - d1.slots[c].tag <= 1)
  {
    var d1 := if recycle[BUFFERA] then RecycleSlot(d, BUFFERA) else d;
    if recycle[BUFFERA] {
      RecycleIntact(d, BUFFERA);
    }
    if recycle[BUFFERB] {
      RecycleIntact(d1, BUFFERB);
    }
  }

  lemma SettledFresh(d: Driver, recycle: seq<bool>)
    requires Settled(d, recycle)
    ensures FreshIds(d, recycle)
  {
    TakeBackAges(d, recycle);
    var d1 := TakeBack(d, recycle);
    if d1.slots[BUFFERA].Empty? {
      FewUnused(d1);
      QueueIntact(d1, BUFFERA);
    }
    var d2 := QueueSlot(d1, BUFFERA);
    if d2.slots[BUFFERB].Empty? {
      FewUnused(d2);
    }
  }

  lemma {:induction false} CleanUsesFreshIds(s: System, envs: seq<Env>, maxTimeouts: nat)
    requires Clean(s) && CleanRun(s, envs, maxTimeouts)
    ensures UnusedIds(s, envs, maxTimeouts)
    decreases |envs|
  {
    if envs != [] {
      if !s.client.stopped && !envs[0].wait.NotEntered? {
        SettledFresh(s.driver, s.client.recycle);
      }
      CleanTurn(s, envs[0], maxTimeouts);
      CleanUsesFreshIds(Turn(s, envs[0], maxTimeouts), envs[1..], maxTimeouts);
    }
  }

  /** A client that never repeats such an ioctl misses nothing, whatever the ids. */
  lemma NothingMissingIfClean(envs: seq<Env>, maxTimeouts: nat, t: nat)
    requires CleanRun(FreshSystem, envs, maxTimeouts)
    ensures !Missing(Run(FreshSystem, envs, maxTimeouts), t)
  {
    FreshClean();
    CleanUsesFreshIds(FreshSystem, envs, maxTimeouts);
    BlocksMissingIffRetried(envs, maxTimeouts);
  }
}
