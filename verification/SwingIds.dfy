/** When the ids of the swinging-buffer protocol route the card's answers: exactly when no
    request uses an id still carried, for which few requests at the card are enough. */
module SwingIds {
  import opened Handlers
  import opened Ids
  import opened Options
  import opened SwingBuffer
  import opened SwingRuns
  import opened SwingLosses

  // Routing, exactly.

  /** Every answer the card may give goes to the slot of its own request, if that is left. */
  ghost predicate Routes(d: Driver) {
    && Formed(d)
    && forall i :: 0 <= i < |d.fifo| ==>
         match FindSlot(d.slots, Id(d.fifo[i].tag))
         case None => !Carries(d.slots[BUFFERA], d.fifo[i].tag) && !Carries(d.slots[BUFFERB], d.fifo[i].tag)
         case Some(b) => d.slots[b].tag == d.fifo[i].tag
  }

  lemma RoutesIffApart(d: Driver)
    requires Ranged(d)
    ensures Routes(d) <==> Apart(d)
  {
    if Routes(d) {
      forall b: nat, i: nat | b < 2 && i < |d.fifo| && HasId(d.slots[b], Id(d.fifo[i].tag))
        ensures d.slots[b].tag == d.fifo[i].tag
      {
        RoutedIsOwn(d, b, i);
      }
    }
  }

  /** Of two slots with the id of a request at the card the younger would be waiting too, and
      its answer go to the older. */
  lemma RoutedIsOwn(d: Driver, b: nat, i: nat)
    requires Ranged(d) && Routes(d) && b < 2 && i < |d.fifo| && HasId(d.slots[b], Id(d.fifo[i].tag))
    ensures d.slots[b].tag == d.fifo[i].tag
  {
    assert d.slots[b].Waiting? ==> d.fifo[d.slots[b].tag - |d.answers|].tag == d.slots[b].tag;
  }

  lemma ApartBefore(d: Driver, b: nat)
    requires Formed(d) && b < 2 && Apart(QueueSlot(d, b))
    ensures Apart(d)
  {
    var d' := QueueSlot(d, b);
    forall c: nat, i: nat | c < 2 && i < |d.fifo| && HasId(d.slots[c], Id(d.fifo[i].tag))
      ensures d.slots[c].tag == d.fifo[i].tag
    {
      assert d'.slots[c] == d.slots[c] && d'.fifo[i] == d.fifo[i];
    }
  }

  lemma QueueRanged(d: Driver, b: nat)
    requires Ranged(d) && b < 2
    ensures Ranged(QueueSlot(d, b))
  {
  }

  lemma PrepareRoutesIff(d: Driver, recycle: seq<bool>)
    requires InOrder(d) && |recycle| == 2
    ensures Routes(Prepare(d, recycle)) <==> FreshIds(d, recycle)
  {
    var d1 := TakeBack(d, recycle);
    var d2 := QueueSlot(d1, BUFFERA);
    TakeBackInOrder(d, recycle);
    QueueRanged(d1, BUFFERA);
    QueueRanged(d2, BUFFERB);
    RoutesIffApart(QueueSlot(d2, BUFFERB));
    if d1.slots[BUFFERA].Empty? {
      QueueApartIff(d1, BUFFERA);
    }
    if Apart(d2) {
      if d2.slots[BUFFERB].Empty? {
        QueueApartIff(d2, BUFFERB);
      }
    } else if Apart(QueueSlot(d2, BUFFERB)) {
      ApartBefore(d2, BUFFERB);
    }
  }

  lemma TakeBackInOrder(d: Driver, recycle: seq<bool>)
    requires InOrder(d) && |recycle| == 2
    ensures InOrder(TakeBack(d, recycle))
  {
    RecycleInOrder(d, BUFFERA);
    RecycleInOrder(d, BUFFERB);
    RecycleInOrder(RecycleSlot(d, BUFFERA), BUFFERB);
  }

  /** Answers are routed to their own requests between ioctls, and when the requests of each
      have been made. */
  ghost predicate RoutesThroughout(s: System, envs: seq<Env>, maxTimeouts: nat)
    requires SystemFormed(s)
    decreases |envs|
  {
    && Routes(s.driver)
    && (envs == [] ||
        ((!s.client.stopped && !envs[0].wait.NotEntered? ==> Routes(Prepare(s.driver, s.client.recycle)))
         && RoutesThroughout(Turn(s, envs[0], maxTimeouts), envs[1..], maxTimeouts)))
  }

  lemma {:induction false} RoutesIffUnused(s: System, envs: seq<Env>, maxTimeouts: nat)
    requires Kept(s)
    ensures RoutesThroughout(s, envs, maxTimeouts) <==> UnusedIds(s, envs, maxTimeouts)
    decreases |envs|
  {
    RoutesIffApart(s.driver);
    if envs != [] {
      PrepareRoutesIff(s.driver, s.client.recycle);
      if TurnFresh(s, envs[0]) {
        TurnKeeps(s, envs[0], maxTimeouts);
        RoutesIffUnused(Turn(s, envs[0], maxTimeouts), envs[1..], maxTimeouts);
      }
    }
  }

  /** In every run, whatever fails, each answer the card may give goes to its own request's
      slot throughout if and only if no request is made with an id that a slot or a request at
      the card still carries. */
  lemma RoutedIffIdsUnused(envs: seq<Env>, maxTimeouts: nat)
    ensures RoutesThroughout(FreshSystem, envs, maxTimeouts) <==> UnusedIds(FreshSystem, envs, maxTimeouts)
  {
    FreshKept();
    RoutesIffUnused(FreshSystem, envs, maxTimeouts);
  }

  // Recent requests use no id still carried.

  /** No request at the card and no handler is 128 or more sends old. */
  ghost predicate Recent(d: Driver) {
    && Formed(d)
    && (forall i :: 0 <= i < |d.fifo| ==> d.sent - d.fifo[i].tag <= 0x80)
    && (forall b: nat :: b < 2 && !d.slots[b].Empty? ==> d.sent - d.slots[b].tag <= 0x80)
  }

  lemma RecentUnused(d: Driver, b: nat)
    requires Ranged(d) && b < 2 && d.slots[b].Empty? && Recent(QueueSlot(d, b))
    ensures IdUnused(d)
  {
    var d' := QueueSlot(d, b);
    forall t: nat | d.sent - 0x7f <= t < d.sent ensures Id(t) != Id(d.sent) {
      RecentIds(t, d.sent);
    }
    assert forall i :: 0 <= i < |d.fifo| ==> d'.fifo[i] == d.fifo[i];
    assert forall c: nat :: c < 2 && !d.slots[c].Empty? ==> d'.slots[c] == d.slots[c];
  }

  /** What is recent after a request was so before it. */
  lemma RecentBefore(d: Driver, b: nat)
    requires Formed(d) && b < 2 && Recent(QueueSlot(d, b))
    ensures Recent(d)
  {
    var d' := QueueSlot(d, b);
    assert forall i :: 0 <= i < |d.fifo| ==> d'.fifo[i] == d.fifo[i];
    assert forall c: nat :: c < 2 && !d.slots[c].Empty? ==> d'.slots[c] == d.slots[c];
  }

  lemma RecentFresh(d: Driver, recycle: seq<bool>)
    requires InOrder(d) && |recycle| == 2 && Recent(Prepare(d, recycle))
    ensures FreshIds(d, recycle)
  {
    var d1 := TakeBack(d, recycle);
    var d2 := QueueSlot(d1, BUFFERA);
    TakeBackInOrder(d, recycle);
    QueueRanged(d1, BUFFERA);
    RecentBefore(d2, BUFFERB);
    if d1.slots[BUFFERA].Empty? {
      RecentUnused(d1, BUFFERA);
    }
    if d2.slots[BUFFERB].Empty? {
      RecentUnused(d2, BUFFERB);
    }
  }

  /** When the turn has made its requests, nothing is 128 or more sends old. */
  ghost predicate InTime(s: System, env: Env)
    requires SystemFormed(s)
  {
    !s.client.stopped && !env.wait.NotEntered? ==> Recent(Prepare(s.driver, s.client.recycle))
  }

  ghost predicate RecentRun(s: System, envs: seq<Env>, maxTimeouts: nat)
    requires SystemFormed(s)
    decreases |envs|
  {
    envs == [] || (InTime(s, envs[0]) && RecentRun(Turn(s, envs[0], maxTimeouts), envs[1..], maxTimeouts))
  }

  lemma {:induction false} RecentUseFreshIds(s: System, envs: seq<Env>, maxTimeouts: nat)
    requires Kept(s) && RecentRun(s, envs, maxTimeouts)
    ensures UnusedIds(s, envs, maxTimeouts)
    decreases |envs|
  {
    if envs != [] {
      if !s.client.stopped && !envs[0].wait.NotEntered? {
        RecentFresh(s.driver, s.client.recycle);
      }
      TurnKeeps(s, envs[0], maxTimeouts);
      RecentUseFreshIds(Turn(s, envs[0], maxTimeouts), envs[1..], maxTimeouts);
    }
  }

  /** A run after whose requests nothing is ever 128 or more sends old uses no id still
      carried. */
  lemma RecentKeepIdsApart(envs: seq<Env>, maxTimeouts: nat)
    requires RecentRun(FreshSystem, envs, maxTimeouts)
    ensures UnusedIds(FreshSystem, envs, maxTimeouts)
  {
    FreshKept();
    RecentUseFreshIds(FreshSystem, envs, maxTimeouts);
  }

  // Few requests at the card are recent.

  /** Between ioctls: the client gives back the buffer that is not next whenever it gives
      back the next, and, unless it has had none yet, always; a next buffer it does not
      give back was asked for at most 127 sends ago. */
  ghost predicate Paced(d: Driver, recycle: seq<bool>) {
    && Formed(d) && |recycle| == 2
    && var n := d.abNext;
    && (recycle[n] ==> recycle[Other(n)])
    && (if d.sent == 0 then d.slots == [Empty, Empty] && recycle == [false, false]
        else !d.slots[BUFFERA].Empty? && !d.slots[BUFFERB].Empty?)
    && (!recycle[Other(n)] ==> d.sent <= 2)
    && (!recycle[n] && d.sent > 0 ==> d.sent - d.slots[n].tag <= 0x7f)
  }

  ghost predicate Timely(s: System) {
    SystemFormed(s) && Paced(s.driver, s.client.recycle)
  }

  lemma AnswersPaced(d: Driver, recycle: seq<bool>, answers: seq<Answer>)
    requires Accounted(d) && Paced(d, recycle)
    ensures Paced(AnswerAll(d, answers), recycle)
  {
    AnswersAccounted(d, answers);
  }

  /** If the turn makes requests, at most 127 are then at the card. */
  predicate FewAfter(s: System, env: Env)
    requires SystemFormed(s)
  {
    !s.client.stopped && !env.wait.NotEntered? ==> |Prepare(s.driver, s.client.recycle).fifo| <= 0x7f
  }

  lemma PrepareFifo(d: Driver, recycle: seq<bool>)
    requires InOrder(d) && |recycle| == 2
    ensures var d' := Prepare(d, recycle);
            forall i :: 0 <= i < |d'.fifo| ==> d'.sent - d'.fifo[i].tag <= |d'.fifo|
  {
    var d1 := TakeBack(d, recycle);
    assert d1.(slots := d.slots, givenUp := d.givenUp) == d;
    var d2 := QueueSlot(d1, BUFFERA);
    assert forall i :: 0 <= i < |d2.fifo| ==> d2.fifo[i].tag == |d.answers| + i;
  }

  lemma PrepareSlots(d: Driver, recycle: seq<bool>)
    requires Formed(d) && |recycle| == 2
    ensures var d' := Prepare(d, recycle);
            && (forall b: nat :: b < 2 ==>
                  !d'.slots[b].Empty? &&
                  if recycle[b] || d.slots[b].Empty? then d'.slots[b].tag >= d.sent else d'.slots[b] == d.slots[b])
            && d'.sent == d.sent + (if recycle[BUFFERA] || d.slots[BUFFERA].Empty? then 1 else 0)
                                 + (if recycle[BUFFERB] || d.slots[BUFFERB].Empty? then 1 else 0)
  {
    var d1 := TakeBack(d, recycle);
    assert d1.sent == d.sent;
    assert forall b: nat :: b < 2 ==> d1.slots[b] == if recycle[b] then Empty else d.slots[b];
  }

  lemma PrepareTimely(s: System)
    requires Kept(s) && Timely(s) && |Prepare(s.driver, s.client.recycle).fifo| <= 0x7f
    ensures var d := Prepare(s.driver, s.client.recycle);
            && Recent(d) && !d.slots[BUFFERA].Empty? && !d.slots[BUFFERB].Empty?
            && d.sent > 0 && (s.client.recycle == [false, false] ==> d.sent <= 2)
  {
    PrepareFifo(s.driver, s.client.recycle);
    PrepareSlots(s.driver, s.client.recycle);
  }

  lemma WaitingAge(d: Driver, b: nat)
    requires InOrder(d) && b < 2 && d.slots[b].Waiting?
    ensures d.sent - d.slots[b].tag <= |d.fifo|
  {
  }

  lemma AnswersShorten(d: Driver, answers: seq<Answer>)
    requires InOrder(d)
    ensures |AnswerAll(d, answers).fifo| <= |d.fifo|
  {
    AnswersInOrder(d, answers);
  }

  /** After both looks, `n` being the buffer waited for. */
  ghost predicate Looked(d: Driver, ds: Status, n: nat) {
    && Accounted(d) && |ds.full| == 2 == |ds.len| && n < 2 && d.sent > 0 && ds.full[n]
    && !d.slots[BUFFERA].Empty? && !d.slots[BUFFERB].Empty?
    && (if ds.full[Other(n)] then d.abNext == n
        else d.abNext == Other(n) && d.sent - d.slots[Other(n)].tag <= 0x7f)
  }

  lemma SecondLookTimely(d2: Driver, ds2: Status, n: nat)
    requires HalfReported(d2, n) && |ds2.full| == 2 == |ds2.len| && ds2.full == [false, false][n := true]
    requires !d2.slots[Other(n)].Empty? && |d2.fifo| <= 0x7f && d2.sent > 0
    ensures var (d3, ds3, _) := FillStatus(d2, ds2); Looked(d3, ds3, n)
  {
    SecondLook(d2, n, ds2);
    if !d2.slots[Other(n)].Filled? {
      WaitingAge(d2, Other(n));
    }
  }

  lemma LooksTimely(d1: Driver, ds: Status, between: seq<Answer>)
    requires Accounted(d1) && Unreported(d1) && d1.slots[d1.abNext].Filled? && |d1.fifo| <= 0x7f
    requires !d1.slots[Other(d1.abNext)].Empty? && d1.sent > 0
    requires |ds.full| == 2 == |ds.len| && ds.full == [false, false]
    ensures var (d2, ds2, _) := FillStatus(d1, ds);
            var (d3, ds3, _) := FillStatus(AnswerAll(d2, between), ds2);
            Looked(d3, ds3, d1.abNext)
  {
    FirstLook(d1, ds, between);
    FillAccounted(d1, ds);
    var (d2, ds2, _) := FillStatus(d1, ds);
    AnswersAccounted(d2, between);
    AnswersShorten(d2, between);
    SecondLookTimely(AnswerAll(d2, between), ds2, d1.abNext);
  }

  lemma SuccessTimely(d3: Driver, ds: Status, c: Client, after: seq<Answer>)
    requires ClientFormed(c) && Looked(d3, ds, c.next)
    ensures var d4 := AnswerAll(d3, after); Timely(System(d4, Succeed(c, ds, d4.memory)))
  {
    AnswersAccounted(d3, after);
    SucceedProcesses(c, ds, AnswerAll(d3, after).memory);
  }

  lemma WaitedTimely(s: System, env: Env)
    requires Kept(s) && Timely(s) && |Prepare(s.driver, s.client.recycle).fifo| <= 0x7f
    ensures var d1 := Waited(s.driver, s.client.recycle, env);
            && Recent(Prepare(s.driver, s.client.recycle)) && FreshIds(s.driver, s.client.recycle)
            && Accounted(d1) && Unreported(d1) && d1.abNext == s.driver.abNext && |d1.fifo| <= 0x7f
            && !d1.slots[BUFFERA].Empty? && !d1.slots[BUFFERB].Empty?
            && d1.sent > 0 && (s.client.recycle == [false, false] ==> d1.sent <= 2)
  {
    var d0 := Prepare(s.driver, s.client.recycle);
    PrepareTimely(s);
    RecentFresh(s.driver, s.client.recycle);
    PrepareAccounted(s.driver, s.client.recycle);
    AnswersAccounted(d0, env.during);
    AnswersShorten(d0, env.during);
    WaitedKeeps(s.driver, s.client.recycle, env);
  }

  /** A wait that fails does so for a request made at most 127 sends ago. */
  lemma FailedAge(d0: Driver, answers: seq<Answer>, wait: Wait)
    requires Accounted(d0) && |d0.fifo| <= 0x7f && !d0.slots[d0.abNext].Empty?
    requires !FoundFull(d0, AnswerAll(d0, answers), wait)
    ensures var d1 := AnswerAll(d0, answers);
            !d1.slots[d1.abNext].Empty? && d1.sent - d1.slots[d1.abNext].tag <= 0x7f
  {
    AnswersAccounted(d0, answers);
    WaitingAge(d0, d0.abNext);
  }

  lemma PacedFrom(d: Driver, d1: Driver, recycle: seq<bool>)
    requires Paced(d, recycle) && Formed(d1) && d1.abNext == d.abNext
    requires !d1.slots[BUFFERA].Empty? && !d1.slots[BUFFERB].Empty?
    requires d1.sent > 0 && (recycle == [false, false] ==> d1.sent <= 2)
    requires d1.sent - d1.slots[d1.abNext].tag <= 0x7f
    ensures Paced(d1, recycle)
  {
  }

  /** `d0` is the driver when the requests have been made. */
  lemma FailedWaitPaced(d: Driver, d0: Driver, recycle: seq<bool>, answers: seq<Answer>, wait: Wait)
    requires Paced(d, recycle) && Accounted(d0) && d0.abNext == d.abNext && |d0.fifo| <= 0x7f
    requires !d0.slots[BUFFERA].Empty? && !d0.slots[BUFFERB].Empty?
    requires d0.sent > 0 && (recycle == [false, false] ==> d0.sent <= 2)
    requires !FoundFull(d0, AnswerAll(d0, answers), wait)
    ensures Accounted(AnswerAll(d0, answers)) && Paced(AnswerAll(d0, answers), recycle)
  {
    FailedAge(d0, answers, wait);
    AnswersAccounted(d0, answers);
    PacedFrom(d, AnswerAll(d0, answers), recycle);
  }

  lemma FailedPaced(s: System, env: Env)
    requires Kept(s) && Timely(s) && |Prepare(s.driver, s.client.recycle).fifo| <= 0x7f
    requires !FoundFull(Prepare(s.driver, s.client.recycle), Waited(s.driver, s.client.recycle, env), env.wait)
    ensures var d1 := Waited(s.driver, s.client.recycle, env);
            Accounted(d1) && Paced(d1, s.client.recycle)
  {
    var d0 := Prepare(s.driver, s.client.recycle);
    PrepareTimely(s);
    RecentFresh(s.driver, s.client.recycle);
    PrepareAccounted(s.driver, s.client.recycle);
    PrepareKeepsTurn(s.driver, s.client.recycle);
    FailedWaitPaced(s.driver, d0, s.client.recycle, env.during, env.wait);
  }

  lemma FailedTurnTimely(s: System, env: Env, maxTimeouts: nat)
    requires Kept(s) && Timely(s) && !s.client.stopped && !env.wait.NotEntered? && FewAfter(s, env)
    requires !Action(s.driver, s.client.recycle, s.client.ds, env).1.Ok?
    ensures Timely(Turn(s, env, maxTimeouts))
  {
    FailedPaced(s, env);
    AnswersPaced(Waited(s.driver, s.client.recycle, env), s.client.recycle, env.after);
  }

  lemma SuccessfulTurnTimely(s: System, env: Env, maxTimeouts: nat)
    requires Kept(s) && Timely(s) && !s.client.stopped && !env.wait.NotEntered? && FewAfter(s, env)
    requires Action(s.driver, s.client.recycle, s.client.ds, env).1.Ok?
    ensures Timely(Turn(s, env, maxTimeouts))
  {
    var d, c := s.driver, s.client;
    WaitedTimely(s, env);
    LooksTimely(Waited(d, c.recycle, env), Status([false, false], false, c.ds.len), env.between);
    var (d3, reply) := Action(d, c.recycle, c.ds, env);
    SuccessTimely(d3, reply.ds, c, env.after);
  }

  lemma TurnTimely(s: System, env: Env, maxTimeouts: nat)
    requires Kept(s) && Timely(s) && FewAfter(s, env)
    ensures InTime(s, env) && TurnFresh(s, env) && Timely(Turn(s, env, maxTimeouts))
  {
    if s.client.stopped {
    } else if env.wait.NotEntered? {
      AnswersPaced(s.driver, s.client.recycle, env.after);
    } else {
      WaitedTimely(s, env);
      if Action(s.driver, s.client.recycle, s.client.ds, env).1.Ok? {
        SuccessfulTurnTimely(s, env, maxTimeouts);
      } else {
        FailedTurnTimely(s, env, maxTimeouts);
      }
    }
  }

  ghost predicate FewAtCard(s: System, envs: seq<Env>, maxTimeouts: nat)
    requires SystemFormed(s)
    decreases |envs|
  {
    envs == [] || (FewAfter(s, envs[0]) && FewAtCard(Turn(s, envs[0], maxTimeouts), envs[1..], maxTimeouts))
  }

  lemma {:induction false} FewAreRecent(s: System, envs: seq<Env>, maxTimeouts: nat)
    requires Kept(s) && Timely(s) && FewAtCard(s, envs, maxTimeouts)
    ensures RecentRun(s, envs, maxTimeouts)
    decreases |envs|
  {
    if envs != [] {
      TurnTimely(s, envs[0], maxTimeouts);
      TurnKeeps(s, envs[0], maxTimeouts);
      FewAreRecent(Turn(s, envs[0], maxTimeouts), envs[1..], maxTimeouts);
    }
  }

  /** Nor does a run with never more than 127 requests at the card. */
  lemma FewKeepIdsApart(envs: seq<Env>, maxTimeouts: nat)
    requires FewAtCard(FreshSystem, envs, maxTimeouts)
    ensures RecentRun(FreshSystem, envs, maxTimeouts) && UnusedIds(FreshSystem, envs, maxTimeouts)
  {
    FreshKept();
    FewAreRecent(FreshSystem, envs, maxTimeouts);
    RecentKeepIdsApart(envs, maxTimeouts);
  }

  /** With 128 at the card ids may meet: when buffer B's handler has just been answered, 127
      later requests for A are at the card, and an ioctl makes one more, the answer to that
      will go to B's handler, which is listed first. */
  lemma OneMoreIsTooMany(d: Driver, a: Answer)
    requires InOrder(d) && d.slots[BUFFERA].Waiting? && |d.fifo| == 127
    requires d.sent >= 128 && d.slots[BUFFERB] == Filled(d.sent - 128, a)
    ensures var d' := Prepare(d, [true, false]);
            && |d'.fifo| == 128 && d'.fifo[127] == Pending(d.sent, BUFFERA)
            && d'.slots[BUFFERA] == Waiting(d.sent) && FindSlot(d'.slots, Id(d.sent)) == Some(BUFFERB)
  {
    SameIdIff(d.sent + 1, d.sent - 127);
  }
}
