/** What every run of the swinging-buffer protocol keeps: the two parties stay in
    step, blocks are delivered exactly once, and in which order. */
module SwingRuns {
  import opened Bits
  import opened Options
  import opened Handlers
  import opened Ids
  import opened SwingBuffer

  // Lockstep, in every run.

  /** Client and driver mean the same buffer by the next one. */
  ghost predicate Lockstep(s: System) {
    SystemFormed(s) && s.client.next == s.driver.abNext
  }

  lemma {:induction false} AnswersKeepTurn(d: Driver, answers: seq<Answer>)
    requires Formed(d)
    ensures AnswerAll(d, answers).abNext == d.abNext
    ensures AnswerAll(d, answers).reported == d.reported && AnswerAll(d, answers).givenUp == d.givenUp
    ensures AnswerAll(d, answers).sent == d.sent
    decreases |answers|
  {
    if answers != [] {
      AnswersKeepTurn(AnswerOne(d, answers[0]), answers[1..]);
    }
  }

  lemma PrepareKeepsTurn(d: Driver, recycle: seq<bool>)
    requires Formed(d) && |recycle| == 2
    ensures Prepare(d, recycle).abNext == d.abNext && Prepare(d, recycle).reported == d.reported
  {
  }

  /** What an ioctl that succeeds reports: the buffer waited for, perhaps the other. */
  lemma ActionReports(d: Driver, recycle: seq<bool>, ds: Status, env: Env)
    requires Formed(d) && |recycle| == 2 && |ds.full| == 2 == |ds.len|
    ensures var (d', reply) := Action(d, recycle, ds, env);
            match reply
            case Ok(r) =>
              && r.full[d.abNext]
              && d'.abNext == (if r.full[Other(d.abNext)] then d.abNext else Other(d.abNext))
              && |d'.reported| == |d.reported| + (if r.full[Other(d.abNext)] then 2 else 1)
            case _ => d'.abNext == d.abNext && d'.reported == d.reported
  {
    PrepareKeepsTurn(d, recycle);
    var d1 := AnswerAll(Prepare(d, recycle), env.during);
    AnswersKeepTurn(Prepare(d, recycle), env.during);
    if FoundFull(Prepare(d, recycle), d1, env.wait) {
      var (d2, ds2, _) := FillStatus(d1, Status([false, false], false, ds.len));
      AnswersKeepTurn(d2, env.between);
    }
  }

  lemma SucceedProcesses(c: Client, ds: Status, memory: seq<nat>)
    requires ClientFormed(c) && |ds.full| == 2 == |ds.len| && |memory| == 2 && ds.full[c.next]
    ensures var c' := Succeed(c, ds, memory);
            var both := ds.full[Other(c.next)];
            && c'.recycle == ds.full && c'.ds == ds
            && c'.delivered == c.delivered + [memory[c.next]] + (if both then [memory[Other(c.next)]] else [])
            && c'.next == (if both then c.next else Other(c.next))
            && c'.bursts == c.bursts + [Burst(c.next, if both then 2 else 1)]
  {
    assert c.delivered + [memory[c.next]] + [] == c.delivered + [memory[c.next]];
  }

  /** In every turn, timeouts and signals included, the client's and the driver's
      notion of the next buffer stay equal; after a success the client has processed
      one or two buffers and gives back exactly those the driver flagged. */
  lemma TurnInLockstep(s: System, env: Env, maxTimeouts: nat)
    requires Lockstep(s)
    ensures var s' := Turn(s, env, maxTimeouts);
            && Lockstep(s')
            && (s'.client.bursts != s.client.bursts ==>
                  && s'.client.recycle == s'.client.ds.full
                  && var n := |s'.client.delivered| - |s.client.delivered|;
                  && 1 <= n <= 2 && n == |s'.driver.reported| - |s.driver.reported|
                  && s'.client.bursts == s.client.bursts + [Burst(s.client.next, n)]
                  && s'.client.ds.full[s.client.next] && (n == 2 <==> s'.client.ds.full[Other(s.client.next)]))
            && (s'.client.bursts == s.client.bursts ==>
                  && s'.client.delivered == s.client.delivered && s'.client.recycle == s.client.recycle
                  && s'.driver.reported == s.driver.reported)
  {
    if !s.client.stopped {
      var (d, reply) := Action(s.driver, s.client.recycle, s.client.ds, env);
      ActionReports(s.driver, s.client.recycle, s.client.ds, env);
      AnswersKeepTurn(d, env.after);
      if reply.Ok? {
        SucceedProcesses(s.client, reply.ds, AnswerAll(d, env.after).memory);
      }
    }
  }

  lemma {:induction false} RunInLockstep(s: System, envs: seq<Env>, maxTimeouts: nat)
    requires Lockstep(s)
    ensures Lockstep(Run(s, envs, maxTimeouts))
    decreases |envs|
  {
    if envs != [] {
      TurnInLockstep(s, envs[0], maxTimeouts);
      RunInLockstep(Turn(s, envs[0], maxTimeouts), envs[1..], maxTimeouts);
    }
  }

  // The card and the requests.

  /** The card's queue holds the requests not yet answered, in order; a slot's tag is
      its request's number, and its response is that request's answer. */
  ghost predicate SlotOk(d: Driver, b: nat)
    requires Formed(d) && b < 2
  {
    match d.slots[b]
    case Empty => true
    case Waiting(t) => |d.answers| <= t < |d.answers| + |d.fifo| && d.fifo[t - |d.answers|].buffer == b
    case Filled(t, a) => t < |d.answers| && a == d.answers[t]
  }

  /** No slot carries the id of a request at the card but that request's own. */
  ghost predicate Apart(d: Driver)
    requires Formed(d)
  {
    forall b: nat, i: nat :: b < 2 && i < |d.fifo| && HasId(d.slots[b], Id(d.fifo[i].tag)) ==>
      d.slots[b].tag == d.fifo[i].tag
  }

  /** No slot and no request at the card carries the id of the next request. */
  ghost predicate IdUnused(d: Driver)
    requires Formed(d)
  {
    && (forall b: nat :: b < 2 ==> !HasId(d.slots[b], Id(d.sent)))
    && (forall i: nat :: i < |d.fifo| ==> Id(d.fifo[i].tag) != Id(d.sent))
  }

  ghost predicate Ranged(d: Driver) {
    && Formed(d) && |d.answers| + |d.fifo| == d.sent
    && (forall i :: 0 <= i < |d.fifo| ==> d.fifo[i].tag == |d.answers| + i)
    && SlotOk(d, BUFFERA) && SlotOk(d, BUFFERB)
  }

  ghost predicate InOrder(d: Driver) {
    Ranged(d) && Apart(d)
  }

  /** Every request at the card has its handler, and a full buffer still holds the
      block its response reported. */
  ghost predicate Intact(d: Driver) {
    && Formed(d)
    && (forall i :: 0 <= i < |d.fifo| ==> d.slots[d.fifo[i].buffer] == Waiting(d.fifo[i].tag))
    && (forall b :: 0 <= b < 2 && d.slots[b].Filled? ==> d.memory[b] == d.slots[b].tag)
  }

  /** Ids tell requests apart that are less than 128 sends apart. */
  lemma RecentIds(s: nat, t: nat)
    requires -0x80 < s - t < 0x80
    ensures Id(s) == Id(t) <==> s == t
  {
    SameIdIff(s + 1, t + 1);
  }

  /** An answer that reaches the slot waiting for its request, if there is one. */
  ghost function AnswerByRequest(d: Driver, a: Answer): (r: Driver)
    requires Formed(d) && d.fifo != []
    ensures Formed(r)
  {
    var p := d.fifo[0];
    d.(fifo := d.fifo[1..], answers := d.answers + [a], memory := d.memory[p.buffer := |d.answers|],
       slots := if d.slots[p.buffer] == Waiting(p.tag) then d.slots[p.buffer := Filled(p.tag, a)] else d.slots)
  }

  /** While ids are apart, the scan by id brings each response to the slot waiting for it,
      or to none if that has been given up. */
  lemma AnswerFindsSlot(d: Driver, a: Answer)
    requires InOrder(d) && d.fifo != []
    ensures AnswerOne(d, a) == AnswerByRequest(d, a)
  {
    var p := d.fifo[0];
    forall b: nat | b < 2 && !d.slots[b].Empty?
      ensures HasId(d.slots[b], Id(p.tag)) <==> d.slots[b].tag == p.tag
      ensures d.slots[b].tag == p.tag ==> d.slots[b].Waiting? && b == p.buffer
    {
    }
  }

  lemma ByRequestInOrder(d: Driver, a: Answer)
    requires InOrder(d) && d.fifo != []
    ensures InOrder(AnswerByRequest(d, a))
  {
    var d' := AnswerByRequest(d, a);
    assert forall i :: 0 <= i < |d'.fifo| ==> d'.fifo[i] == d.fifo[i + 1];
  }

  lemma ByRequestIntact(d: Driver, a: Answer)
    requires InOrder(d) && Intact(d) && d.fifo != []
    ensures Intact(AnswerByRequest(d, a))
  {
    var d' := AnswerByRequest(d, a);
    assert forall i :: 0 <= i < |d'.fifo| ==> d'.fifo[i] == d.fifo[i + 1];
  }

  lemma AnswerInOrder(d: Driver, a: Answer)
    requires InOrder(d)
    ensures InOrder(AnswerOne(d, a))
    ensures Intact(d) ==> Intact(AnswerOne(d, a))
  {
    if d.fifo != [] {
      AnswerFindsSlot(d, a);
      ByRequestInOrder(d, a);
      if Intact(d) {
        ByRequestIntact(d, a);
      }
    }
  }

  /** Slots keep their requests while the card answers, and full ones their answers. */
  ghost predicate Follows(d: Driver, d': Driver) {
    && Formed(d) && Formed(d')
    && d'.(slots := d.slots, fifo := d.fifo, answers := d.answers, memory := d.memory) == d
    && d.answers <= d'.answers
    && (forall b :: 0 <= b < 2 && !d.slots[b].Waiting? ==> d'.slots[b] == d.slots[b])
    && (forall b :: 0 <= b < 2 && d.slots[b].Waiting? ==> !d'.slots[b].Empty? && d'.slots[b].tag == d.slots[b].tag)
  }

  lemma AnswerFollows(d: Driver, a: Answer)
    requires InOrder(d)
    ensures Follows(d, AnswerOne(d, a))
  {
    if d.fifo != [] {
      AnswerFindsSlot(d, a);
    }
  }

  lemma FollowsOn(d: Driver, d1: Driver, d2: Driver)
    requires Follows(d, d1) && Follows(d1, d2)
    ensures Follows(d, d2)
  {
  }

  lemma {:induction false} AnswersInOrder(d: Driver, answers: seq<Answer>)
    requires InOrder(d)
    ensures var d' := AnswerAll(d, answers);
            InOrder(d') && (Intact(d) ==> Intact(d')) && Follows(d, d')
    decreases |answers|
  {
    if answers != [] {
      var d1 := AnswerOne(d, answers[0]);
      AnswerInOrder(d, answers[0]);
      AnswerFollows(d, answers[0]);
      AnswersInOrder(d1, answers[1..]);
      FollowsOn(d, d1, AnswerAll(d1, answers[1..]));
    }
  }

  // Runs in which no ioctl that took buffers back is repeated.

  lemma RecycleInOrder(d: Driver, b: nat)
    requires InOrder(d) && b < 2
    ensures InOrder(RecycleSlot(d, b))
  {
    var d' := RecycleSlot(d, b);
    assert d'.(slots := d.slots, givenUp := d.givenUp) == d;
    assert forall c: nat :: c < 2 && !d'.slots[c].Empty? ==> d'.slots[c] == d.slots[c];
  }

  lemma RecycleIntact(d: Driver, b: nat)
    requires InOrder(d) && Intact(d) && b < 2 && !d.slots[b].Waiting?
    ensures InOrder(RecycleSlot(d, b)) && Intact(RecycleSlot(d, b))
  {
    RecycleInOrder(d, b);
  }

  lemma QueueIntact(d: Driver, b: nat)
    requires InOrder(d) && Intact(d) && b < 2
    requires forall c: nat :: c < 2 && !d.slots[c].Empty? ==> d.sent - d.slots[c].tag <= 1
    ensures InOrder(QueueSlot(d, b)) && Intact(QueueSlot(d, b))
  {
    FewUnused(d);
    QueueInOrder(d, b);
  }

  /** The last request's id is not that of the next. */
  lemma FewUnused(d: Driver)
    requires InOrder(d) && Intact(d)
    requires forall c: nat :: c < 2 && !d.slots[c].Empty? ==> d.sent - d.slots[c].tag <= 1
    ensures IdUnused(d)
  {
    forall t: nat | d.sent - 1 <= t < d.sent ensures Id(t) != Id(d.sent) {
      RecentIds(t, d.sent);
    }
  }

  /** A request keeps ids apart if and only if nothing carries its id. */
  lemma QueueApartIff(d: Driver, b: nat)
    requires InOrder(d) && b < 2 && d.slots[b].Empty?
    ensures Apart(QueueSlot(d, b)) <==> IdUnused(d)
  {
    var d', n := QueueSlot(d, b), |d.fifo|;
    assert d'.fifo[n] == Pending(d.sent, b) && d'.slots[b] == Waiting(d.sent);
    if Apart(d') {
      forall c: nat | c < 2 ensures !HasId(d.slots[c], Id(d.sent)) {
        assert c != b ==> d'.slots[c] == d.slots[c];
        assert !HasId(d'.slots[c], Id(d'.fifo[n].tag)) || d'.slots[c].tag == d.sent;
      }
      forall i: nat | i < n ensures Id(d.fifo[i].tag) != Id(d.sent) {
        assert d'.fifo[i] == d.fifo[i];
        assert !HasId(d'.slots[b], Id(d'.fifo[i].tag));
      }
    }
    if IdUnused(d) {
      forall c: nat, i: nat | c < 2 && i <= n && HasId(d'.slots[c], Id(d'.fifo[i].tag))
        ensures d'.slots[c].tag == d'.fifo[i].tag
      {
        assert c != b ==> d'.slots[c] == d.slots[c];
        assert i < n ==> d'.fifo[i] == d.fifo[i];
      }
    }
  }

  lemma QueueInOrder(d: Driver, b: nat)
    requires InOrder(d) && b < 2 && (d.slots[b].Empty? ==> IdUnused(d))
    ensures InOrder(QueueSlot(d, b))
  {
    if d.slots[b].Empty? {
      QueueApartIff(d, b);
    }
  }

  /** Between ioctls, `done` blocks having been reported: nothing queued yet; both
      buffers queued, none reported; one reported and to be given back, the other
      awaiting block `done`; or both reported and to be given back. */
  ghost predicate Settled(d: Driver, recycle: seq<bool>) {
    var n, done := d.abNext, |d.reported|;
    && InOrder(d) && Intact(d) && |recycle| == 2
    && (forall b: nat :: b < 2 && recycle[b] ==> d.slots[b].Filled? && d.slots[b].tag in d.reported)
    && (forall t :: t in d.reported ==> t < d.sent)
    && if recycle[n] then recycle[Other(n)] && d.sent == done
       else if recycle[Other(n)] then !d.slots[n].Empty? && d.slots[n].tag == done && d.sent == done + 1
       else if d.sent == 0 then n == BUFFERA && done == 0 && d.slots == [Empty, Empty]
       else
         && n == BUFFERA && done == 0 && d.sent == 2 && !d.slots[BUFFERA].Empty? && !d.slots[BUFFERB].Empty?
         && d.slots[BUFFERA].tag == 0 && d.slots[BUFFERB].tag == 1
  }

  /** Both buffers are queued: `first` for block `done`, the other for the next one. */
  ghost predicate Primed(d: Driver, first: nat, done: nat) {
    && InOrder(d) && Intact(d) && first < 2 && d.sent == done + 2
    && !d.slots[first].Empty? && d.slots[first].tag == done
    && !d.slots[Other(first)].Empty? && d.slots[Other(first)].tag == done + 1
  }

  function FirstQueued(n: nat, recycle: seq<bool>): nat
    requires |recycle| == 2
  {
    if recycle[BUFFERA] && recycle[BUFFERB] then BUFFERA else n
  }

  lemma QueueBoth(d: Driver)
    requires InOrder(d) && Intact(d) && d.slots[BUFFERA].Empty? && d.slots[BUFFERB].Empty?
    ensures Primed(QueueSlot(QueueSlot(d, BUFFERA), BUFFERB), BUFFERA, d.sent)
  {
    QueueIntact(d, BUFFERA);
    QueueIntact(QueueSlot(d, BUFFERA), BUFFERB);
  }

  lemma QueueOne(d: Driver, b: nat)
    requires InOrder(d) && Intact(d) && b < 2 && d.slots[b].Empty?
    requires !d.slots[Other(b)].Empty? && d.slots[Other(b)].tag + 1 == d.sent
    ensures Primed(QueueSlot(QueueSlot(d, BUFFERA), BUFFERB), Other(b), d.sent - 1)
  {
    QueueIntact(d, b);
  }

  lemma PrepareBoth(d: Driver)
    requires Settled(d, [true, true])
    ensures Primed(Prepare(d, [true, true]), BUFFERA, |d.reported|)
  {
    var d1 := RecycleSlot(d, BUFFERA);
    RecycleIntact(d, BUFFERA);
    RecycleIntact(d1, BUFFERB);
    QueueBoth(RecycleSlot(d1, BUFFERB));
  }

  lemma PrepareOne(d: Driver, recycle: seq<bool>)
    requires Settled(d, recycle) && recycle[Other(d.abNext)] && !recycle[d.abNext]
    ensures Primed(Prepare(d, recycle), d.abNext, |d.reported|)
  {
    RecycleIntact(d, Other(d.abNext));
    QueueOne(RecycleSlot(d, Other(d.abNext)), Other(d.abNext));
  }

  lemma PrepareSettled(d: Driver, recycle: seq<bool>)
    requires Settled(d, recycle)
    ensures Primed(Prepare(d, recycle), FirstQueued(d.abNext, recycle), |d.reported|)
  {
    if recycle[d.abNext] {
      assert recycle == [true, true];
      PrepareBoth(d);
    } else if recycle[Other(d.abNext)] {
      PrepareOne(d, recycle);
    } else if d.sent == 0 {
      QueueBoth(d);
    }
  }

  /** Nothing reported is lost by giving it back. */
  lemma PrepareLosesNothing(d: Driver, recycle: seq<bool>)
    requires Settled(d, recycle)
    ensures var d' := Prepare(d, recycle);
            d'.reported == d.reported && d'.givenUp == d.givenUp && d'.abNext == d.abNext && d'.answers == d.answers
  {
    var d1 := if recycle[BUFFERA] then RecycleSlot(d, BUFFERA) else d;
    assert d1.givenUp == d.givenUp;
    var d2 := if recycle[BUFFERB] then RecycleSlot(d1, BUFFERB) else d1;
    assert d2.givenUp == d1.givenUp;
  }

  /** The blocks an ioctl reports, starting at buffer `n`: in order when it starts with
      the buffer queued first, swapped when it starts with the other. */
  ghost function Reports(n: nat, first: nat, done: nat, both: bool): seq<nat> {
    if n != first then [done + 1, done] else if both then [done, done + 1] else [done]
  }

  lemma FillInOrder(d: Driver, ds: Status)
    requires InOrder(d) && |ds.full| == 2 == |ds.len| && d.slots[d.abNext].Filled?
    ensures var (d', ds', done) := FillStatus(d, ds);
            && InOrder(d') && (Intact(d) ==> Intact(d')) && done
            && d'.slots == d.slots && d'.answers == d.answers && d'.givenUp == d.givenUp && d'.sent == d.sent
            && d'.fifo == d.fifo && d'.memory == d.memory
            && d'.reported == d.reported + [d.slots[d.abNext].tag] && d'.abNext == Other(d.abNext)
            && ds'.full == ds.full[d.abNext := true]
            && ds'.len == ds.len[d.abNext := Length(d.answers[d.slots[d.abNext].tag])]
  {
  }

  /** The driver after a successful ioctl that began at buffer `n`. */
  ghost predicate Reported(d1: Driver, d3: Driver, ds: Status, first: nat, done: nat) {
    var n := d1.abNext;
    && Formed(d1) && |ds.full| == 2 == |ds.len|
    && var both := ds.full[Other(n)];
    && InOrder(d3) && Intact(d3)
    && d3.reported == d1.reported + Reports(n, first, done, both)
    && d1.answers <= d3.answers && d3.givenUp == d1.givenUp && d3.sent == d1.sent
    && d3.abNext == (if both then n else Other(n))
    && ds.full[n] && (n != first ==> both)
    && d3.slots[n].Filled? && d3.slots[n] == d1.slots[n]
    && !d1.slots[Other(n)].Empty? && !d3.slots[Other(n)].Empty?
    && d3.slots[Other(n)].tag == d1.slots[Other(n)].tag
    && ds.len[n] == Length(d3.answers[d3.slots[n].tag])
    && (both ==> d3.slots[Other(n)].Filled? && ds.len[Other(n)] == Length(d3.answers[d3.slots[Other(n)].tag]))
  }

  /** Waiting for the buffer queued second means the first is full too, as the card
      answers in order. */
  lemma FillPrimed(d1: Driver, first: nat, done: nat, ds: Status, between: seq<Answer>)
    requires Primed(d1, first, done) && d1.slots[d1.abNext].Filled?
    requires |ds.full| == 2 == |ds.len| && ds.full == [false, false]
    ensures var (d2, ds2, _) := FillStatus(d1, ds);
            var (d3, ds3, _) := FillStatus(AnswerAll(d2, between), ds2);
            Reported(d1, d3, ds3, first, done)
  {
    FillInOrder(d1, ds);
    var (d2, ds2, _) := FillStatus(d1, ds);
    AnswersInOrder(d2, between);
    var d2' := AnswerAll(d2, between);
    assert FirstFilled(d1, d2', ds2, first, done);
    if d2'.slots[d2'.abNext].Filled? {
      SecondFilled(d1, d2', ds2, first, done);
    } else {
      SecondEmpty(d1, d2', ds2, first, done);
    }
  }

  /** After the first look, and what the card has answered since. */
  ghost predicate FirstFilled(d1: Driver, d2: Driver, ds: Status, first: nat, done: nat) {
    var n := d1.abNext;
    && Primed(d1, first, done) && InOrder(d2) && Intact(d2) && d1.slots[n].Filled?
    && d1.answers <= d2.answers && d2.givenUp == d1.givenUp && d2.sent == d1.sent
    && d2.slots[n] == d1.slots[n]
    && !d2.slots[Other(n)].Empty? && d2.slots[Other(n)].tag == d1.slots[Other(n)].tag
    && d2.reported == d1.reported + [d1.slots[n].tag] && d2.abNext == Other(n)
    && |ds.full| == 2 == |ds.len| && ds.full == [false, false][n := true]
    && ds.len[n] == Length(d1.answers[d1.slots[n].tag])
  }

  lemma SecondEmpty(d1: Driver, d2: Driver, ds: Status, first: nat, done: nat)
    requires FirstFilled(d1, d2, ds, first, done) && !d2.slots[d2.abNext].Filled?
    ensures Reported(d1, d2, ds, first, done)
  {
    assert d1.abNext == first;
  }

  lemma SecondFilled(d1: Driver, d2: Driver, ds: Status, first: nat, done: nat)
    requires FirstFilled(d1, d2, ds, first, done) && d2.slots[d2.abNext].Filled?
    ensures var (d3, ds3, _) := FillStatus(d2, ds); Reported(d1, d3, ds3, first, done)
  {
    var n := d1.abNext;
    FillInOrder(d2, ds);
    assert d1.reported + [d1.slots[n].tag] + [d1.slots[Other(n)].tag]
        == d1.reported + [d1.slots[n].tag, d1.slots[Other(n)].tag];
  }

  lemma SettledAnswers(d: Driver, recycle: seq<bool>, answers: seq<Answer>)
    requires Settled(d, recycle)
    ensures Settled(AnswerAll(d, answers), recycle)
  {
    AnswersInOrder(d, answers);
  }

  lemma ReportedSettled(d1: Driver, d3: Driver, ds: Status, first: nat, done: nat)
    requires Primed(d1, first, done) && |d1.reported| == done && Reported(d1, d3, ds, first, done)
    requires forall t :: t in d1.reported ==> t < d1.sent
    ensures Settled(d3, ds.full) && d3.sent == done + 2
  {
    var n, added := d1.abNext, Reports(d1.abNext, first, done, ds.full[Other(d1.abNext)]);
    assert forall t :: t in added ==> t in d3.reported;
    assert d3.slots[n].tag in added;
    assert ds.full[Other(n)] ==> d3.slots[Other(n)].tag in added;
  }

  /** The bytes of the first `k` blocks the card read out. */
  ghost function Bytes(answers: seq<Answer>, k: nat): nat
    requires k <= |answers|
  {
    if k == 0 then 0 else Bytes(answers, k - 1) + Length(answers[k - 1])
  }

  lemma {:induction false} BytesPrefix(answers: seq<Answer>, answers': seq<Answer>, k: nat)
    requires answers <= answers' && k <= |answers|
    ensures Bytes(answers', k) == Bytes(answers, k)
  {
    if k > 0 {
      BytesPrefix(answers, answers', k - 1);
    }
  }

  ghost function Delivered(bursts: seq<Burst>): nat {
    if bursts == [] then 0 else Delivered(bursts[..|bursts| - 1]) + bursts[|bursts| - 1].count
  }

  /** How many blocks had been delivered when an ioctl first delivered two from B on. */
  ghost function Pivot(bursts: seq<Burst>): Option<nat> {
    if bursts == [] then None
    else if Pivot(bursts[..|bursts| - 1]).Some? then Pivot(bursts[..|bursts| - 1])
    else if bursts[|bursts| - 1] == Burst(BUFFERB, 2) then Some(Delivered(bursts))
    else None
  }

  /** The j-th block delivered: the j-th of the stream up to the pivot, then every
      pair swapped. */
  ghost function BlockAt(pivot: Option<nat>, j: nat): nat {
    if pivot.None? || j < pivot.value then j
    else if (j - pivot.value) % 2 == 0 then j + 1 else j - 1
  }

  ghost predicate Ordered(c: Client) {
    var p := Pivot(c.bursts);
    && |c.delivered| == Delivered(c.bursts)
    && (forall j: nat :: j < |c.delivered| ==> c.delivered[j] == BlockAt(p, j))
    && (p.Some? ==> p.value <= |c.delivered| && (|c.delivered| - p.value) % 2 == 0)
    && (forall i, j :: 0 <= i < j < |c.bursts| && c.bursts[i] == Burst(BUFFERB, 2) ==> c.bursts[j] == Burst(BUFFERB, 2))
    && (p.Some? <==> c.bursts != [] && c.bursts[|c.bursts| - 1] == Burst(BUFFERB, 2))
  }

  /** The next ioctl waits for the buffer queued second exactly when the last one
      delivered two from B on. */
  ghost predicate Aligned(c: Client) {
    && ClientFormed(c)
    && ((c.bursts != [] && c.bursts[|c.bursts| - 1] == Burst(BUFFERB, 2)) ==
        (c.recycle == [true, true] && c.next == BUFFERB))
  }

  lemma OrderedBurst(c: Client, c': Client, both: bool)
    requires Ordered(c) && Aligned(c)
    requires c'.bursts == c.bursts + [Burst(c.next, if both then 2 else 1)]
    requires FirstQueued(c.next, c.recycle) != c.next ==> both
    requires c'.delivered == c.delivered + Reports(c.next, FirstQueued(c.next, c.recycle), |c.delivered|, both)
    ensures Ordered(c')
  {
    assert c'.bursts[..|c.bursts|] == c.bursts;
    var p := Pivot(c.bursts);
    if p.Some? {
      assert c'.bursts[|c.bursts|] == Burst(BUFFERB, 2);
    }
  }

  /** The client is about to repeat an ioctl whose buffers were already taken back. */
  predicate Repeats(c: Client) {
    c.retrying && c.recycle != [false, false]
  }

  /** Buffers taken back by a failed ioctl have been queued afresh. */
  ghost predicate Retaken(d: Driver, recycle: seq<bool>) {
    && Formed(d) && |recycle| == 2
    && (forall b: nat :: b < 2 && recycle[b] ==> !d.slots[b].Empty? && d.slots[b].tag !in d.reported)
  }

  /** What the client has: every block reported, in the expected order, and their bytes. */
  ghost predicate Accounts(d: Driver, c: Client) {
    && ClientFormed(c) && c.next == d.abNext
    && c.delivered == d.reported && |c.delivered| <= |d.answers|
    && c.total == Bytes(d.answers, |c.delivered|) % TWO_TO_THE_64
    && Ordered(c) && Aligned(c)
  }

  /** What holds between ioctls as long as no ioctl that took buffers back was repeated. */
  ghost predicate Clean(s: System) {
    var d, c := s.driver, s.client;
    && Accounts(d, c) && InOrder(d) && d.givenUp == [] && |d.fifo| <= 2
    && (if Repeats(c) then Retaken(d, c.recycle) else Settled(d, c.recycle))
  }

  lemma AddWrapped(x: nat, y: nat, m: nat)
    requires m > 0
    ensures (x % m + y) % m == (x + y) % m
  {
    ModAdd(x % m + y, m, x / m);
    assert x == m * (x / m) + x % m;
  }

  /** The bytes the client adds up are those of the blocks it was given. */
  lemma SucceedTotal(c: Client, ds: Status, memory: seq<nat>, before: nat)
    requires ClientFormed(c) && |ds.full| == 2 == |ds.len| && |memory| == 2 && ds.full[c.next]
    requires c.total == before % TWO_TO_THE_64
    ensures Succeed(c, ds, memory).total ==
      (before + ds.len[c.next] + if ds.full[Other(c.next)] then ds.len[Other(c.next)] else 0) % TWO_TO_THE_64
  {
    AddWrapped(before, ds.len[c.next], TWO_TO_THE_64);
    AddWrapped(before + ds.len[c.next], ds.len[Other(c.next)], TWO_TO_THE_64);
  }

  lemma BytesReported(answers: seq<Answer>, n: nat, first: nat, done: nat, both: bool)
    requires (n != first ==> both) && done + (if both then 2 else 1) <= |answers|
    ensures var r := Reports(n, first, done, both);
            && r[0] < |answers| && (both ==> r[1] < |answers|)
            && Bytes(answers, done + |r|) ==
                 Bytes(answers, done) + Length(answers[r[0]]) + if both then Length(answers[r[1]]) else 0
  {
    if both {
      assert Bytes(answers, done + 2) == Bytes(answers, done + 1) + Length(answers[done + 1]);
    }
    assert Bytes(answers, done + 1) == Bytes(answers, done) + Length(answers[done]);
  }

  lemma PrimedAnswers(d: Driver, first: nat, done: nat, answers: seq<Answer>)
    requires Primed(d, first, done)
    ensures Primed(AnswerAll(d, answers), first, done) && Follows(d, AnswerAll(d, answers))
  {
    AnswersInOrder(d, answers);
  }

  /** The client finds in the buffers just the blocks reported. */
  lemma ReportedDelivered(d1: Driver, d3: Driver, ds: Status, first: nat, done: nat, d4: Driver, c: Client)
    requires Primed(d1, first, done) && Reported(d1, d3, ds, first, done)
    requires InOrder(d4) && Intact(d4) && Follows(d3, d4)
    requires ClientFormed(c) && c.next == d1.abNext
    ensures var both := ds.full[Other(d1.abNext)];
            Succeed(c, ds, d4.memory).delivered == c.delivered + Reports(d1.abNext, first, done, both)
  {
    var n := d1.abNext;
    SucceedProcesses(c, ds, d4.memory);
    assert d4.slots[n] == d3.slots[n] && d4.memory[n] == d3.slots[n].tag;
    if ds.full[Other(n)] {
      assert d4.memory[Other(n)] == d3.slots[Other(n)].tag;
      assert c.delivered + [d4.memory[n]] + [d4.memory[Other(n)]] == c.delivered + [d4.memory[n], d4.memory[Other(n)]];
    } else {
      assert c.delivered + [d4.memory[n]] + [] == c.delivered + [d4.memory[n]];
    }
  }

  /** The lengths of the blocks an ioctl reports. */
  ghost predicate LengthsOf(ds: Status, n: nat, first: nat, done: nat, answers: seq<Answer>)
    requires n < 2 && |ds.full| == 2 == |ds.len|
  {
    var both := ds.full[Other(n)];
    && (n != first ==> both) && done + (if both then 2 else 1) <= |answers|
    && ds.len[n] == Length(answers[if n == first then done else done + 1])
    && (both ==> ds.len[Other(n)] == Length(answers[if n == first then done + 1 else done]))
  }

  lemma ReportedLengths(d1: Driver, d3: Driver, ds: Status, first: nat, done: nat, answers: seq<Answer>)
    requires Primed(d1, first, done) && Reported(d1, d3, ds, first, done) && d3.answers <= answers
    ensures LengthsOf(ds, d1.abNext, first, done, answers)
  {
  }

  /** The client adds up the bytes of the blocks reported. */
  lemma TotalReported(c: Client, ds: Status, memory: seq<nat>, first: nat, done: nat, answers: seq<Answer>)
    requires ClientFormed(c) && |memory| == 2 && |ds.full| == 2 == |ds.len| && ds.full[c.next]
    requires LengthsOf(ds, c.next, first, done, answers)
    requires c.total == Bytes(answers, done) % TWO_TO_THE_64
    ensures var n := done + if ds.full[Other(c.next)] then 2 else 1;
            Succeed(c, ds, memory).total == Bytes(answers, n) % TWO_TO_THE_64
  {
    SucceedTotal(c, ds, memory, Bytes(answers, done));
    BytesReported(answers, c.next, first, done, ds.full[Other(c.next)]);
  }

  /** The driver when the wait of an ioctl ends. */
  ghost function Waited(d: Driver, recycle: seq<bool>, env: Env): (r: Driver)
    requires Formed(d) && |recycle| == 2
    ensures Formed(r)
  {
    AnswerAll(Prepare(d, recycle), env.during)
  }

  lemma WaitedPrimed(d: Driver, recycle: seq<bool>, env: Env)
    requires Settled(d, recycle)
    ensures var d1 := Waited(d, recycle, env);
            && Primed(d1, FirstQueued(d.abNext, recycle), |d.reported|)
            && d1.reported == d.reported && d1.givenUp == d.givenUp && d1.abNext == d.abNext && d.answers <= d1.answers
            && (forall t :: t in d1.reported ==> t < d1.sent)
  {
    PrepareSettled(d, recycle);
    PrepareLosesNothing(d, recycle);
    PrimedAnswers(Prepare(d, recycle), FirstQueued(d.abNext, recycle), |d.reported|, env.during);
  }

  lemma ActionReported(d: Driver, recycle: seq<bool>, ds: Status, env: Env)
    requires Settled(d, recycle) && |ds.full| == 2 == |ds.len| && Action(d, recycle, ds, env).1.Ok?
    ensures var (d3, reply) := Action(d, recycle, ds, env);
            Reported(Waited(d, recycle, env), d3, reply.ds, FirstQueued(d.abNext, recycle), |d.reported|)
  {
    WaitedPrimed(d, recycle, env);
    FillPrimed(Waited(d, recycle, env), FirstQueued(d.abNext, recycle), |d.reported|,
               Status([false, false], false, ds.len), env.between);
  }

  lemma ReportedTotal(d: Driver, c: Client, d1: Driver, d3: Driver, ds: Status, d4: Driver)
    requires Accounts(d, c) && |c.recycle| == 2 && |ds.full| == 2 == |ds.len|
    requires var first := FirstQueued(c.next, c.recycle);
             Primed(d1, first, |d.reported|) && Reported(d1, d3, ds, first, |d.reported|)
    requires d1.abNext == d.abNext && d.answers <= d1.answers && Follows(d3, d4)
    ensures var n := |c.delivered| + if ds.full[Other(c.next)] then 2 else 1;
            && n <= |d4.answers|
            && Succeed(c, ds, d4.memory).total == Bytes(d4.answers, n) % TWO_TO_THE_64
  {
    var done, first := |d.reported|, FirstQueued(c.next, c.recycle);
    ReportedLengths(d1, d3, ds, first, done, d4.answers);
    BytesPrefix(d.answers, d4.answers, done);
    TotalReported(c, ds, d4.memory, first, done, d4.answers);
  }

  /** What the client has after a success that began at its `next`. */
  ghost predicate Got(c: Client, c': Client, answers: seq<Answer>, both: bool)
    requires ClientFormed(c)
  {
    var first := FirstQueued(c.next, c.recycle);
    && ClientFormed(c') && (first != c.next ==> both)
    && c'.delivered == c.delivered + Reports(c.next, first, |c.delivered|, both)
    && c'.next == (if both then c.next else Other(c.next))
    && c'.recycle == [both || c.next == BUFFERA, both || c.next == BUFFERB]
    && c'.bursts == c.bursts + [Burst(c.next, if both then 2 else 1)]
    && |c'.delivered| <= |answers| && c'.total == Bytes(answers, |c'.delivered|) % TWO_TO_THE_64
  }

  lemma AccountsOn(d: Driver, c: Client, d': Driver, c': Client, both: bool)
    requires Accounts(d, c) && Got(c, c', d'.answers, both)
    requires c'.delivered == d'.reported && c'.next == d'.abNext
    ensures Accounts(d', c')
  {
    OrderedBurst(c, c', both);
  }

  lemma GotFrom(c: Client, ds: Status, memory: seq<nat>, answers: seq<Answer>)
    requires ClientFormed(c) && |ds.full| == 2 == |ds.len| && |memory| == 2 && ds.full[c.next]
    requires var first, both := FirstQueued(c.next, c.recycle), ds.full[Other(c.next)];
             && (first != c.next ==> both)
             && var c' := Succeed(c, ds, memory);
             && c'.delivered == c.delivered + Reports(c.next, first, |c.delivered|, both)
             && |c'.delivered| <= |answers| && c'.total == Bytes(answers, |c'.delivered|) % TWO_TO_THE_64
    ensures Got(c, Succeed(c, ds, memory), answers, ds.full[Other(c.next)])
  {
    SucceedProcesses(c, ds, memory);
  }

  lemma ReportedGot(d: Driver, c: Client, d1: Driver, d3: Driver, ds: Status, d4: Driver)
    requires Accounts(d, c) && |c.recycle| == 2 && |ds.full| == 2 == |ds.len|
    requires var first := FirstQueued(c.next, c.recycle);
             Primed(d1, first, |d.reported|) && Reported(d1, d3, ds, first, |d.reported|)
    requires d1.abNext == d.abNext && d.answers <= d1.answers && InOrder(d4) && Intact(d4) && Follows(d3, d4)
    ensures Got(c, Succeed(c, ds, d4.memory), d4.answers, ds.full[Other(c.next)])
  {
    ReportedDelivered(d1, d3, ds, FirstQueued(c.next, c.recycle), |d.reported|, d4, c);
    ReportedTotal(d, c, d1, d3, ds, d4);
    GotFrom(c, ds, d4.memory, d4.answers);
  }

  lemma ReportedAccounts(d: Driver, c: Client, d1: Driver, d3: Driver, ds: Status, d4: Driver)
    requires Accounts(d, c) && |c.recycle| == 2 && |ds.full| == 2 == |ds.len|
    requires var first := FirstQueued(c.next, c.recycle);
             Primed(d1, first, |d.reported|) && Reported(d1, d3, ds, first, |d.reported|)
    requires d1.reported == d.reported && d1.abNext == d.abNext && d.answers <= d1.answers
    requires InOrder(d4) && Intact(d4) && Follows(d3, d4)
    ensures Accounts(d4, Succeed(c, ds, d4.memory))
  {
    ReportedGot(d, c, d1, d3, ds, d4);
    AccountsOn(d, c, d4, Succeed(c, ds, d4.memory), ds.full[Other(c.next)]);
  }

  /** After an ioctl that succeeded, the card having read ahead. */
  lemma SuccessKeepsClean(d: Driver, c: Client, d1: Driver, d3: Driver, ds: Status, d4: Driver)
    requires Accounts(d, c) && d.givenUp == [] && |c.recycle| == 2 && |ds.full| == 2 == |ds.len|
    requires var first := FirstQueued(c.next, c.recycle);
             Primed(d1, first, |d.reported|) && Reported(d1, d3, ds, first, |d.reported|)
    requires d1.reported == d.reported && d1.givenUp == d.givenUp && d1.abNext == d.abNext && d.answers <= d1.answers
    requires Settled(d4, ds.full) && Follows(d3, d4)
    ensures var c' := Succeed(c, ds, d4.memory);
            Clean(System(d4, c')) && !Repeats(c')
  {
    PrimedFew(d1, FirstQueued(c.next, c.recycle), |d.reported|);
    ReportedAccounts(d, c, d1, d3, ds, d4);
    SucceedProcesses(c, ds, d4.memory);
  }

  lemma CleanSuccess(s: System, env: Env, maxTimeouts: nat)
    requires Clean(s) && !Repeats(s.client) && !s.client.stopped
    requires Action(s.driver, s.client.recycle, s.client.ds, env).1.Ok?
    ensures Clean(Turn(s, env, maxTimeouts)) && !Repeats(Turn(s, env, maxTimeouts).client)
  {
    var d, c := s.driver, s.client;
    var (d3, reply) := Action(d, c.recycle, c.ds, env);
    WaitedPrimed(d, c.recycle, env);
    ActionReported(d, c.recycle, c.ds, env);
    var d1, first, done := Waited(d, c.recycle, env), FirstQueued(d.abNext, c.recycle), |d.reported|;
    ReportedSettled(d1, d3, reply.ds, first, done);
    SettledAnswers(d3, reply.ds.full, env.after);
    AnswersInOrder(d3, env.after);
    SuccessKeepsClean(d, c, d1, d3, reply.ds, AnswerAll(d3, env.after));
  }

  lemma AccountsKept(d: Driver, d': Driver, c: Client, c': Client)
    requires Accounts(d, c)
    requires d'.reported == d.reported && d'.abNext == d.abNext && d.answers <= d'.answers
    requires c' == c.(retrying := c'.retrying, timeouts := c'.timeouts, stopped := c'.stopped)
    ensures Accounts(d', c')
  {
    BytesPrefix(d.answers, d'.answers, |c.delivered|);
  }

  lemma PrimedFew(d: Driver, first: nat, done: nat)
    requires Primed(d, first, done)
    ensures |d.fifo| <= 2
  {
    assert d.fifo != [] ==> d.slots[d.fifo[0].buffer] == Waiting(d.fifo[0].tag);
  }

  /** After an ioctl that failed, the card having read ahead. */
  lemma FailureKeeps(d: Driver, c: Client, d1: Driver, d2: Driver, c': Client)
    requires Accounts(d, c) && Settled(d, c.recycle) && d.givenUp == []
    requires Primed(d1, FirstQueued(d.abNext, c.recycle), |d.reported|)
    requires d1.reported == d.reported && d1.givenUp == d.givenUp && d1.abNext == d.abNext && d.answers <= d1.answers
    requires InOrder(d2) && Follows(d1, d2) && (c.recycle == [false, false] ==> Settled(d2, c.recycle))
    requires c' == c.(retrying := true, timeouts := c'.timeouts, stopped := c'.stopped)
    ensures Clean(System(d2, c'))
  {
    PrimedFew(d1, FirstQueued(d.abNext, c.recycle), |d.reported|);
    FailedSettles(d, d1, c.recycle);
    AccountsKept(d, d2, c, c');
  }

  /** A failed ioctl delivers nothing; if it took no buffers back, nothing has changed
      but that the card may have read ahead. */
  lemma CleanFailure(s: System, env: Env, maxTimeouts: nat)
    requires Clean(s) && !Repeats(s.client) && !s.client.stopped && !env.wait.NotEntered?
    requires !Action(s.driver, s.client.recycle, s.client.ds, env).1.Ok?
    ensures Clean(Turn(s, env, maxTimeouts))
  {
    var d, c := s.driver, s.client;
    var d1 := Waited(d, c.recycle, env);
    WaitedPrimed(d, c.recycle, env);
    AnswersInOrder(d1, env.after);
    if c.recycle == [false, false] {
      FailedSettles(d, d1, c.recycle);
      SettledAnswers(d1, c.recycle, env.after);
    }
    FailureKeeps(d, c, d1, AnswerAll(d1, env.after), Turn(s, env, maxTimeouts).client);
  }

  lemma FailedSettles(d: Driver, d': Driver, recycle: seq<bool>)
    requires Settled(d, recycle) && Primed(d', FirstQueued(d.abNext, recycle), |d.reported|)
    requires d'.reported == d.reported && d'.abNext == d.abNext
    ensures recycle == [false, false] ==> Settled(d', recycle)
    ensures recycle != [false, false] ==> Retaken(d', recycle)
  {
    forall b: nat | b < 2 && recycle[b]
      ensures !d'.slots[b].Empty? && d'.slots[b].tag !in d'.reported
    {
      assert d'.slots[b].tag >= d.sent;
    }
  }

  lemma CleanNotEntered(s: System, env: Env, maxTimeouts: nat)
    requires Clean(s) && env.wait.NotEntered?
    ensures Clean(Turn(s, env, maxTimeouts))
  {
    var d, c := s.driver, s.client;
    AnswersInOrder(d, env.after);
    if !Repeats(c) {
      SettledAnswers(d, c.recycle, env.after);
    }
    AccountsKept(d, AnswerAll(d, env.after), c, c);
  }

  /** The turn repeats, inside the driver, an ioctl that had taken buffers back. */
  predicate UnsafeRetry(s: System, env: Env) {
    !s.client.stopped && Repeats(s.client) && !env.wait.NotEntered?
  }

  lemma CleanTurn(s: System, env: Env, maxTimeouts: nat)
    requires Clean(s) && !UnsafeRetry(s, env)
    ensures Clean(Turn(s, env, maxTimeouts))
  {
    if s.client.stopped {
    } else if env.wait.NotEntered? {
      CleanNotEntered(s, env, maxTimeouts);
    } else if Action(s.driver, s.client.recycle, s.client.ds, env).1.Ok? {
      CleanSuccess(s, env, maxTimeouts);
    } else {
      CleanFailure(s, env, maxTimeouts);
    }
  }

  ghost predicate CleanRun(s: System, envs: seq<Env>, maxTimeouts: nat)
    requires SystemFormed(s)
    decreases |envs|
  {
    envs == [] ||
    (!UnsafeRetry(s, envs[0]) && CleanRun(Turn(s, envs[0], maxTimeouts), envs[1..], maxTimeouts))
  }

  lemma {:induction false} CleanRunKeeps(s: System, envs: seq<Env>, maxTimeouts: nat)
    requires Clean(s) && CleanRun(s, envs, maxTimeouts)
    ensures Clean(Run(s, envs, maxTimeouts))
    decreases |envs|
  {
    if envs != [] {
      CleanTurn(s, envs[0], maxTimeouts);
      CleanRunKeeps(Turn(s, envs[0], maxTimeouts), envs[1..], maxTimeouts);
    }
  }

  lemma FreshClean()
    ensures Clean(FreshSystem)
  {
  }

  /** In every clean run the card never has more than two requests to answer. */
  lemma FewOutstanding(envs: seq<Env>, maxTimeouts: nat)
    requires CleanRun(FreshSystem, envs, maxTimeouts)
    ensures |Run(FreshSystem, envs, maxTimeouts).driver.fifo| <= 2
  {
    FreshClean();
    CleanRunKeeps(FreshSystem, envs, maxTimeouts);
  }

  /** In every clean run the blocks delivered are 0, 1, 2, ... in this order up to and
      including the first ioctl that delivers two from B on, and in swapped pairs
      from then on, every later ioctl delivering two from B on. */
  lemma DeliveryOrder(envs: seq<Env>, maxTimeouts: nat)
    requires CleanRun(FreshSystem, envs, maxTimeouts)
    ensures var c := Run(FreshSystem, envs, maxTimeouts).client;
            && (forall j: nat :: j < |c.delivered| ==> c.delivered[j] == BlockAt(Pivot(c.bursts), j))
            && (forall i, j :: 0 <= i < j < |c.bursts| && c.bursts[i] == Burst(BUFFERB, 2) ==>
                  c.bursts[j] == Burst(BUFFERB, 2))
            && ((forall i :: 0 <= i < |c.bursts| ==> c.bursts[i] != Burst(BUFFERB, 2)) ==>
                  forall j: nat :: j < |c.delivered| ==> c.delivered[j] == j)
  {
    FreshClean();
    CleanRunKeeps(FreshSystem, envs, maxTimeouts);
  }

  /** In every clean run the blocks delivered so far are exactly the first ones the card
      read out, each once, none out of place by more than one, and `total` is the sum
      of their lengths. */
  lemma ExactlyOnce(envs: seq<Env>, maxTimeouts: nat)
    requires CleanRun(FreshSystem, envs, maxTimeouts)
    ensures var s := Run(FreshSystem, envs, maxTimeouts);
            var c, m := s.client, |s.client.delivered|;
            && (forall t: nat :: t in c.delivered <==> t < m)
            && (forall i, j :: 0 <= i < j < m ==> c.delivered[i] != c.delivered[j])
            && (forall j: nat :: j < m ==> -1 <= c.delivered[j] - j <= 1)
            && m <= |s.driver.answers|
            && c.total == Bytes(s.driver.answers, m) % TWO_TO_THE_64
  {
    FreshClean();
    CleanRunKeeps(FreshSystem, envs, maxTimeouts);
    var c := Run(FreshSystem, envs, maxTimeouts).client;
    OrderedIsPermutation(c);
  }

  lemma BlockAtSwaps(pivot: Option<nat>, m: nat, j: nat)
    requires pivot.Some? ==> pivot.value <= m && (m - pivot.value) % 2 == 0
    requires j < m
    ensures BlockAt(pivot, j) < m && BlockAt(pivot, BlockAt(pivot, j)) == j
    ensures -1 <= BlockAt(pivot, j) - j <= 1
  {
  }

  lemma OrderedIsPermutation(c: Client)
    requires Ordered(c)
    ensures forall t: nat :: t in c.delivered <==> t < |c.delivered|
    ensures forall i, j :: 0 <= i < j < |c.delivered| ==> c.delivered[i] != c.delivered[j]
    ensures forall j: nat :: j < |c.delivered| ==> -1 <= c.delivered[j] - j <= 1
  {
    var p, m := Pivot(c.bursts), |c.delivered|;
    forall j: nat | j < m
      ensures c.delivered[j] < m && BlockAt(p, c.delivered[j]) == j && -1 <= c.delivered[j] - j <= 1
    {
      BlockAtSwaps(p, m, j);
    }
    forall t: nat | t < m ensures t in c.delivered {
      BlockAtSwaps(p, m, t);
      assert c.delivered[BlockAt(p, t)] == t;
    }
  }
}
