/** Runs of the swinging-buffer protocol in which ids are used again while still carried: two
    blocks, 64 timeouts, and further calls. */
module SwingReuse {
  import opened Handlers
  import opened Ids
  import opened Options
  import opened SwingBuffer
  import opened SwingRuns
  import opened SwingLosses
  import opened SwingExamples

  ghost predicate Reached(s: System) {
    exists envs :: Run(FreshSystem, envs, PATIENCE) == s
  }

  lemma {:induction false} RunSnoc(s: System, envs: seq<Env>, e: Env)
    requires SystemFormed(s)
    ensures Run(s, envs + [e], PATIENCE) == Turn(Run(s, envs, PATIENCE), e, PATIENCE)
    decreases |envs|
  {
    if envs == [] {
      assert [] + [e] == [e];
      RunCons(s, e, []);
      assert [e] + [] == [e];
    } else {
      assert (envs + [e])[1..] == envs[1..] + [e];
      RunSnoc(Turn(s, envs[0], PATIENCE), envs[1..], e);
    }
  }

  lemma OnceMore(s: System, e: Env)
    requires SystemFormed(s) && Reached(s)
    ensures Reached(Turn(s, e, PATIENCE))
  {
    var envs :| Run(FreshSystem, envs, PATIENCE) == s;
    RunSnoc(FreshSystem, envs, e);
  }

  /** The requests made by `k` repeats, none of them answered. */
  function Backlog(k: nat): seq<Pending> {
    seq(2 * k, i requires 0 <= i => Pending(2 + i, i % 2))
  }

  /** The requests thrown away when there have been `k` repeats. */
  function GivenUp(k: nat): seq<nat> {
    seq(2 * k, i requires 0 <= i => 2 + i)
  }

  /** Two blocks delivered, and `k` timeouts since. */
  function Repeated(k: nat): System
    requires k > 0
  {
    System(Driver([Waiting(2 * k), Waiting(2 * k + 1)], BUFFERA, 2 * k + 2, Backlog(k), [BLOCK, BLOCK], [0, 1], [0, 1],
                  GivenUp(k - 1)),
           TwoFromA().client.(retrying := true, timeouts := k))
  }

  lemma RepeatQueues(k: nat)
    requires k > 0
    ensures Prepare(Repeated(k).driver, [true, true]) == Repeated(k + 1).driver
  {
    var d0 := Repeated(k).driver;
    var d1 := TakeBack(d0, [true, true]);
    assert d1.slots == [Empty, Empty];
    assert d1.givenUp == GivenUp(k - 1) + [2 * k] + [2 * k + 1] == GivenUp(k);
    assert Backlog(k) + [Pending(2 * k + 2, BUFFERA)] + [Pending(2 * k + 3, BUFFERB)] == Backlog(k + 1);
  }

  lemma TimeoutRepeats(k: nat)
    requires 0 < k < PATIENCE - 1
    ensures Turn(Repeated(k), TIMEOUT, PATIENCE) == Repeated(k + 1)
  {
    RepeatQueues(k);
  }

  lemma FreshReached()
    ensures Reached(FreshSystem)
  {
    assert Run(FreshSystem, [], PATIENCE) == FreshSystem;
  }

  lemma RequeuedIsRepeated()
    ensures Requeued() == Repeated(1)
  {
    assert Backlog(1) == [Pending(2, BUFFERA), Pending(3, BUFFERB)] && GivenUp(0) == [];
  }

  lemma FirstRepeat()
    ensures Reached(Repeated(1))
  {
    FreshReached();
    TwoFromAReached();
    OnceMore(FreshSystem, Blocks(2));
    RequeuedIsRepeated();
    TimeoutRequeues();
    OnceMore(TwoFromA(), TIMEOUT);
  }

  lemma {:induction false} RepeatsReached(k: nat)
    requires 0 < k < PATIENCE
    ensures Reached(Repeated(k))
  {
    if k == 1 {
      FirstRepeat();
    } else {
      RepeatsReached(k - 1);
      TimeoutRepeats(k - 1);
      OnceMore(Repeated(k - 1), TIMEOUT);
    }
  }

  function Confused(): Driver {
    Repeated(65).driver.(slots := [Filled(130, BLOCK), Waiting(131)], fifo := Backlog(65)[1..],
                         answers := [BLOCK, BLOCK, BLOCK], memory := [2, 1])
  }

  /** Request 2 carries the same id as request 130. */
  lemma ConfusedAnswered()
    ensures AnswerMany(Repeated(65).driver, 1) == Confused()
  {
    var d := Repeated(65).driver;
    assert d.fifo[0] == Pending(2, BUFFERA) && Id(2) == Id(130);
    assert AnswerOne(d, BLOCK) == Confused();
    assert AnswerMany(d, 1) == AnswerMany(Confused(), 0);
  }

  lemma ConfusedReports()
    ensures var s := Turn(Repeated(64), Blocks(1), PATIENCE);
            && s.client.delivered == [0, 1, 2] && s.client.recycle == [true, false] && s.client.next == BUFFERB
            && !s.client.stopped && s.driver == Confused().(reported := [0, 1, 130], abNext := BUFFERB)
  {
    RepeatQueues(64);
    ConfusedAnswered();
    var (d3, ds) := LookTwice(Confused(), [FULL, FULL]);
    assert d3.reported == [0, 1, 130] && ds.full == [true, false];
    BlocksTurn(Repeated(64), 1, Confused(), d3, ds);
    assert Succeed(Repeated(64).client, ds, [2, 1]).delivered == [0, 1, 2];
  }

  lemma ConfusedState(s: System)
    requires s.client.delivered == [0, 1, 2] && s.driver == Confused().(reported := [0, 1, 130], abNext := BUFFERB)
    ensures s.driver.reported == [0, 1, 130] && 2 in s.driver.givenUp && |s.driver.fifo| == 129
    ensures forall i :: 0 <= i < 129 ==> s.driver.fifo[i] == Pending(i + 3, (i + 1) % 2)
  {
    assert GivenUp(64)[0] == 2;
  }

  /** Two blocks delivered, 64 timeouts, and the same call once more, with 130 requests at
      the card: the first answer reaches a handler of the same id, 128 requests younger. The
      driver reports request 130 in buffer A, but what the client finds there is block 2,
      whose request had been given up; 64 more requests for A are still at the card. */
  lemma ReusedIdDeliversGivenUpBlock() returns (s: System)
    ensures Reached(s)
    ensures s.client.delivered == [0, 1, 2] && s.driver.reported == [0, 1, 130] && 2 in s.driver.givenUp
    ensures |s.driver.fifo| == 129
    ensures forall i :: 0 <= i < 129 ==> s.driver.fifo[i] == Pending(i + 3, (i + 1) % 2)
  {
    RepeatsReached(64);
    s := Turn(Repeated(64), Blocks(1), PATIENCE);
    OnceMore(Repeated(64), Blocks(1));
    ConfusedReports();
    ConfusedState(s);
  }

  // The same, and 128 calls more.

  function Upto(k: nat): seq<nat> {
    seq(k, i requires 0 <= i => i)
  }

  function Outstanding(j: nat, n: nat): seq<Pending> {
    seq(n, i requires 0 <= i => Pending(2 + j + i, (j + i) % 2))
  }

  function Read(k: nat): seq<Answer> {
    seq(k, _ => BLOCK)
  }

  function Reports(j: nat): seq<nat> {
    [0, 1] + seq(j, i requires 0 <= i => 130 + i)
  }

  /** The two values, the one of the buffer `n` second. */
  function InBuffers<T>(n: nat, other: T, own: T): seq<T> {
    if n == BUFFERB then [other, own] else [own, other]
  }

  /** The driver `j` calls after the timeouts, each of which has reported one buffer. */
  function Caught(j: nat): Driver {
    var n := j % 2;
    Driver(InBuffers(n, Filled(129 + j, BLOCK), Waiting(130 + j)), n, 131 + j, Outstanding(j, 129), Read(2 + j),
           InBuffers(n, 1 + j, j), Reports(j), GivenUp(64))
  }

  ghost predicate CatchingUp(s: System, j: nat) {
    && j > 0 && s.driver == Caught(j)
    && ClientFormed(s.client) && !s.client.stopped && s.client.next == j % 2
    && s.client.recycle == InBuffers(j % 2, true, false) && s.client.delivered == Upto(2 + j)
  }

  /** The driver when the next call has made its request. */
  function CaughtQueued(j: nat): Driver {
    var n := j % 2;
    Caught(j).(slots := InBuffers(n, Waiting(131 + j), Waiting(130 + j)), sent := 132 + j,
               fifo := Outstanding(j, 130))
  }

  lemma CaughtQueues(j: nat)
    requires j > 0
    ensures Prepare(Caught(j), InBuffers(j % 2, true, false)) == CaughtQueued(j)
  {
    var d, n := Caught(j), j % 2;
    assert d.reported[1 + j] == 129 + j;
    var d1 := TakeBack(d, InBuffers(n, true, false));
    assert d1 == d.(slots := InBuffers(n, Empty, Waiting(130 + j)));
    assert Outstanding(j, 130) == Outstanding(j, 129) + [Pending(131 + j, Other(n))];
  }

  /** Its answer goes to the handler of the same id, 128 requests younger. */
  lemma CaughtAnswered(j: nat)
    ensures AnswerMany(CaughtQueued(j), 1) == Caught(j + 1).(reported := Reports(j), abNext := j % 2)
  {
    var d, d' := CaughtQueued(j), Caught(j + 1).(reported := Reports(j), abNext := j % 2);
    assert d.fifo[0] == Pending(2 + j, j % 2);
    SameIdIff(3 + j, 131 + j);
    SameIdIff(3 + j, 132 + j);
    assert FindSlot(d.slots, Id(2 + j)) == Some(j % 2);
    assert Outstanding(j, 130)[1..] == Outstanding(j + 1, 129);
    assert Read(2 + j) + [BLOCK] == Read(3 + j);
    assert AnswerOne(d, BLOCK) == d';
    assert AnswerMany(d, 1) == AnswerMany(d', 0);
  }

  lemma CaughtLooks(j: nat, len: seq<nat>)
    requires |len| == 2
    ensures var (d3, ds) := LookTwice(Caught(j + 1).(reported := Reports(j), abNext := j % 2), len);
            && d3 == Caught(j + 1) && ds.full == InBuffers((j + 1) % 2, true, false) && !ds.eof && |ds.len| == 2
  {
    var (d3, ds) := LookTwice(Caught(j + 1).(reported := Reports(j), abNext := j % 2), len);
    assert d3.reported == Reports(j + 1);
  }

  lemma CaughtTurn(s: System, j: nat) returns (ds: Status)
    requires CatchingUp(s, j)
    ensures |ds.len| == 2 && ds.full == InBuffers((j + 1) % 2, true, false) && !ds.eof
    ensures Turn(s, Blocks(1), PATIENCE) == System(Caught(j + 1), Succeed(s.client, ds, Caught(j + 1).memory))
  {
    var d1 := Caught(j + 1).(reported := Reports(j), abNext := j % 2);
    CaughtQueues(j);
    CaughtAnswered(j);
    CaughtLooks(j, s.client.ds.len);
    ds := LookTwice(d1, s.client.ds.len).1;
    BlocksTurn(s, 1, d1, Caught(j + 1), ds);
  }

  lemma CaughtClient(c: Client, ds: Status, j: nat)
    requires ClientFormed(c) && c.next == j % 2 && c.delivered == Upto(2 + j)
    requires |ds.len| == 2 && ds.full == InBuffers((j + 1) % 2, true, false) && !ds.eof
    ensures var c' := Succeed(c, ds, Caught(j + 1).memory);
            && c'.next == (j + 1) % 2 && !c'.stopped
            && c'.recycle == InBuffers((j + 1) % 2, true, false) && c'.delivered == Upto(3 + j)
  {
    SucceedProcesses(c, ds, Caught(j + 1).memory);
    assert Upto(2 + j) + [2 + j] + [] == Upto(3 + j);
  }

  lemma CatchUpOne(s: System, j: nat)
    requires CatchingUp(s, j)
    ensures CatchingUp(Turn(s, Blocks(1), PATIENCE), j + 1)
  {
    var ds := CaughtTurn(s, j);
    CaughtClient(s.client, ds, j);
  }

  lemma ConfusedIsCaught()
    ensures CatchingUp(Turn(Repeated(64), Blocks(1), PATIENCE), 1)
  {
    ConfusedReports();
    ConfusedDriver();
    assert Upto(3) == [0, 1, 2];
  }

  lemma ConfusedDriver()
    ensures Confused().(reported := [0, 1, 130], abNext := BUFFERB) == Caught(1)
  {
    assert Backlog(65)[1..] == Outstanding(1, 129);
    assert Read(3) == [BLOCK, BLOCK, BLOCK] && Reports(1) == [0, 1, 130];
  }

  lemma CatchUpFirst() returns (s: System)
    ensures Reached(s) && CatchingUp(s, 1)
  {
    RepeatsReached(64);
    s := Turn(Repeated(64), Blocks(1), PATIENCE);
    OnceMore(Repeated(64), Blocks(1));
    ConfusedIsCaught();
  }

  lemma CatchUpNext(s: System, j: nat) returns (s': System)
    requires Reached(s) && CatchingUp(s, j)
    ensures Reached(s') && CatchingUp(s', j + 1)
  {
    s' := Turn(s, Blocks(1), PATIENCE);
    OnceMore(s, Blocks(1));
    CatchUpOne(s, j);
  }

  lemma {:induction false} CatchUp(j: nat) returns (s: System)
    requires j > 0
    ensures Reached(s) && CatchingUp(s, j)
  {
    if j == 1 {
      s := CatchUpFirst();
    } else {
      var s1 := CatchUp(j - 1);
      s := CatchUpNext(s1, j - 1);
    }
  }

  /** Giving up requests need not cost blocks once ids are used again: two blocks, 64 timeouts,
      and 128 more calls with one answer each deliver blocks 0 to 129, all the card has read
      out, in order, though requests 2 to 129 have all been given up. */
  lemma ReusedIdsDeliverAllGivenUp() returns (envs: seq<Env>)
    ensures !CleanRun(FreshSystem, envs, PATIENCE) && !UnusedIds(FreshSystem, envs, PATIENCE)
    ensures var s := Run(FreshSystem, envs, PATIENCE);
            && s.client.delivered == Upto(130) && |s.driver.answers| == 130
            && |s.driver.givenUp| == 128 && (forall i :: 0 <= i < 128 ==> s.driver.givenUp[i] == 2 + i)
  {
    var s := CatchUp(128);
    envs :| Run(FreshSystem, envs, PATIENCE) == s;
    RequestsGivenUpIffRetried(envs, PATIENCE);
    assert s.driver.givenUp[0] == 2 && s.client.delivered[2] == 2;
    if UnusedIds(FreshSystem, envs, PATIENCE) {
      EveryBlockAccountedFor(envs, PATIENCE);
      assert false;
    }
  }
}
