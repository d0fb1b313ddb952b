/** Runs of the swinging-buffer protocol: how delivery gets out of order, and how a repeated
    ioctl loses blocks. */
module SwingExamples {
  import opened Handlers
  import opened SwingBuffer
  import opened SwingRuns
  import opened SwingLosses

  const BLOCK := Data(0, 512)
  const FULL := 1024

  /** How many timeouts in a row the client puts up with, more than by default. */
  const PATIENCE: nat := 100

  function Blocks(n: nat): Env {
    Env(seq(n, _ => BLOCK), [], [], Timed)
  }

  const TIMEOUT := Env([], [], [], Timed)

  function AnswerMany(d: Driver, n: nat): (r: Driver)
    requires Formed(d)
    ensures Formed(r)
    decreases n
  {
    if n == 0 then d else AnswerMany(AnswerOne(d, BLOCK), n - 1)
  }

  lemma {:induction false} AnswerBlocks(d: Driver, n: nat)
    requires Formed(d)
    ensures AnswerAll(d, seq(n, _ => BLOCK)) == AnswerMany(d, n)
    decreases n
  {
    if n > 0 {
      AnswerBlocks(AnswerOne(d, BLOCK), n - 1);
      assert seq(n, _ => BLOCK)[1..] == seq(n - 1, _ => BLOCK);
    }
  }

  /** Small request numbers have different ids. */
  lemma AnswerSmall(d: Driver, a: Answer)
    requires Formed(d) && d.fifo != [] && d.fifo[0].tag < 100
    requires forall b: nat :: b < 2 && !d.slots[b].Empty? ==>
      d.slots[b].tag < 100 && (d.slots[b].tag == d.fifo[0].tag ==> d.slots[b].Waiting? && b == d.fifo[0].buffer)
    ensures AnswerOne(d, a) == AnswerByRequest(d, a)
  {
    forall b: nat | b < 2 && !d.slots[b].Empty?
      ensures HasId(d.slots[b], Id(d.fifo[0].tag)) <==> d.slots[b].tag == d.fifo[0].tag
    {
      RecentIds(d.slots[b].tag, d.fifo[0].tag);
    }
  }

  lemma AnswerTwo(d0: Driver, d1: Driver, d2: Driver)
    requires Formed(d0) && d1 == AnswerOne(d0, BLOCK) && d2 == AnswerOne(d1, BLOCK)
    ensures AnswerMany(d0, 2) == d2
  {
    assert AnswerMany(d0, 2) == AnswerMany(d1, 1) == AnswerMany(d2, 0);
  }

  /** Both looks of a successful ioctl. */
  function LookTwice(d: Driver, len: seq<nat>): (Driver, Status)
    requires Formed(d) && |len| == 2
  {
    var (d2, ds2, _) := FillStatus(d, Status([false, false], false, len));
    var (d3, ds3, _) := FillStatus(d2, ds2);
    (d3, ds3)
  }

  lemma LooksAtBoth(d: Driver, len: seq<nat>, reported: seq<nat>)
    requires Formed(d) && |len| == 2 && d.slots[BUFFERA].Filled? && d.slots[BUFFERB].Filled?
    requires d.slots[BUFFERA].answer == BLOCK == d.slots[BUFFERB].answer
    requires reported == d.reported + [d.slots[d.abNext].tag, d.slots[Other(d.abNext)].tag]
    ensures LookTwice(d, len) == (d.(reported := reported), Status([true, true], false, [FULL, FULL]))
  {
    var (d3, ds) := LookTwice(d, len);
    assert d3.reported == reported;
    assert ds.full == [true, true] && ds.len == [FULL, FULL];
  }

  /** A successful turn in which the card answers `n` requests while the client waits. */
  lemma BlocksTurn(s: System, n: nat, d1: Driver, d3: Driver, ds: Status)
    requires SystemFormed(s) && !s.client.stopped && Formed(d3) && |ds.full| == 2 == |ds.len|
    requires d1 == AnswerMany(Prepare(s.driver, s.client.recycle), n) && d1.slots[d1.abNext].Filled?
    requires LookTwice(d1, s.client.ds.len) == (d3, ds)
    ensures Turn(s, Blocks(n), PATIENCE) == System(d3, Succeed(s.client, ds, d3.memory))
  {
    AnswerBlocks(Prepare(s.driver, s.client.recycle), n);
  }

  lemma RunCons(s: System, e: Env, rest: seq<Env>)
    requires SystemFormed(s)
    ensures Run(s, [e] + rest, PATIENCE) == Run(Turn(s, e, PATIENCE), rest, PATIENCE)
  {
    assert ([e] + rest)[1..] == rest;
  }

  lemma RunThree(s: System, s1: System, s2: System, s3: System, e1: Env, e2: Env, e3: Env)
    requires SystemFormed(s) && SystemFormed(s1) && SystemFormed(s2)
    requires Turn(s, e1, PATIENCE) == s1 && Turn(s1, e2, PATIENCE) == s2 && Turn(s2, e3, PATIENCE) == s3
    ensures Run(s, [e1] + ([e2] + ([e3] + [])), PATIENCE) == s3
  {
    RunCons(s, e1, [e2] + ([e3] + []));
    RunCons(s1, e2, [e3] + []);
    RunCons(s2, e3, []);
  }

  // Out of order: one block from A, then two from B on.

  function OneFromA(): System {
    System(Driver([Filled(0, BLOCK), Waiting(1)], BUFFERB, 2, [Pending(1, BUFFERB)], [BLOCK], [0, 0], [0], []),
           Client(BUFFERB, [true, false], Status([true, false], false, [FULL, 0]), FULL, 0, true, false, false,
                  [0], [Burst(BUFFERA, 1)]))
  }

  lemma OneFromAAnswered()
    ensures AnswerMany(Prepare(FreshDriver, [false, false]), 1) == OneFromA().driver.(reported := [], abNext := BUFFERA)
  {
    var d0 := Prepare(FreshDriver, [false, false]);
    assert d0.fifo == [Pending(0, BUFFERA), Pending(1, BUFFERB)];
    var d1 := Driver([Filled(0, BLOCK), Waiting(1)], BUFFERA, 2, [Pending(1, BUFFERB)], [BLOCK], [0, 0], [], []);
    assert AnswerOne(d0, BLOCK) == d1;
    assert AnswerMany(d0, 1) == AnswerMany(d1, 0);
  }

  lemma OneFromALooks()
    ensures LookTwice(OneFromA().driver.(reported := [], abNext := BUFFERA), [0, 0])
         == (OneFromA().driver, OneFromA().client.ds)
  {
    var (d3, ds) := LookTwice(OneFromA().driver.(reported := [], abNext := BUFFERA), [0, 0]);
    assert d3.reported == [0] && ds.full == [true, false] && ds.len == [FULL, 0];
  }

  lemma OneFromAClient()
    ensures Succeed(FreshClient, OneFromA().client.ds, [0, 0]) == OneFromA().client
  {
    var c := Succeed(FreshClient, OneFromA().client.ds, [0, 0]);
    assert c.delivered == [0] && c.recycle == [true, false];
  }

  lemma OneFromAReached()
    ensures Turn(FreshSystem, Blocks(1), PATIENCE) == OneFromA()
  {
    OneFromAAnswered();
    OneFromALooks();
    OneFromAClient();
    BlocksTurn(FreshSystem, 1, OneFromA().driver.(reported := [], abNext := BUFFERA), OneFromA().driver,
               OneFromA().client.ds);
  }

  function TwoFromB(): System {
    System(Driver([Filled(2, BLOCK), Filled(1, BLOCK)], BUFFERB, 3, [], [BLOCK, BLOCK, BLOCK], [2, 1], [0, 1, 2], []),
           Client(BUFFERB, [true, true], Status([true, true], false, [FULL, FULL]), 3 * FULL, 0, true, false, false,
                  [0, 1, 2], [Burst(BUFFERA, 1), Burst(BUFFERB, 2)]))
  }

  function ThirdQueued(): Driver {
    Driver([Waiting(2), Waiting(1)], BUFFERB, 3, [Pending(1, BUFFERB), Pending(2, BUFFERA)], [BLOCK], [0, 0], [0], [])
  }

  lemma ThirdIsQueued()
    ensures Prepare(OneFromA().driver, [true, false]) == ThirdQueued()
  {
    var d := TakeBack(OneFromA().driver, [true, false]);
    assert d.slots == [Empty, Waiting(1)] && d.givenUp == [];
  }

  lemma TwoFromBAnswered()
    ensures AnswerMany(Prepare(OneFromA().driver, [true, false]), 2) == TwoFromB().driver.(reported := [0])
  {
    ThirdIsQueued();
    var d0 := ThirdQueued();
    var d1 := Driver([Waiting(2), Filled(1, BLOCK)], BUFFERB, 3, [Pending(2, BUFFERA)],
                     [BLOCK, BLOCK], [0, 1], [0], []);
    AnswerSmall(d0, BLOCK);
    assert AnswerOne(d0, BLOCK) == d1;
    AnswerSmall(d1, BLOCK);
    assert AnswerOne(d1, BLOCK) == TwoFromB().driver.(reported := [0]);
    AnswerTwo(d0, d1, TwoFromB().driver.(reported := [0]));
  }

  lemma TwoFromBClient()
    ensures Succeed(OneFromA().client, TwoFromB().client.ds, [2, 1]) == TwoFromB().client
  {
    var c := Succeed(OneFromA().client, TwoFromB().client.ds, [2, 1]);
    assert c.delivered == [0, 1, 2] && c.recycle == [true, true];
  }

  lemma TwoFromBReached()
    ensures Turn(OneFromA(), Blocks(2), PATIENCE) == TwoFromB()
  {
    TwoFromBAnswered();
    TwoFromBClient();
    LooksAtBoth(TwoFromB().driver.(reported := [0]), [FULL, 0], [0, 1, 2]);
    BlocksTurn(OneFromA(), 2, TwoFromB().driver.(reported := [0]), TwoFromB().driver, TwoFromB().client.ds);
  }

  function Swapped(): Driver {
    Driver([Filled(3, BLOCK), Filled(4, BLOCK)], BUFFERB, 5, [],
           [BLOCK, BLOCK, BLOCK, BLOCK, BLOCK], [3, 4], [0, 1, 2, 4, 3], [])
  }

  function BothQueued(): Driver {
    Driver([Waiting(3), Waiting(4)], BUFFERB, 5, [Pending(3, BUFFERA), Pending(4, BUFFERB)],
           [BLOCK, BLOCK, BLOCK], [2, 1], [0, 1, 2], [])
  }

  lemma BothAreQueued()
    ensures Prepare(TwoFromB().driver, [true, true]) == BothQueued()
  {
    var d := TakeBack(TwoFromB().driver, [true, true]);
    assert d.slots == [Empty, Empty] && d.givenUp == [];
  }

  lemma SwappedAnswered()
    ensures AnswerMany(Prepare(TwoFromB().driver, [true, true]), 2) == Swapped().(reported := [0, 1, 2])
  {
    BothAreQueued();
    var d0 := BothQueued();
    var d1 := Driver([Filled(3, BLOCK), Waiting(4)], BUFFERB, 5, [Pending(4, BUFFERB)],
                     [BLOCK, BLOCK, BLOCK, BLOCK], [3, 1], [0, 1, 2], []);
    AnswerSmall(d0, BLOCK);
    assert AnswerOne(d0, BLOCK) == d1;
    SwappedSecond(d1);
    AnswerTwo(d0, d1, Swapped().(reported := [0, 1, 2]));
  }

  lemma SwappedSecond(d1: Driver)
    requires d1 == Driver([Filled(3, BLOCK), Waiting(4)], BUFFERB, 5, [Pending(4, BUFFERB)],
                          [BLOCK, BLOCK, BLOCK, BLOCK], [3, 1], [0, 1, 2], [])
    ensures AnswerOne(d1, BLOCK) == Swapped().(reported := [0, 1, 2])
  {
    AnswerSmall(d1, BLOCK);
  }

  lemma SwappedPair()
    ensures Turn(TwoFromB(), Blocks(2), PATIENCE).client.delivered == [0, 1, 2, 4, 3]
  {
    SwappedAnswered();
    LooksAtBoth(Swapped().(reported := [0, 1, 2]), [FULL, FULL], [0, 1, 2, 4, 3]);
    BlocksTurn(TwoFromB(), 2, Swapped().(reported := [0, 1, 2]), Swapped(), TwoFromB().client.ds);
  }

  /** Once two blocks have been delivered from B on, the next pair comes out swapped. */
  lemma PairsSwapAfterB()
    ensures var s := Run(FreshSystem, [Blocks(1)] + ([Blocks(2)] + ([Blocks(2)] + [])), PATIENCE);
            s.client.delivered == [0, 1, 2, 4, 3]
  {
    OneFromAReached();
    TwoFromBReached();
    SwappedPair();
    RunThree(FreshSystem, OneFromA(), TwoFromB(), Turn(TwoFromB(), Blocks(2), PATIENCE),
             Blocks(1), Blocks(2), Blocks(2));
  }

  // Losing blocks: two blocks, a timeout, and the call repeated.

  function TwoFromA(): System {
    System(Driver([Filled(0, BLOCK), Filled(1, BLOCK)], BUFFERA, 2, [], [BLOCK, BLOCK], [0, 1], [0, 1], []),
           Client(BUFFERA, [true, true], Status([true, true], false, [FULL, FULL]), 2 * FULL, 0, true, false, false,
                  [0, 1], [Burst(BUFFERA, 2)]))
  }

  lemma TwoFromAAnswered()
    ensures AnswerMany(Prepare(FreshDriver, [false, false]), 2) == TwoFromA().driver.(reported := [])
  {
    var d0 := Prepare(FreshDriver, [false, false]);
    assert d0.fifo == [Pending(0, BUFFERA), Pending(1, BUFFERB)];
    var d1 := AnswerOne(d0, BLOCK);
    assert d1 == Driver([Filled(0, BLOCK), Waiting(1)], BUFFERA, 2, [Pending(1, BUFFERB)], [BLOCK], [0, 0], [], []);
    assert AnswerOne(d1, BLOCK) == TwoFromA().driver.(reported := []);
    AnswerTwo(d0, d1, TwoFromA().driver.(reported := []));
  }

  lemma TwoFromAClient()
    ensures Succeed(FreshClient, TwoFromA().client.ds, [0, 1]) == TwoFromA().client
  {
    var c := Succeed(FreshClient, TwoFromA().client.ds, [0, 1]);
    assert c.delivered == [0, 1] && c.recycle == [true, true];
  }

  lemma TwoFromAReached()
    ensures Turn(FreshSystem, Blocks(2), PATIENCE) == TwoFromA()
  {
    TwoFromAAnswered();
    TwoFromAClient();
    LooksAtBoth(TwoFromA().driver.(reported := []), [0, 0], [0, 1]);
    BlocksTurn(FreshSystem, 2, TwoFromA().driver.(reported := []), TwoFromA().driver, TwoFromA().client.ds);
  }

  function Requeued(): System {
    System(Driver([Waiting(2), Waiting(3)], BUFFERA, 4, [Pending(2, BUFFERA), Pending(3, BUFFERB)],
                  [BLOCK, BLOCK], [0, 1], [0, 1], []),
           TwoFromA().client.(retrying := true, timeouts := 1))
  }

  lemma TimeoutRequeues()
    ensures Turn(TwoFromA(), TIMEOUT, PATIENCE) == Requeued()
  {
    assert Prepare(TwoFromA().driver, [true, true]) == Requeued().driver;
  }

  function Lost(): Driver {
    Driver([Filled(4, BLOCK), Filled(5, BLOCK)], BUFFERA, 6, [],
           [BLOCK, BLOCK, BLOCK, BLOCK, BLOCK, BLOCK], [4, 5], [0, 1, 4, 5], [2, 3])
  }

  /** The first two answers find the handlers of their requests gone. */
  lemma OrphansAnswered(d0: Driver, d2: Driver)
    requires d0 == Driver([Waiting(4), Waiting(5)], BUFFERA, 6,
                          [Pending(2, BUFFERA), Pending(3, BUFFERB), Pending(4, BUFFERA), Pending(5, BUFFERB)],
                          [BLOCK, BLOCK], [0, 1], [0, 1], [2, 3])
    requires d2 == Driver([Waiting(4), Waiting(5)], BUFFERA, 6, [Pending(4, BUFFERA), Pending(5, BUFFERB)],
                          [BLOCK, BLOCK, BLOCK, BLOCK], [2, 3], [0, 1], [2, 3])
    ensures AnswerMany(d0, 4) == AnswerMany(d2, 2)
  {
    var d1 := d0.(fifo := d0.fifo[1..], answers := [BLOCK, BLOCK, BLOCK], memory := [2, 1]);
    AnswerSmall(d0, BLOCK);
    assert AnswerOne(d0, BLOCK) == d1;
    AnswerSmall(d1, BLOCK);
    assert AnswerOne(d1, BLOCK) == d2;
    assert AnswerMany(d0, 4) == AnswerMany(d1, 3) == AnswerMany(d2, 2);
  }

  lemma LostAnswered()
    ensures AnswerMany(Prepare(Requeued().driver, [true, true]), 4) == Lost().(reported := [0, 1])
  {
    var d0 := Prepare(Requeued().driver, [true, true]);
    var d2 := Driver([Waiting(4), Waiting(5)], BUFFERA, 6, [Pending(4, BUFFERA), Pending(5, BUFFERB)],
                     [BLOCK, BLOCK, BLOCK, BLOCK], [2, 3], [0, 1], [2, 3]);
    OrphansAnswered(d0, d2);
    var d3 := Driver([Filled(4, BLOCK), Waiting(5)], BUFFERA, 6, [Pending(5, BUFFERB)],
                     [BLOCK, BLOCK, BLOCK, BLOCK, BLOCK], [4, 3], [0, 1], [2, 3]);
    AnswerSmall(d2, BLOCK);
    assert AnswerOne(d2, BLOCK) == d3;
    LostSecond(d3);
    AnswerTwo(d2, d3, Lost().(reported := [0, 1]));
  }

  lemma LostSecond(d3: Driver)
    requires d3 == Driver([Filled(4, BLOCK), Waiting(5)], BUFFERA, 6, [Pending(5, BUFFERB)],
                          [BLOCK, BLOCK, BLOCK, BLOCK, BLOCK], [4, 3], [0, 1], [2, 3])
    ensures AnswerOne(d3, BLOCK) == Lost().(reported := [0, 1])
  {
    AnswerSmall(d3, BLOCK);
  }

  lemma RepeatLoses()
    ensures var s := Turn(Requeued(), Blocks(4), PATIENCE);
            s.client.delivered == [0, 1, 4, 5] && s.driver == Lost()
  {
    LostAnswered();
    LooksAtBoth(Lost().(reported := [0, 1]), [FULL, FULL], [0, 1, 4, 5]);
    BlocksTurn(Requeued(), 4, Lost().(reported := [0, 1]), Lost(), TwoFromA().client.ds);
  }

  lemma LostAreMissing(s: System)
    requires s.client.delivered == [0, 1, 4, 5] && s.driver == Lost()
    ensures s.driver.givenUp == [2, 3] && Missing(s, 2) && Missing(s, 3)
  {
  }

  /** Two blocks delivered, a timeout, and the same call again: blocks 2 and 3, asked
      for by the call that timed out, never reach the client. */
  lemma RepeatedIoctlLosesBlocks() returns (envs: seq<Env>)
    ensures envs == [Blocks(2)] + ([TIMEOUT] + ([Blocks(4)] + []))
    ensures var s := Run(FreshSystem, envs, PATIENCE);
            s.client.delivered == [0, 1, 4, 5] && s.driver.givenUp == [2, 3] && Missing(s, 2) && Missing(s, 3)
  {
    envs := [Blocks(2)] + ([TIMEOUT] + ([Blocks(4)] + []));
    var s := Turn(Requeued(), Blocks(4), PATIENCE);
    TwoFromAReached();
    TimeoutRequeues();
    RepeatLoses();
    RunThree(FreshSystem, TwoFromA(), Requeued(), s, Blocks(2), TIMEOUT, Blocks(4));
    LostAreMissing(s);
  }
}
