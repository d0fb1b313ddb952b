/** How the swinging-buffer ioctl answers its caller, and when the client stops. */
module SwingEnds {
  import opened Ids
  import opened Handlers
  import opened SwingBuffer
  import opened SwingRuns

  // The card's answer.

  /** A request's id is the one after those of the `tag` sent before it, whatever the 16-bit
      counter of sends holds by then. */
  lemma IdFollows(tag: nat)
    ensures Id(tag) == MakeId(Short(tag) + 1)
  {
    ShortKeepsId(tag);
  }

  /** The slot's handler carries the id, and is the older if the other does too. */
  predicate OldestWith(slots: seq<Slot>, id: nat, b: nat)
    requires |slots| == 2 && b < 2
  {
    var o := slots[Other(b)];
    && HasId(slots[b], id)
    && (HasId(o, id) ==> slots[b].tag < o.tag || (slots[b].tag == o.tag && b == BUFFERA))
  }

  /** The oldest request is answered: the card's buffer holds the next block, and a listed
      handler with the request's id has the answer in place of any it had, the older if there
      are two. The other handler keeps what it has. */
  lemma AnswerTaken(d: Driver, a: Answer)
    requires Formed(d) && d.fifo != []
    ensures var d', id := AnswerOne(d, a), Id(d.fifo[0].tag);
            && d'.fifo == d.fifo[1..] && d'.answers == d.answers + [a]
            && d'.memory[d.fifo[0].buffer] == |d.answers|
            && (forall b: nat :: b < 2 ==>
                 d'.slots[b] == if OldestWith(d.slots, id, b) then Filled(d.slots[b].tag, a) else d.slots[b])
  {
  }

  // The ioctl's answer.

  /** What an ioctl replies: refused if it does not get the device; otherwise a success if the
      next buffer is full at the end of the wait, but for a wait whose time runs out without
      another look, for which it must have been full from the start; otherwise a timeout,
      unless a signal ended the wait. */
  lemma ActionRepliesIff(d: Driver, recycle: seq<bool>, ds: Status, env: Env)
    requires Formed(d) && |recycle| == 2 && |ds.full| == 2 == |ds.len|
    ensures var (d', reply) := Action(d, recycle, ds, env);
            var n, d0, d1 := d.abNext, Prepare(d, recycle), Waited(d, recycle, env);
            var entered := env.wait != NotEntered;
            var full := d1.slots[n].Filled? && (env.wait != TimedOut || d0.slots[n].Filled?);
            && (reply == Refused <==> !entered) && (reply == Refused ==> d' == d)
            && (reply.Ok? <==> entered && full)
            && (reply == Failed(true) <==> entered && !full && (env.wait == Timed || env.wait == TimedOut))
            && (reply == Failed(false) <==> entered && !full && env.wait == Interrupted)
            && (reply.Failed? ==> d' == d1)
  {
    PrepareKeepsTurn(d, recycle);
    AnswersKeepTurn(Prepare(d, recycle), env.during);
  }

  /** The bytes of data in an answer of the card: two for each sample, none in an error. */
  predicate HasBytes(a: Answer, len: nat) {
    (a.Error? && len == 0) || (a.Data? && len == 2 * a.nsamples)
  }

  predicate NoData(a: Answer) {
    a.Error? || a.nsamples == 0
  }

  /** What the card's answers do to the slots does not depend on what has been reported. */
  lemma {:induction false} AnswersIgnoreReports(d: Driver, d': Driver, answers: seq<Answer>)
    requires Formed(d) && Formed(d') && d' == d.(abNext := d'.abNext, reported := d'.reported)
    ensures AnswerAll(d', answers) == AnswerAll(d, answers).(abNext := d'.abNext, reported := d'.reported)
    decreases |answers|
  {
    if answers != [] {
      AnswersIgnoreReports(AnswerOne(d, answers[0]), AnswerOne(d', answers[0]), answers[1..]);
    }
  }

  /** What a success tells: the buffer waited for is full, the other one if its answer had come
      by the second look, each with the length of its answer; and the end of the file if and
      only if one flagged has length zero, that is, if its answer was an error or brought no
      sample. */
  lemma ActionTells(d: Driver, recycle: seq<bool>, ds: Status, env: Env)
    requires Formed(d) && |recycle| == 2 && |ds.full| == 2 == |ds.len| && Action(d, recycle, ds, env).1.Ok?
    ensures var r, n, m := Action(d, recycle, ds, env).1.ds, d.abNext, Other(d.abNext);
            var d1 := Waited(d, recycle, env);
            var d2 := AnswerAll(d1, env.between);
            && r.full[n] && d1.slots[n].Filled? && HasBytes(d1.slots[n].answer, r.len[n])
            && (r.full[m] <==> d2.slots[m].Filled?)
            && (r.full[m] ==> HasBytes(d2.slots[m].answer, r.len[m]))
            && (r.eof <==> exists b: nat :: b < 2 && r.full[b] && r.len[b] == 0)
            && (r.eof <==> NoData(d1.slots[n].answer) || (d2.slots[m].Filled? && NoData(d2.slots[m].answer)))
  {
    PrepareKeepsTurn(d, recycle);
    AnswersKeepTurn(Prepare(d, recycle), env.during);
    LooksTell(Waited(d, recycle, env), Status([false, false], false, ds.len), env.between);
  }

  lemma LooksTell(d1: Driver, ds: Status, between: seq<Answer>)
    requires Formed(d1) && d1.slots[d1.abNext].Filled? && |ds.len| == 2
    requires ds.full == [false, false] && !ds.eof
    ensures var n, m := d1.abNext, Other(d1.abNext);
            var (d2, ds2, _) := FillStatus(d1, ds);
            var (_, r, _) := FillStatus(AnswerAll(d2, between), ds2);
            var d2' := AnswerAll(d1, between);
            && r.full[n] && HasBytes(d1.slots[n].answer, r.len[n])
            && (r.full[m] <==> d2'.slots[m].Filled?)
            && (r.full[m] ==> HasBytes(d2'.slots[m].answer, r.len[m]))
            && (r.eof <==> exists b: nat :: b < 2 && r.full[b] && r.len[b] == 0)
            && (r.eof <==> NoData(d1.slots[n].answer) || (d2'.slots[m].Filled? && NoData(d2'.slots[m].answer)))
  {
    var (d2, ds2, _) := FillStatus(d1, ds);
    AnswersIgnoreReports(d1, d2, between);
    AnswersKeepTurn(d2, between);
    var (_, r, _) := FillStatus(AnswerAll(d2, between), ds2);
    FlaggedEmpty(r, d1.abNext);
  }

  lemma FlaggedEmpty(r: Status, n: nat)
    requires |r.full| == 2 == |r.len| && n < 2
    ensures (exists b: nat :: b < 2 && r.full[b] && r.len[b] == 0) <==>
      (r.full[n] && r.len[n] == 0) || (r.full[Other(n)] && r.len[Other(n)] == 0)
  {
    if exists b: nat :: b < 2 && r.full[b] && r.len[b] == 0 {
      var b: nat :| b < 2 && r.full[b] && r.len[b] == 0;
      assert b == n || b == Other(n);
    }
  }

  // When the client stops.

  /** The replies to the ioctls of a run, after those before. */
  ghost function Replies(s: System, before: seq<Reply>, envs: seq<Env>, maxTimeouts: nat): seq<Reply>
    requires SystemFormed(s)
    decreases |envs|
  {
    if envs == [] || s.client.stopped then before
    else
      var reply := Action(s.driver, s.client.recycle, s.client.ds, envs[0]).1;
      Replies(Turn(s, envs[0], maxTimeouts), before + [reply], envs[1..], maxTimeouts)
  }

  ghost predicate HasSuccess(replies: seq<Reply>) {
    exists i :: 0 <= i < |replies| && replies[i].Ok?
  }

  /** The timeouts since the last success, signals and refusals not counting. */
  ghost function TimeoutsInRow(replies: seq<Reply>): nat {
    if replies == [] then 0
    else
      var before := TimeoutsInRow(replies[..|replies| - 1]);
      match replies[|replies| - 1]
      case Ok(_) => 0
      case Failed(timeout) => if timeout then before + 1 else before
      case Refused => before
  }

  /** The last reply is one the client does not go on after: the end of the file, or, once it
      has had a success, the timeout that is one too many. */
  ghost predicate Ends(replies: seq<Reply>, maxTimeouts: nat) {
    replies != [] &&
    match replies[|replies| - 1]
    case Ok(ds) => ds.eof
    case Failed(timeout) => timeout && HasSuccess(replies) && TimeoutsInRow(replies) >= maxTimeouts
    case Refused => false
  }

  /** The client's variables follow from the replies it has had. */
  ghost predicate Heeds(c: Client, replies: seq<Reply>, maxTimeouts: nat) {
    && (c.started <==> HasSuccess(replies))
    && c.timeouts == (if c.started then TimeoutsInRow(replies) else 0)
    && (c.stopped <==> Ends(replies, maxTimeouts))
  }

  lemma TurnHeeds(s: System, env: Env, maxTimeouts: nat, replies: seq<Reply>)
    requires SystemFormed(s) && !s.client.stopped && Heeds(s.client, replies, maxTimeouts)
    ensures var reply := Action(s.driver, s.client.recycle, s.client.ds, env).1;
            Heeds(Turn(s, env, maxTimeouts).client, replies + [reply], maxTimeouts)
  {
    var reply := Action(s.driver, s.client.recycle, s.client.ds, env).1;
    var replies' := replies + [reply];
    assert replies'[..|replies|] == replies && replies'[|replies|] == reply;
    assert HasSuccess(replies') <==> HasSuccess(replies) || reply.Ok? by {
      if HasSuccess(replies) {
        var i :| 0 <= i < |replies| && replies[i].Ok?;
        assert replies'[i].Ok?;
      }
      if HasSuccess(replies') && !reply.Ok? {
        var i :| 0 <= i < |replies'| && replies'[i].Ok?;
        assert replies[i].Ok?;
      }
    }
  }

  lemma {:induction false} StoppedStays(s: System, envs: seq<Env>, maxTimeouts: nat)
    requires SystemFormed(s) && s.client.stopped
    ensures Run(s, envs, maxTimeouts) == s
    decreases |envs|
  {
    if envs != [] {
      StoppedStays(s, envs[1..], maxTimeouts);
    }
  }

  lemma {:induction false} RunHeeds(s: System, before: seq<Reply>, envs: seq<Env>, maxTimeouts: nat)
    requires SystemFormed(s) && Heeds(s.client, before, maxTimeouts)
    ensures Heeds(Run(s, envs, maxTimeouts).client, Replies(s, before, envs, maxTimeouts), maxTimeouts)
    decreases |envs|
  {
    if s.client.stopped {
      StoppedStays(s, envs, maxTimeouts);
    } else if envs != [] {
      var reply := Action(s.driver, s.client.recycle, s.client.ds, envs[0]).1;
      TurnHeeds(s, envs[0], maxTimeouts, before);
      RunHeeds(Turn(s, envs[0], maxTimeouts), before + [reply], envs[1..], maxTimeouts);
    }
  }

  /** The client has stopped if and only if the last reply it had says so. */
  lemma StoppedIff(envs: seq<Env>, maxTimeouts: nat)
    ensures Run(FreshSystem, envs, maxTimeouts).client.stopped <==>
      Ends(Replies(FreshSystem, [], envs, maxTimeouts), maxTimeouts)
  {
    RunHeeds(FreshSystem, [], envs, maxTimeouts);
  }
}
