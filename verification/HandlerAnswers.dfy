/** What becomes of the card's answers: whom they reach, what the reads they answer return, and
    what is freed when nobody waits for them (acq200_i2o.c, rch.h). */
module HandlerAnswers {
  import opened Options
  import opened Pool
  import opened Handlers
  import opened HandlerBalance
  import opened HandlerRelease
  import opened HandlerRuns
  import opened HandlerLinks
  import opened HandlerOwners
  import opened HandlerIds

  // Listed handlers keep what they know.

  /** The step lists no read and tells none anything: reads still listed are as before. */
  ghost predicate KeepsReads(d: Device, d': Device) {
    && |d'.rch| == |d.rch| && d'.sent == d.sent
    && forall h :: h in d'.list && h < |d.rch| && d'.rch[h].handler.ReadMessage? ==>
         h in d.list && d'.rch[h] == d.rch[h]
  }

  lemma RecycleKeepsReads(d: Device, h: nat)
    requires h < |d.rch| && h < |d.handlers.reserved|
    ensures KeepsReads(d, Recycle(d, h))
  {
    WithoutShorter(d.list, h);
  }

  lemma FinishKeepsReads(d: Device, h: nat)
    requires h < |d.rch| && h < |d.handlers.reserved|
    ensures KeepsReads(d, ReadFinish(d, h))
  {
    var d1 := if d.rch[h].valid < 0 then Unlink(d, h) else d;
    WithoutShorter(d.list, h);
    RecycleKeepsReads(d, h);
    RecycleKeepsReads(d1.(rch := d.rch[h := d.rch[h].(handler := Cleared)]), h);
  }

  lemma {:induction false} CleanupKeepsReads(d: Device, path: nat)
    requires Shaped(d)
    ensures KeepsReads(d, Cleanup(d, path))
    decreases |d.list|
  {
    match FirstOfPath(d.rch, d.list, path)
    case None =>
    case Some(h) =>
      RecycleShaped(d, h);
      RecycleKeepsReads(d, h);
      CleanupKeepsReads(Recycle(d, h), path);
  }

  lemma NextKeepsReads(s: System, e: Event)
    requires Enabled(s, e) && !Submits(s, e) && !e.CardAnswers?
    ensures KeepsReads(s.device, Next(s, e).device)
  {
    var d := s.device;
    AllocNearest(d.handlers);
    AllocNearest(d.mappings);
    match e
    case Read(_, _) => RefusedKeepsReads(d);
    case FinishRead(h) => FinishKeepsReads(d, h);
    case Write(_, _, _) => RefusedKeepsReads(d);
    case Queue(_, _, _) =>
    case RecycleSlot(h) => RecycleKeepsReads(d, h);
    case EndWait(p) => RecycleKeepsReads(d, s.waiting[p]);
    case FinishRelease(p) => CleanupKeepsReads(d, p);
  }

  lemma RefusedKeepsReads(d: Device)
    requires Shaped(d)
    ensures var (handlers, h) := Alloc(d.handlers);
            h.Some? ==> KeepsReads(d, Recycle(d.(handlers := handlers), h.value))
  {
    var (handlers, h) := Alloc(d.handlers);
    if h.Some? {
      RecycleKeepsReads(d.(handlers := handlers), h.value);
    }
  }

  // Somebody waits for every read.

  /** Each listed handler that waits for data is a reader's or a swinging buffer's. */
  ghost predicate Expected(s: System) {
    forall h :: h in s.device.list && h < |s.device.rch| && s.device.rch[h].handler.ReadMessage? ==>
      h in s.readers + s.swinging
  }

  /** Only a read's handler that its reader or swinging buffer refers to is listed afresh. */
  lemma ExpectedSubmit(s: System, e: Event)
    requires Linked(s.device) && Expected(s) && Enabled(s, e) && Submits(s, e)
    ensures Expected(Next(s, e))
  {
    var taken, h, f, path, kbuf, pooled := NextSubmits(s, e);
    var d, d' := s.device, Next(s, e).device;
    assert d'.list == d.list + [h] && d'.rch[h].handler == f;
    forall x | x in d'.list && x < |d'.rch| && d'.rch[x].handler.ReadMessage?
      ensures x in Next(s, e).readers + Next(s, e).swinging
    {
      if x != h {
        assert x in d.list && d'.rch[x] == d.rch[x];
      }
    }
  }

  lemma ExpectedAnswer(s: System, k: nat, a: Answer)
    requires Linked(s.device) && Expected(s) && k < |s.device.card|
    ensures Expected(Next(s, CardAnswers(k, a)))
  {
    var d := s.device;
    var d1 := d.(card := d.card[..k] + d.card[k + 1..]);
    var found := Find(d1.rch, d1.list, d.card[k].id);
    if found.Some? {
      AnswerReaches(d1, found.value, a);
    }
  }

  /** Recycling a listed handler frees it, with its mapping. */
  lemma RecycleFrees(d: Device, h: nat)
    requires Linked(d) && h in d.list
    ensures h < NHANDLERS && Shaped(Recycle(d, h))
    ensures var d' := Recycle(d, h);
            && KeepsReads(d, d') && h !in d'.list && !d'.handlers.reserved[h] && d'.discarded == d.discarded
            && d'.rch[h].valid == d.rch[h].valid
            && (NamesPool(d.rch[h]) ==> !d'.mappings.reserved[d.rch[h].kbuf.mapping])
  {
    RecycleShaped(d, h);
    RecycleKeepsReads(d, h);
    WithoutMembers(d.list, h);
  }

  /** What an answer does to a listed handler that waits for no data. */
  ghost predicate Finished(d: Device, d': Device, h: nat)
    requires Shaped(d) && h < NHANDLERS
  {
    && Shaped(d') && KeepsReads(d, d') && h !in d'.list && !d'.handlers.reserved[h]
    && (NamesPool(d.rch[h]) ==> !d'.mappings.reserved[d.rch[h].kbuf.mapping])
    && d'.discarded == d.discarded + (if d.rch[h].handler == Cleared then 1 else 0)
    && (d.rch[h].handler == LastMessage ==> d'.rch[h].valid == 1)
  }

  lemma LastMessageFinishes(d: Device, h: nat, a: Answer)
    requires Linked(d) && h in d.list && h < NHANDLERS && d.rch[h].handler.LastMessage?
    ensures Finished(d, Handle(d, h, a), h)
  {
    var d1 := d.(rch := d.rch[h := d.rch[h].(valid := 1)]);
    RecycleFrees(d1, h);
  }

  /** A listed handler's function on its answer: a read takes it and stays listed, any other is
      recycled. */
  lemma AnswerReaches(d: Device, h: nat, a: Answer)
    requires Linked(d) && h in d.list
    ensures h < NHANDLERS && Shaped(Handle(d, h, a))
    ensures var d' := Handle(d, h, a);
            if d.rch[h].handler.ReadMessage? then
              d'.list == d.list && d'.rch == d.rch[h := SetSamples(d.rch[h], a)]
            else Finished(d, d', h)
  {
    match d.rch[h].handler
    case Cleared => RecycleFrees(d, h);
    case ReadMessage =>
    case RecycleOnly => RecycleFrees(d, h);
    case LastMessage => LastMessageFinishes(d, h, a);
  }

  ghost predicate NamesPool(r: Rch) {
    r.pooled && r.kbuf.PoolKbuf? && r.kbuf.mapping < NMAPPINGS
  }

  lemma ExpectedFinish(s: System, h: nat)
    requires Linked(s.device) && Expected(s) && Enabled(s, FinishRead(h))
    ensures Expected(Next(s, FinishRead(h)))
  {
    FinishKeepsReads(s.device, h);
    RecycleUnlists(s.device, h);
    if s.device.rch[h].valid != 0 && s.device.rch[h].valid != 1 {
      ErrorFinishRecycles(s.device, h);
    }
  }

  lemma RecycleUnlists(d: Device, h: nat)
    requires Linked(d) && h < NHANDLERS
    ensures h !in Recycle(d, h).list
  {
    WithoutMembers(d.list, h);
  }

  lemma ExpectedRelease(s: System, p: nat)
    requires Linked(s.device) && Expected(s) && Enabled(s, FinishRelease(p))
    ensures Expected(Next(s, FinishRelease(p)))
  {
    CleanupKeepsReads(s.device, p);
    CleanupKeeps(s.device, p);
  }

  lemma NextExpected(s: System, e: Event)
    requires Linked(s.device) && Expected(s) && Enabled(s, e)
    ensures Expected(Next(s, e))
  {
    if Submits(s, e) {
      ExpectedSubmit(s, e);
    } else {
      match e
      case FinishRead(h) => ExpectedFinish(s, h);
      case RecycleSlot(h) =>
        NextKeepsReads(s, e);
        RecycleUnlists(s.device, h);
      case CardAnswers(k, a) => ExpectedAnswer(s, k, a);
      case FinishRelease(p) => ExpectedRelease(s, p);
      case _ => NextKeepsReads(s, e);
    }
  }

  lemma {:induction false} RunExpected(s: System, es: seq<Event>)
    requires Linked(s.device) && Expected(s) && Possible(s, es)
    ensures Expected(Run(s, es)) && Linked(Run(s, es).device)
    decreases |es|
  {
    if es != [] {
      NextLinks(s, es[0]);
      NextExpected(s, es[0]);
      RunExpected(Next(s, es[0]), es[1..]);
    }
  }

  /** In every run of a fresh device, whatever else happens, somebody waits for every listed
      read. */
  lemma ReadsExpected(es: seq<Event>)
    requires Possible(FreshSystem, es)
    ensures Expected(Run(FreshSystem, es))
  {
    RunExpected(FreshSystem, es);
  }

  /** The handler is off the list and free, and so is the mapping it named. */
  ghost predicate Freed(d: Device, d': Device, h: nat)
    requires Shaped(d) && h < NHANDLERS
  {
    && Shaped(d') && h !in d'.list && !d'.handlers.reserved[h]
    && (NamesPool(d.rch[h]) ==> !d'.mappings.reserved[d.rch[h].kbuf.mapping])
  }

  /** After every run, the response that finds a handler nobody reads through frees it, with
      its mapping; a release's handler lets its waiter go on. */
  lemma UnreadResponseFrees(es: seq<Event>, k: nat, a: Answer, h: nat)
    requires Possible(FreshSystem, es)
    requires var s := Run(FreshSystem, es);
             && Shaped(s.device) && k < |s.device.card|
             && Find(s.device.rch, s.device.list, s.device.card[k].id) == Some(h)
             && h !in s.readers + s.swinging
    ensures var d := Run(FreshSystem, es).device;
            var d' := Respond(d, k, a);
            && h < NHANDLERS && Freed(d, d', h)
            && (d.rch[h].handler == LastMessage ==> d'.rch[h].valid == 1)
  {
    RunExpected(FreshSystem, es);
    var d := Run(FreshSystem, es).device;
    AnswerReaches(d.(card := d.card[..k] + d.card[k + 1..]), h, a);
  }

  /** A read interrupted before its answer returns so and leaves its handler listed and
      reserved; the response that then finds it frees it, with its mapping, and is counted as
      discarded. */
  lemma InterruptedReadDiscards(es: seq<Event>, h: nat, k: nat, a: Answer)
    requires Possible(FreshSystem, es)
    requires var s := Run(FreshSystem, es);
             && Enabled(s, FinishRead(h)) && h in s.device.list && s.device.rch[h].valid == 0
             && k < |s.device.card|
             && Find(s.device.rch, s.device.list, s.device.card[k].id) == Some(h)
    ensures var s := Run(FreshSystem, es);
            var d1 := Next(s, FinishRead(h)).device;
            && ReadReturns(s.device.rch[h]) == Eintr
            && Shaped(d1) && h in d1.list && d1.handlers.reserved[h] && d1.card == s.device.card
            && var d2 := Respond(d1, k, a);
            && Freed(d1, d2, h) && d2.discarded == d1.discarded + 1
  {
    RunExpected(FreshSystem, es);
    var s := Run(FreshSystem, es);
    var d1 := Next(s, FinishRead(h)).device;
    FinishLinks(s.device, h);
    FindSame(s.device.rch, d1.rch, d1.list, d1.card[k].id);
    AnswerReaches(d1.(card := d1.card[..k] + d1.card[k + 1..]), h, a);
  }

  lemma {:induction false} FindSame(rch: seq<Rch>, rch': seq<Rch>, list: seq<nat>, id: nat)
    requires |rch'| == |rch| && (forall i :: 0 <= i < |list| ==> list[i] < |rch|)
    requires forall h: nat :: h < |rch| ==> rch'[h].commandId == rch[h].commandId
    ensures Find(rch', list, id) == Find(rch, list, id)
  {
    if list != [] {
      FindSame(rch, rch', list[1..], id);
    }
  }

  // Each read returns what the card answered to it.

  /** The answers the card has given in a run, by the number of their requests, after those
      before. */
  ghost function Answers(s: System, es: seq<Event>, before: map<nat, Answer>): map<nat, Answer>
    requires Possible(s, es)
    decreases |es|
  {
    if es == [] then before
    else
      var after :=
        match es[0]
        case CardAnswers(k, a) => before[s.device.card[k].serial := a]
        case _ => before;
      Answers(Next(s, es[0]), es[1..], after)
  }

  ghost function AnswerTo(answers: map<nat, Answer>, serial: nat): Option<Answer> {
    if serial in answers then Some(answers[serial]) else None
  }

  /** The handler has taken the answer, if there has been one. */
  ghost predicate Took(r: Rch, answer: Option<Answer>) {
    match answer
    case None => r.valid == 0
    case Some(Data(start, n)) => r.valid == 1 && r.nbytes == 2 * n && r.startId == start
    case Some(Error) => r.valid == -1
  }

  ghost predicate Told(d: Device, answers: map<nat, Answer>) {
    && (forall serial :: serial in answers ==> serial <= d.sent)
    && (forall h :: h in d.list && h < |d.rch| && d.rch[h].handler.ReadMessage? ==>
          Took(d.rch[h], AnswerTo(answers, d.rch[h].serial)))
  }

  lemma ToldSubmit(s: System, e: Event, answers: map<nat, Answer>)
    requires Linked(s.device) && Told(s.device, answers) && Enabled(s, e) && Submits(s, e)
    ensures Told(Next(s, e).device, answers)
  {
    var taken, h, f, path, kbuf, pooled := NextSubmits(s, e);
    var d, d' := s.device, Next(s, e).device;
    assert d'.list == d.list + [h] && d'.rch[h].serial == d.sent + 1 && d'.rch[h].valid == 0;
    forall x | x in d'.list && x < |d'.rch| && d'.rch[x].handler.ReadMessage?
      ensures Took(d'.rch[x], AnswerTo(answers, d'.rch[x].serial))
    {
      if x != h {
        assert x in d.list && d'.rch[x] == d.rch[x];
      }
    }
  }

  lemma ToldAnswer(d: Device, k: nat, a: Answer, answers: map<nat, Answer>)
    requires Linked(d) && Numbered(d) && RoutesAll(d) && Told(d, answers) && k < |d.card|
    ensures Told(Respond(d, k, a), answers[d.card[k].serial := a])
  {
    var d1 := d.(card := d.card[..k] + d.card[k + 1..]);
    var found := Find(d1.rch, d1.list, d.card[k].id);
    if found.Some? {
      AnswerReaches(d1, found.value, a);
      SetSamplesTakes(d.rch[found.value], a);
      HandleThins(d1, found.value, a);
    }
  }

  lemma SetSamplesTakes(r: Rch, a: Answer)
    ensures Took(SetSamples(r, a), Some(a))
    ensures SetSamples(r, a).(startId := r.startId, nbytes := r.nbytes, valid := r.valid) == r
  {
  }

  lemma {:induction false} RunTold(s: System, es: seq<Event>, answers: map<nat, Answer>)
    requires Linked(s.device) && Numbered(s.device) && Possible(s, es) && RoutesThroughout(s, es)
    requires Told(s.device, answers)
    ensures Told(Run(s, es).device, Answers(s, es, answers))
    decreases |es|
  {
    if es != [] {
      var e, s' := es[0], Next(s, es[0]);
      NextLinks(s, e);
      NextNumbered(s, e);
      if e.CardAnswers? {
        ToldAnswer(s.device, e.k, e.answer, answers);
        RunTold(s', es[1..], answers[s.device.card[e.k].serial := e.answer]);
      } else {
        if Submits(s, e) {
          ToldSubmit(s, e, answers);
        } else {
          NextKeepsReads(s, e);
        }
        RunTold(s', es[1..], answers);
      }
    }
  }

  /** In every run that uses no id still carried and in which no release recycles an awaited
      handler, a read returns just what the card has answered to its own request: so many
      bytes, two for each sample; a fault, for an error; an interruption, for no answer. */
  lemma ReadsReturnAnswers(es: seq<Event>, h: nat)
    requires Possible(FreshSystem, es) && UnusedIds(FreshSystem, es) && ConsiderateRun(FreshSystem, es)
    requires h in Run(FreshSystem, es).readers
    ensures var d := Run(FreshSystem, es).device;
            && h < |d.rch|
            && match AnswerTo(Answers(FreshSystem, es, map[]), d.rch[h].serial)
               case None => ReadReturns(d.rch[h]) == Eintr
               case Some(Data(_, n)) => ReadReturns(d.rch[h]) == Returned(2 * n)
               case Some(Error) => ReadReturns(d.rch[h]) == Efault
  {
    RoutedIffIdsUnused(es);
    AwaitedHandlersKept(es);
    OwnedAtEnd(FreshSystem, es);
    RunTold(FreshSystem, es, map[]);
  }

  lemma {:induction false} OwnedAtEnd(s: System, es: seq<Event>)
    requires Possible(s, es) && OwnedThroughout(s, es)
    ensures Owned(Run(s, es))
    decreases |es|
  {
    if es != [] {
      OwnedAtEnd(Next(s, es[0]), es[1..]);
    }
  }
}
