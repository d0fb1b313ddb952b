/** The semaphore that keeps the swinging-buffer ioctl and bridge files apart, and the
    per-path flag that remembers who holds it (acq200.c). */
module BusySemaphore {

  /** `value` is the semaphore; `flagged` the paths with `has_AB_busy_mutex` set;
      `inside` those with an ioctl at work; `leaving` has a path for each ioctl that has given
      the semaphore up but not yet cleared the flag; `paths` are those open. `holder` is the
      path, if any, for which the semaphore was last taken and not given up again. */
  datatype Holding = Holding(value: nat, flagged: set<nat>, inside: set<nat>, leaving: multiset<nat>, paths: set<nat>,
                             holder: set<nat>)

  const Fresh := Holding(1, {}, {}, multiset{}, {}, {})

  /** `taking` opens take the semaphore, the other kinds of file do not. An ioctl whose
      argument cannot be copied in returns at once, still holding the semaphore; any other
      gives it up after its work and then clears the flag. Two ioctls may be in progress on
      one open file. */
  datatype Event =
    | Open(path: nat, taking: bool)
    | EnterIoctl(path: nat, copyFails: bool)
    | GiveUp(path: nat)
    | ClearFlag(path: nat)
    | Release(path: nat)

  ghost predicate Enabled(s: Holding, e: Event) {
    match e
    case Open(p, taking) => p !in s.paths && (taking ==> s.value > 0)
    case EnterIoctl(p, _) => p in s.paths && s.value > 0
    case GiveUp(p) => p in s.inside
    case ClearFlag(p) => p in s.leaving
    case Release(p) => p in s.paths && p !in s.inside && p !in s.leaving
  }

  function Take(s: Holding, p: nat): Holding
    requires s.value > 0
  {
    s.(value := s.value - 1, flagged := s.flagged + {p}, holder := s.holder + {p})
  }

  function Next(s: Holding, e: Event): Holding
    requires Enabled(s, e)
  {
    match e
    case Open(p, taking) => (if taking then Take(s, p) else s).(paths := s.paths + {p})
    case EnterIoctl(p, copyFails) => Take(s, p).(inside := if copyFails then s.inside else s.inside + {p})
    case GiveUp(p) =>
      s.(value := s.value + 1, inside := s.inside - {p}, holder := s.holder - {p}, leaving := s.leaving + multiset{p})
    case ClearFlag(p) => s.(flagged := s.flagged - {p}, leaving := s.leaving - multiset{p})
    case Release(p) =>
      if p in s.flagged then
        s.(value := s.value + 1, flagged := s.flagged - {p}, holder := s.holder - {p}, paths := s.paths - {p})
      else s.(paths := s.paths - {p})
  }

  ghost predicate Possible(s: Holding, es: seq<Event>)
    decreases |es|
  {
    es == [] || (Enabled(s, es[0]) && Possible(Next(s, es[0]), es[1..]))
  }

  ghost function Run(s: Holding, es: seq<Event>): Holding
    requires Possible(s, es)
    decreases |es|
  {
    if es == [] then s else Run(Next(s, es[0]), es[1..])
  }

  // What every run keeps.

  /** Semaphore and holder account for the one unit there is; a path at work holds it; a flag
      belongs to the holder or is about to be cleared. */
  ghost predicate Counted(s: Holding) {
    && s.value + |s.holder| == 1 && s.inside <= s.holder
    && s.inside <= s.paths && s.flagged <= s.paths
    && (forall p :: p in s.leaving ==> p in s.paths)
    && (forall p :: p in s.flagged ==> p in s.holder || p in s.leaving)
  }

  lemma HolderIs(s: Holding, p: nat)
    requires Counted(s) && p in s.holder
    ensures s.holder == {p} && s.value == 0 && s.holder - {p} == {}
  {
    assert |s.holder - {p}| == 0;
    assert s.holder == {p} + (s.holder - {p});
  }

  lemma NextCounted(s: Holding, e: Event)
    requires Counted(s) && Enabled(s, e)
    ensures Counted(Next(s, e))
  {
    if s.value > 0 {
      assert s.holder == {};
    }
    match e
    case Open(p, taking) =>
      assert {} + {p} == {p};
    case EnterIoctl(p, copyFails) =>
      assert {} + {p} == {p};
    case GiveUp(p) =>
      HolderIs(s, p);
    case ClearFlag(p) =>
    case Release(p) =>
      if p in s.flagged {
        HolderIs(s, p);
      }
  }

  /** Over all interleavings on any number of paths. */
  lemma {:induction false} AlwaysCounted(s: Holding, es: seq<Event>)
    requires Counted(s) && Possible(s, es)
    ensures Counted(Run(s, es))
    decreases |es|
  {
    if es != [] {
      NextCounted(s, es[0]);
      AlwaysCounted(Next(s, es[0]), es[1..]);
    }
  }

  /** At most one ioctl is at work at any time, and never while the semaphore is held for
      another path. */
  lemma MutualExclusion(es: seq<Event>, p: nat, q: nat)
    requires Possible(Fresh, es) && p in Run(Fresh, es).inside && q in Run(Fresh, es).holder
    ensures p == q
  {
    AlwaysCounted(Fresh, es);
    HolderIs(Run(Fresh, es), p);
  }

  /** Once an ioctl has returned with the semaphore, nothing but the release of that
      very path lets any ioctl, or any opening that takes it, go on. */
  lemma {:induction false} StuckUntilReleased(s: Holding, holder: nat, es: seq<Event>)
    requires Counted(s) && holder in s.holder && holder !in s.inside && Possible(s, es)
    requires forall e :: e in es ==> e != Release(holder)
    ensures forall e :: e in es ==> !e.EnterIoctl? && !e.GiveUp? && (e.Open? ==> !e.taking)
    ensures Run(s, es).value == 0 && holder in Run(s, es).holder
    decreases |es|
  {
    HolderIs(s, holder);
    if es != [] {
      assert es[0] in es;
      NextCounted(s, es[0]);
      assert forall e :: e in es <==> e == es[0] || e in es[1..];
      StuckUntilReleased(Next(s, es[0]), holder, es[1..]);
    }
  }

  // When the flags tell who holds the semaphore.

  /** The holder will give the semaphore up: its ioctl is at work, or its flag is set. */
  ghost predicate Sound(s: Holding) {
    s.holder <= s.flagged + s.inside
  }

  /** The event clears the flag of a path that holds the semaphore and has no ioctl at work. */
  ghost predicate Strips(s: Holding, e: Event) {
    e.ClearFlag? && e.path in s.holder && e.path !in s.inside
  }

  lemma NextSoundIff(s: Holding, e: Event)
    requires Counted(s) && Sound(s) && Enabled(s, e)
    ensures Sound(Next(s, e)) <==> !Strips(s, e)
  {
    if s.value > 0 {
      assert s.holder == {};
    }
    if e.GiveUp? {
      HolderIs(s, e.path);
    }
  }

  ghost predicate SoundThroughout(s: Holding, es: seq<Event>)
    requires Possible(s, es)
    decreases |es|
  {
    Sound(s) && (es == [] || SoundThroughout(Next(s, es[0]), es[1..]))
  }

  ghost predicate SomeStrips(s: Holding, es: seq<Event>)
    requires Possible(s, es)
    decreases |es|
  {
    es != [] && (Strips(s, es[0]) || SomeStrips(Next(s, es[0]), es[1..]))
  }

  lemma {:induction false} SoundIff(s: Holding, es: seq<Event>)
    requires Counted(s) && Sound(s) && Possible(s, es)
    ensures SoundThroughout(s, es) <==> !SomeStrips(s, es)
    decreases |es|
  {
    if es != [] {
      NextCounted(s, es[0]);
      NextSoundIff(s, es[0]);
      if !Strips(s, es[0]) {
        SoundIff(Next(s, es[0]), es[1..]);
      } else {
        assert !SoundThroughout(Next(s, es[0]), es[1..]);
      }
    }
  }

  /** With no ioctl in progress, the semaphore and the number of flags add up to 1 if and only
      if the holder, if any, has its flag. */
  lemma RestBalancedIff(s: Holding)
    requires Counted(s) && s.inside == {} && s.leaving == multiset{}
    ensures s.value + |s.flagged| == 1 <==> Sound(s)
  {
    if s.holder == {} {
      assert s.flagged == {};
    } else {
      var p :| p in s.holder;
      HolderIs(s, p);
      assert s.flagged <= {p};
      assert s.flagged == {} || s.flagged == {p};
    }
  }

  /** Over all runs, value and flags add up to 1 whenever no ioctl is in progress, unless some
      ioctl, having given the semaphore up, cleared its path's flag after a second one on the
      same file had taken the semaphore and failed to copy its argument in. */
  lemma AlwaysBalanced(es: seq<Event>)
    requires Possible(Fresh, es) && !SomeStrips(Fresh, es)
    ensures var s := Run(Fresh, es);
            s.inside == {} && s.leaving == multiset{} ==> s.value + |s.flagged| == 1
  {
    AlwaysCounted(Fresh, es);
    SoundIff(Fresh, es);
    SoundAtEnd(Fresh, es);
    var s := Run(Fresh, es);
    if s.inside == {} && s.leaving == multiset{} {
      RestBalancedIff(s);
    }
  }

  lemma {:induction false} SoundAtEnd(s: Holding, es: seq<Event>)
    requires Possible(s, es) && SoundThroughout(s, es)
    ensures Sound(Run(s, es))
    decreases |es|
  {
    if es != [] {
      SoundAtEnd(Next(s, es[0]), es[1..]);
    }
  }

  /** By the events alone: the last open, entry, giving up or release of the path was an
      open that takes the semaphore, or an entry. */
  ghost predicate TookLast(es: seq<Event>, p: nat) {
    es != [] &&
    var before, e := es[..|es| - 1], es[|es| - 1];
    if e.path != p || e.ClearFlag? then TookLast(before, p) else e.EnterIoctl? || (e.Open? && e.taking)
  }

  ghost predicate HeldBy(s: Holding, before: seq<Event>, p: nat) {
    Counted(s) && Sound(s) && (p in s.holder <==> TookLast(before, p))
  }

  lemma NextHolds(s: Holding, e: Event, p: nat)
    requires Sound(s) && Counted(s) && Enabled(s, e)
    ensures p in Next(s, e).holder <==>
      if e.path != p || e.ClearFlag? then p in s.holder else e.EnterIoctl? || (e.Open? && e.taking)
  {
  }

  lemma NextHeldBy(s: Holding, e: Event, before: seq<Event>, p: nat)
    requires HeldBy(s, before, p) && Enabled(s, e) && !Strips(s, e)
    ensures HeldBy(Next(s, e), before + [e], p)
  {
    NextCounted(s, e);
    NextSoundIff(s, e);
    NextHolds(s, e, p);
    var es := before + [e];
    assert es[..|es| - 1] == before && es[|es| - 1] == e;
  }

  lemma {:induction false} RunHeldBy(s: Holding, es: seq<Event>, before: seq<Event>, p: nat)
    requires HeldBy(s, before, p) && Possible(s, es) && !SomeStrips(s, es)
    ensures HeldBy(Run(s, es), before + es, p)
    decreases |es|
  {
    if es == [] {
      assert before + es == before;
    } else {
      NextHeldBy(s, es[0], before, p);
      RunHeldBy(Next(s, es[0]), es[1..], before + [es[0]], p);
      assert before + es == before + [es[0]] + es[1..];
    }
  }

  /** Over all such runs a path holds the semaphore if and only if it has taken it since it
      last gave it up or was released, and then the semaphore is down. */
  lemma HolderIff(es: seq<Event>, p: nat)
    requires Possible(Fresh, es) && !SomeStrips(Fresh, es)
    ensures p in Run(Fresh, es).holder <==> TookLast(es, p)
    ensures TookLast(es, p) ==> Run(Fresh, es).value == 0
  {
    RunHeldBy(Fresh, es, [], p);
    assert [] + es == es;
    if TookLast(es, p) {
      HolderIs(Run(Fresh, es), p);
    }
  }

  /** And if that has happened, no release ever gives the semaphore back. */
  lemma {:induction false} LostForever(s: Holding, es: seq<Event>)
    requires Counted(s) && !Sound(s) && Possible(s, es)
    ensures Run(s, es).value == 0 && !Sound(Run(s, es))
    decreases |es|
  {
    var p :| p in s.holder && p !in s.flagged + s.inside;
    HolderIs(s, p);
    if es != [] {
      NextCounted(s, es[0]);
      LostForever(Next(s, es[0]), es[1..]);
    }
  }

  /** No ioctl begins on a file while another on it has still to clear the flag. */
  ghost predicate OneAtATime(s: Holding, es: seq<Event>)
    requires Possible(s, es)
    decreases |es|
  {
    es == [] || ((es[0].EnterIoctl? ==> es[0].path !in s.leaving) && OneAtATime(Next(s, es[0]), es[1..]))
  }

  lemma {:induction false} OneAtATimeStripsNone(s: Holding, es: seq<Event>)
    requires Counted(s) && Possible(s, es) && OneAtATime(s, es)
    requires forall p :: p in s.leaving ==> p !in s.holder
    ensures !SomeStrips(s, es)
    decreases |es|
  {
    if s.value > 0 {
      assert s.holder == {};
    }
    if es != [] {
      NextCounted(s, es[0]);
      if es[0].GiveUp? {
        HolderIs(s, es[0].path);
      }
      OneAtATimeStripsNone(Next(s, es[0]), es[1..]);
    }
  }

  /** Two ioctls on one file: the first gives the semaphore up, the second takes it and fails
      to copy its argument in, the first clears the flag. The file's release then does not
      give the semaphore back. */
  lemma SecondIoctlLosesSemaphore() returns (es: seq<Event>)
    ensures Possible(Fresh, es) && SomeStrips(Fresh, es)
    ensures var s := Run(Fresh, es);
            s.value == 0 && s.flagged == {} && s.inside == {} && s.leaving == multiset{} && s.paths == {}
  {
    var s2 := Holding(0, {0}, {0}, multiset{}, {0}, {0});
    var s4 := Holding(0, {0}, {}, multiset{0}, {0}, {0});
    var last := [EnterIoctl(0, true), ClearFlag(0), Release(0)];
    var s3 := Next(s2, GiveUp(0));
    assert s3 == Holding(1, {0}, {}, multiset{0}, {0}, {});
    assert Next(s3, last[0]) == s4;
    var s5 := Next(s4, last[1]);
    assert s5 == Holding(0, {}, {}, multiset{}, {0}, {0});
    var s6 := Next(s5, last[2]);
    assert s6 == Holding(0, {}, {}, multiset{}, {}, {0});
    assert last[1..][1..] == [Release(0)] && [Release(0)][1..] == [];
    assert Possible(s5, [Release(0)]) && Run(s5, [Release(0)]) == s6;
    assert Possible(s4, last[1..]) && Run(s4, last[1..]) == s6 && SomeStrips(s4, last[1..]);
    assert Possible(s3, last) && Run(s3, last) == s6 && SomeStrips(s3, last);
    es := [Open(0, false)] + ([EnterIoctl(0, false)] + ([GiveUp(0)] + last));
    StepFirst(s2, GiveUp(0), last);
    var s1 := Next(Fresh, Open(0, false));
    assert s1 == Holding(1, {}, {}, multiset{}, {0}, {});
    assert Next(s1, EnterIoctl(0, false)) == s2;
    StepFirst(s1, EnterIoctl(0, false), [GiveUp(0)] + last);
    StepFirst(Fresh, Open(0, false), [EnterIoctl(0, false)] + ([GiveUp(0)] + last));
  }

  lemma StepFirst(s: Holding, e: Event, rest: seq<Event>)
    requires Enabled(s, e) && Possible(Next(s, e), rest)
    ensures Possible(s, [e] + rest) && Run(s, [e] + rest) == Run(Next(s, e), rest)
    ensures SomeStrips(Next(s, e), rest) ==> SomeStrips(s, [e] + rest)
  {
    assert ([e] + rest)[1..] == rest;
  }

  /** The device's semaphore and its paths' flags, updated in place. `interrupted`
      says whether a signal ends the wait for the semaphore. */
  class Device {
    var value: nat
    var hasAbBusyMutex: set<nat>
    var inside: set<nat>
    var leaving: multiset<nat>
    var paths: set<nat>
    ghost var holder: set<nat>

    ghost function State(): Holding
      reads this
    {
      Holding(value, hasAbBusyMutex, inside, leaving, paths, holder)
    }

    constructor ()
      ensures State() == Fresh && Counted(State())
    {
      value, hasAbBusyMutex, inside, leaving, paths, holder := 1, {}, {}, multiset{}, {}, {};
    }

    method Down(interrupted: bool) returns (taken: bool)
      modifies this`value
      ensures taken == (old(value) > 0 && !interrupted)
      ensures value == if taken then old(value) - 1 else old(value)
    {
      taken := value > 0 && !interrupted;
      if taken {
        value := value - 1;
      }
    }

    method Open(path: nat, taking: bool, interrupted: bool) returns (ok: bool)
      requires Counted(State()) && path !in paths
      modifies this
      ensures Counted(State())
      ensures ok <==> !taking || (old(value) > 0 && !interrupted)
      ensures ok ==>
        Enabled(old(State()), Event.Open(path, taking)) && State() == Next(old(State()), Event.Open(path, taking))
      ensures !ok ==> State() == old(State())
    {
      if taking {
        var taken := Down(interrupted);
        if !taken {
          return false;
        }
        hasAbBusyMutex, holder := hasAbBusyMutex + {path}, holder + {path};
      }
      paths := paths + {path};
      NextCounted(old(State()), Event.Open(path, taking));
      return true;
    }

    /** The ioctl up to the driver's action; `entered` says that the action follows. */
    method EnterIoctl(path: nat, interrupted: bool, copyFails: bool) returns (entered: bool)
      requires Counted(State()) && path in paths
      modifies this
      ensures Counted(State())
      ensures entered <==> old(value) > 0 && !interrupted && !copyFails
      ensures if old(value) > 0 && !interrupted
              then State() == Next(old(State()), Event.EnterIoctl(path, copyFails))
              else State() == old(State())
    {
      var taken := Down(interrupted);
      if !taken {
        return false;
      }
      hasAbBusyMutex, holder := hasAbBusyMutex + {path}, holder + {path};
      NextCounted(old(State()), Event.EnterIoctl(path, copyFails));
      if copyFails {
        return false;
      }
      inside := inside + {path};
      return true;
    }

    /** The first thing an ioctl does after the driver's action. */
    method GiveUp(path: nat)
      requires Counted(State()) && path in inside
      modifies this
      ensures Counted(State()) && State() == Next(old(State()), Event.GiveUp(path))
    {
      NextCounted(State(), Event.GiveUp(path));
      value := value + 1;
      inside, holder, leaving := inside - {path}, holder - {path}, leaving + multiset{path};
    }

    /** The second. */
    method ClearFlag(path: nat)
      requires Counted(State()) && path in leaving
      modifies this
      ensures Counted(State()) && State() == Next(old(State()), Event.ClearFlag(path))
    {
      NextCounted(State(), Event.ClearFlag(path));
      hasAbBusyMutex, leaving := hasAbBusyMutex - {path}, leaving - multiset{path};
    }

    method ReleasePath(path: nat)
      requires Counted(State()) && path in paths && path !in inside && path !in leaving
      modifies this
      ensures Counted(State()) && State() == Next(old(State()), Event.Release(path))
    {
      NextCounted(State(), Event.Release(path));
      if path in hasAbBusyMutex {
        value := value + 1;
        hasAbBusyMutex, holder := hasAbBusyMutex - {path}, holder - {path};
      }
      paths := paths - {path};
    }
  }
}
