/** The streaming client's output files: when a block starts a new file, and
    which files survive the rotation (htstream.c). */
module FileRotation {
  import opened Options
  import opened Bits

  type Byte = x: int | 0 <= x < 256
  type Block = seq<Byte>

  /** The output settings: `nfiles` bounds the file index, `maxfile` the size. */
  datatype Settings = Settings(maxfile: nat, nfiles: nat, oneshot: bool) {
    function Period(): nat {
      nfiles + 1
    }
  }

  /** The client's file record and the files on disk, block by block. `history`
      records the contents of every file opened so far, oldest first, including
      those since truncated; `written` the blocks written. */
  datatype Output = Output(
    ifile: nat,
    fd: Option<nat>,                 // the index of the open file
    files: map<nat, seq<Block>>,
    exited: bool,
    history: seq<seq<Block>>,
    written: seq<Block>)

  const NoOutput := Output(0, None, map[], false, [], [])

  function Size(file: seq<Block>): nat {
    if file == [] then 0 else Size(file[..|file| - 1]) + |file[|file| - 1]|
  }

  /** The bytes of a file's blocks, one after the other. */
  function FileBytes(file: seq<Block>): seq<Byte> {
    if file == [] then [] else file[0] + FileBytes(file[1..])
  }

  lemma {:induction false} BytesAppend(file: seq<Block>, block: Block)
    ensures FileBytes(file + [block]) == FileBytes(file) + block
  {
    if file != [] {
      BytesAppend(file[1..], block);
      assert (file + [block])[1..] == file[1..] + [block];
    }
  }

  /** The file position after writing a file's blocks is the number of their bytes. */
  lemma {:induction false} SizeIsBytes(file: seq<Block>)
    ensures Size(file) == |FileBytes(file)|
  {
    if file != [] {
      var n := |file| - 1;
      SizeIsBytes(file[..n]);
      BytesAppend(file[..n], file[n]);
      assert file[..n] + [file[n]] == file;
    }
  }

  function Content(o: Output, index: nat): seq<Block> {
    if index in o.files then o.files[index] else []
  }

  /** Opens the next file, truncating what it held. */
  function OpenNext(s: Settings, o: Output): Output {
    var o1 := o.(fd := Some(o.ifile), files := o.files[o.ifile := []], history := o.history + [[]],
                 ifile := o.ifile + 1);
    if o1.ifile <= s.nfiles then o1
    else if s.oneshot then o1.(exited := true)
    else o1.(ifile := 0)
  }

  function FileOpen(s: Settings, o: Output, len: nat): Output {
    if o.fd.Some? && Size(Content(o, o.fd.value)) + len < s.maxfile then o else OpenNext(s, o)
  }

  function Write(o: Output, block: Block): Output
    requires o.fd.Some? && o.history != []
  {
    var n := |o.history| - 1;
    o.(files := o.files[o.fd.value := Content(o, o.fd.value) + [block]],
       history := o.history[n := o.history[n] + [block]],
       written := o.written + [block])
  }

  ghost predicate Started(o: Output) {
    o.fd.Some? ==> o.history != []
  }

  function FileWork(s: Settings, o: Output, block: Block): (r: Output)
    requires Started(o)
    ensures Started(r)
  {
    if o.exited then o
    else
      var o1 := FileOpen(s, o, |block|);
      if o1.exited then o1 else Write(o1, block)
  }

  function Run(s: Settings, o: Output, blocks: seq<Block>): (r: Output)
    requires Started(o)
    ensures Started(r)
    decreases |blocks|
  {
    if blocks == [] then o else Run(s, FileWork(s, o, blocks[0]), blocks[1..])
  }

  function Flatten(files: seq<seq<Block>>): seq<Block> {
    if files == [] then [] else Flatten(files[..|files| - 1]) + files[|files| - 1]
  }

  /** Around a cycle of `p` indices. */
  function Wrap(x: nat, p: nat): nat
    requires x < 2 * p
  {
    if x < p then x else x - p
  }

  /** The index of the k-th file opened, counting from 0. */
  function IndexOf(k: nat, p: nat): (i: nat)
    requires p > 0
    ensures i < p
  {
    if k == 0 then 0 else Wrap(IndexOf(k - 1, p) + 1, p)
  }

  /** The files' indices in rotation order: the one after the current file first,
      the current file last. */
  ghost function RotationOrder(p: nat, current: nat): seq<nat>
    requires current < p
  {
    seq<nat>(p, t requires 0 <= t < p => Wrap(current + 1 + t, p))
  }

  /** The contents of the existing files, in rotation order. */
  ghost function InRotation(o: Output, p: nat, current: nat): seq<seq<Block>>
    requires current < p
  {
    seq<seq<Block>>(p, t requires 0 <= t < p => Content(o, RotationOrder(p, current)[t]))
  }

  /** The files on disk when each file opened has replaced the one of the same index. */
  ghost function Latest(history: seq<seq<Block>>, p: nat): map<nat, seq<Block>>
    requires p > 0
  {
    if history == [] then map[]
    else
      var n := |history| - 1;
      Latest(history[..n], p)[IndexOf(n, p) := history[n]]
  }

  /** The whole record follows from the files opened so far. */
  ghost function Expected(s: Settings, history: seq<seq<Block>>): Output {
    var k, p := |history|, s.Period();
    var exited := s.oneshot && k == p;
    Output(if exited then p else IndexOf(k, p),
           if k == 0 then None else Some(IndexOf(k - 1, p)),
           Latest(history, p), exited, history, Flatten(history))
  }

  /** A file of several blocks is smaller than `maxfile`. */
  ghost predicate Bounded(s: Settings, history: seq<seq<Block>>) {
    forall j :: 0 <= j < |history| && |history[j]| > 1 ==> Size(history[j]) < s.maxfile
  }

  ghost predicate Consistent(s: Settings, o: Output) {
    && o == Expected(s, o.history)
    && Bounded(s, o.history)
    && (s.oneshot ==> |o.history| <= s.Period())
  }

  /** One file more than asked for has been opened, and is empty. */
  ghost predicate StoppedShort(s: Settings, o: Output) {
    s.oneshot && |o.history| == s.nfiles + 1 && s.nfiles in o.files && o.files[s.nfiles] == []
  }

  lemma {:induction false} IndexShift(k: nat, d: nat, p: nat)
    requires d <= p && p > 0
    ensures IndexOf(k + d, p) == Wrap(IndexOf(k, p) + d, p)
  {
    if d > 0 {
      IndexShift(k, d - 1, p);
    }
  }

  /** The index of the k-th file has period `nfiles + 1`. */
  lemma {:induction false} IndexIsRemainder(k: nat, p: nat)
    requires p > 0
    ensures IndexOf(k, p) == k % p
  {
    if k > 0 {
      IndexIsRemainder(k - 1, p);
      var q := (k - 1) / p;
      if IndexOf(k, p) == 0 {
        ModUnique(k, p, q + 1, 0);
      } else {
        ModUnique(k, p, q, IndexOf(k, p));
      }
    } else {
      ModUnique(k, p, 0, 0);
    }
  }

  /** Opening gives the record of one file more. */
  lemma OpenExpected(s: Settings, history: seq<seq<Block>>)
    requires s.oneshot ==> |history| < s.Period()
    ensures OpenNext(s, Expected(s, history)) == Expected(s, history + [[]])
  {
    var k, p := |history|, s.Period();
    assert (history + [[]])[..k] == history;
    if s.oneshot {
      IndexShift(0, k, p);
      if k > 0 {
        IndexShift(0, k - 1, p);
      }
    }
  }

  lemma OpenConsistent(s: Settings, o: Output)
    requires Consistent(s, o) && !o.exited
    ensures var o' := OpenNext(s, o);
            && Consistent(s, o') && o'.written == o.written
            && (o'.exited ==> StoppedShort(s, o'))
  {
    OpenExpected(s, o.history);
  }

  lemma WriteConsistent(s: Settings, o: Output, block: Block)
    requires Consistent(s, o) && !o.exited && o.history != []
    requires var file := o.history[|o.history| - 1];
             file == [] || Size(file) + |block| < s.maxfile
    ensures Consistent(s, Write(o, block))
  {
    var n := |o.history| - 1;
    var file := o.history[n];
    var h' := Write(o, block).history;
    assert h'[..n] == o.history[..n];
    assert Flatten(o.history[..n]) + (file + [block]) == (Flatten(o.history[..n]) + file) + [block];
    assert (file + [block])[..|file|] == file;
  }

  lemma WorkConsistent(s: Settings, o: Output, block: Block)
    requires Consistent(s, o)
    ensures var o' := FileWork(s, o, block);
            && Consistent(s, o')
            && o'.written == (if o'.exited then o.written else o.written + [block])
  {
    if !o.exited {
      OpenConsistent(s, o);
      var o1 := FileOpen(s, o, |block|);
      if !o1.exited {
        WriteConsistent(s, o1, block);
      }
    }
  }

  /** The files stay consistent with everything written. */
  lemma {:induction false} RunConsistent(s: Settings, o: Output, blocks: seq<Block>)
    requires Consistent(s, o)
    ensures Consistent(s, Run(s, o, blocks))
    decreases |blocks|
  {
    if blocks != [] {
      WorkConsistent(s, o, blocks[0]);
      RunConsistent(s, FileWork(s, o, blocks[0]), blocks[1..]);
    }
  }

  /** The number of blocks written before a one-shot client stops. */
  ghost function Kept(s: Settings, o: Output, blocks: seq<Block>): (m: nat)
    requires Started(o)
    ensures m <= |blocks|
    decreases |blocks|
  {
    if blocks == [] || FileWork(s, o, blocks[0]).exited then 0
    else 1 + Kept(s, FileWork(s, o, blocks[0]), blocks[1..])
  }

  lemma {:induction false} ExitedStays(s: Settings, o: Output, blocks: seq<Block>)
    requires Started(o) && o.exited
    ensures Run(s, o, blocks) == o
    decreases |blocks|
  {
    if blocks != [] {
      ExitedStays(s, o, blocks[1..]);
    }
  }

  lemma PrefixStep(w: seq<Block>, blocks: seq<Block>, m: nat)
    requires m < |blocks|
    ensures (w + [blocks[0]]) + blocks[1..][..m] == w + blocks[..m + 1]
  {
    assert [blocks[0]] + blocks[1..][..m] == blocks[..m + 1];
  }

  /** What is written is the whole stream, or, when a one-shot client stops, the
      part of it before the block then in hand. */
  lemma {:induction false} RunWrites(s: Settings, o: Output, blocks: seq<Block>)
    requires Consistent(s, o) && !o.exited
    ensures Run(s, o, blocks).written == o.written + blocks[..Kept(s, o, blocks)]
    ensures Run(s, o, blocks).exited <==> Kept(s, o, blocks) < |blocks|
    decreases |blocks|
  {
    if blocks != [] {
      var o' := FileWork(s, o, blocks[0]);
      WorkConsistent(s, o, blocks[0]);
      if o'.exited {
        ExitedStays(s, o', blocks[1..]);
      } else {
        RunWrites(s, o', blocks[1..]);
        PrefixStep(o.written, blocks, Kept(s, o', blocks[1..]));
      }
    }
  }

  /** The client stops just when it opens one file more than it was asked for;
      that file stays empty. */
  lemma {:induction false} StopsShort(s: Settings, o: Output, blocks: seq<Block>)
    requires Consistent(s, o) && !o.exited && Run(s, o, blocks).exited
    ensures StoppedShort(s, Run(s, o, blocks))
    decreases |blocks|
  {
    var o' := FileWork(s, o, blocks[0]);
    if o'.exited {
      OpenConsistent(s, o);
      ExitedStays(s, o', blocks[1..]);
    } else {
      WorkConsistent(s, o, blocks[0]);
      StopsShort(s, o', blocks[1..]);
    }
  }

  // A file is kept while the next block fits.

  /** The first block of each file would not have fitted into the file before. */
  ghost predicate Filled(s: Settings, history: seq<seq<Block>>) {
    forall j :: 0 <= j && j + 1 < |history| && history[j + 1] != [] ==>
      Size(history[j]) + |history[j + 1][0]| >= s.maxfile
  }

  /** The block does not fit into the file opened last but one. */
  ghost predicate NoRoom(s: Settings, history: seq<seq<Block>>, block: Block) {
    |history| >= 2 ==> Size(history[|history| - 2]) + |block| >= s.maxfile
  }

  ghost predicate Packed(s: Settings, o: Output) {
    && Consistent(s, o) && Filled(s, o.history)
    && (!o.exited && o.history != [] ==> o.history[|o.history| - 1] != [])
  }

  lemma OpenContent(s: Settings, o: Output)
    requires Consistent(s, o) && o.history != []
    ensures o.fd.Some? && Content(o, o.fd.value) == o.history[|o.history| - 1]
  {
  }

  lemma OpenFilled(s: Settings, o: Output, block: Block)
    requires Packed(s, o) && !o.exited
    ensures var h := FileOpen(s, o, |block|).history;
            && h != [] && Filled(s, h)
            && (h == o.history || (h == o.history + [[]] && NoRoom(s, h, block)))
  {
    if o.history != [] {
      OpenContent(s, o);
    }
  }

  lemma WriteFilled(s: Settings, history: seq<seq<Block>>, block: Block)
    requires history != [] && Filled(s, history)
    requires history[|history| - 1] == [] ==> NoRoom(s, history, block)
    ensures var n := |history| - 1; Filled(s, history[n := history[n] + [block]])
  {
  }

  lemma WorkPacked(s: Settings, o: Output, block: Block)
    requires Packed(s, o) && !o.exited
    ensures var o' := FileWork(s, o, block);
            Packed(s, o') && (o'.exited ==> NoRoom(s, o'.history, block))
  {
    WorkConsistent(s, o, block);
    OpenFilled(s, o, block);
    var o1 := FileOpen(s, o, |block|);
    if !o1.exited {
      WriteFilled(s, o1.history, block);
    }
  }

  lemma {:induction false} RunPacked(s: Settings, o: Output, blocks: seq<Block>)
    requires Packed(s, o) && !o.exited
    ensures var o', m := Run(s, o, blocks), Kept(s, o, blocks);
            Packed(s, o') && (o'.exited ==> m < |blocks| && NoRoom(s, o'.history, blocks[m]))
    decreases |blocks|
  {
    if blocks != [] {
      var o' := FileWork(s, o, blocks[0]);
      WorkPacked(s, o, blocks[0]);
      if o'.exited {
        ExitedStays(s, o', blocks[1..]);
      } else {
        RunPacked(s, o', blocks[1..]);
      }
    }
  }

  /** A new file is opened only for a block that would bring the current one to `maxfile`;
      likewise the client stops only at such a block. */
  lemma FilesFilled(s: Settings, blocks: seq<Block>)
    ensures var o, m := Run(s, NoOutput, blocks), Kept(s, NoOutput, blocks);
            && Filled(s, o.history)
            && (o.exited ==> m < |blocks| && NoRoom(s, o.history, blocks[m]))
  {
    RunPacked(s, NoOutput, blocks);
  }

  /** Of each index the file opened last is the one on disk. */
  lemma {:induction false} LatestSurvive(history: seq<seq<Block>>, p: nat, j: nat)
    requires p > 0 && j < |history| && |history| - p <= j
    ensures var i := IndexOf(j, p);
            i in Latest(history, p) && Latest(history, p)[i] == history[j]
  {
    var n := |history| - 1;
    if j < n {
      IndexShift(j, n - j, p);
      LatestSurvive(history[..n], p, j);
    }
  }

  lemma {:induction false} LatestBelow(history: seq<seq<Block>>, p: nat, i: nat)
    requires p > 0 && |history| <= i < p
    ensures i !in Latest(history, p)
  {
    if history != [] {
      LatestBelow(history[..|history| - 1], p, i);
      IndexShift(0, |history| - 1, p);
    }
  }

  lemma CycleStep(k: nat, p: nat, t: nat)
    requires k > 0 && 0 < t <= p
    ensures var i := Wrap(IndexOf(k - 1, p) + t, p);
            if k + t <= p then i == k + t - 1 else i == IndexOf(k + t - 1 - p, p)
  {
    if k + t <= p {
      IndexShift(0, k - 1, p);
    } else {
      IndexShift(k + t - 1 - p, p - t, p);
    }
  }

  /** The file at step `t` of the rotation order: one opened, or none. */
  lemma StepContent(s: Settings, o: Output, t: nat)
    requires Consistent(s, o) && o.history != [] && 0 < t <= s.Period()
    ensures var k, p := |o.history|, s.Period();
            Content(o, Wrap(IndexOf(k - 1, p) + t, p)) == if k + t <= p then [] else o.history[k + t - 1 - p]
  {
    var k, p := |o.history|, s.Period();
    CycleStep(k, p, t);
    if k + t <= p {
      LatestBelow(o.history, p, k + t - 1);
    } else {
      LatestSurvive(o.history, p, k + t - 1 - p);
    }
  }

  lemma {:induction false} FlattenConcat(a: seq<seq<Block>>, b: seq<seq<Block>>)
    ensures Flatten(a + b) == Flatten(a) + Flatten(b)
  {
    if b == [] {
      assert a + b == a;
    } else {
      var n := |b| - 1;
      FlattenConcat(a, b[..n]);
      assert (a + b)[..|a| + n] == a + b[..n];
    }
  }

  lemma {:induction false} FlattenEmpty(files: seq<seq<Block>>)
    requires forall i :: 0 <= i < |files| ==> files[i] == []
    ensures Flatten(files) == []
  {
    if files != [] {
      FlattenEmpty(files[..|files| - 1]);
    }
  }

  /** In rotation order come the indices not used yet, then the last files opened. */
  lemma InRotationIsTail(s: Settings, o: Output)
    requires Consistent(s, o) && o.history != []
    ensures var k, p := |o.history|, s.Period();
            var files := InRotation(o, p, IndexOf(k - 1, p));
            if k >= p then files == o.history[k - p..]
            else (forall t :: 0 <= t < p - k ==> files[t] == []) && files[p - k..] == o.history
  {
    var k, p := |o.history|, s.Period();
    var files := InRotation(o, p, IndexOf(k - 1, p));
    forall t | 0 <= t < p
      ensures files[t] == if k + t < p then [] else o.history[k + t - p]
    {
      StepContent(s, o, t + 1);
    }
  }

  ghost predicate IsSuffix(tail: seq<Block>, whole: seq<Block>) {
    |tail| <= |whole| && tail == whole[|whole| - |tail|..]
  }

  lemma FlattenSplit(files: seq<seq<Block>>, d: nat)
    requires d <= |files|
    ensures Flatten(files) == Flatten(files[..d]) + Flatten(files[d..])
  {
    var a, b := files[..d], files[d..];
    assert files == a + b;
    FlattenConcat(a, b);
  }

  lemma PaddedFlattens(files: seq<seq<Block>>, d: nat)
    requires d <= |files| && forall t :: 0 <= t < d ==> files[t] == []
    ensures Flatten(files) == Flatten(files[d..])
  {
    FlattenSplit(files, d);
    FlattenEmpty(files[..d]);
  }

  lemma KeptAll(s: Settings, o: Output)
    requires Consistent(s, o) && o.history != [] && |o.history| <= s.Period()
    ensures Flatten(InRotation(o, s.Period(), IndexOf(|o.history| - 1, s.Period()))) == o.written
  {
    var k, p := |o.history|, s.Period();
    InRotationIsTail(s, o);
    var files := InRotation(o, p, IndexOf(k - 1, p));
    PaddedFlattens(files, p - k);
  }

  lemma KeptTail(s: Settings, o: Output)
    requires Consistent(s, o) && |o.history| > s.Period()
    ensures var k, p := |o.history|, s.Period();
            && InRotation(o, p, IndexOf(k - 1, p)) == o.history[k - p..]
            && o.written == Flatten(o.history[..k - p]) + Flatten(o.history[k - p..])
  {
    InRotationIsTail(s, o);
    FlattenSplit(o.history, |o.history| - s.Period());
  }

  lemma SuffixOfSum(a: seq<Block>, tail: seq<Block>)
    ensures IsSuffix(tail, a + tail)
  {
  }

  /** The last `p` files opened, or all of them. */
  ghost function LastFiles(history: seq<seq<Block>>, p: nat): seq<seq<Block>> {
    if |history| > p then history[|history| - p..] else history
  }

  /** Read in rotation order the files hold what was written to the last `nfiles + 1` files
      opened, a suffix of the blocks written, ending with the last: all of them, in one-shot
      mode or before the rotation comes round. */
  ghost predicate KeepsSuffix(s: Settings, o: Output) {
    o.fd.Some? ==>
      && o.fd.value < s.Period()
      && var kept := Flatten(InRotation(o, s.Period(), o.fd.value));
      && kept == Flatten(LastFiles(o.history, s.Period())) && o.written == Flatten(o.history)
      && IsSuffix(kept, o.written)
      && (s.oneshot || |o.history| <= s.Period() ==> kept == o.written)
  }

  lemma SuffixHeld(s: Settings, o: Output, files: seq<seq<Block>>, lost: seq<Block>)
    requires o.fd.Some? && o.fd.value < s.Period() && files == InRotation(o, s.Period(), o.fd.value)
    requires Flatten(files) == Flatten(LastFiles(o.history, s.Period())) && o.written == Flatten(o.history)
    requires o.written == lost + Flatten(files) && (s.oneshot || |o.history| <= s.Period() ==> lost == [])
    ensures KeepsSuffix(s, o)
  {
    SuffixOfSum(lost, Flatten(files));
  }

  lemma RotatedKeeps(s: Settings, o: Output)
    requires Consistent(s, o) && |o.history| > s.Period()
    ensures KeepsSuffix(s, o)
  {
    var k, p := |o.history|, s.Period();
    KeptTail(s, o);
    SuffixHeld(s, o, o.history[k - p..], Flatten(o.history[..k - p]));
  }

  lemma UnrotatedKeeps(s: Settings, o: Output)
    requires Consistent(s, o) && o.history != [] && |o.history| <= s.Period()
    ensures KeepsSuffix(s, o)
  {
    KeptAll(s, o);
    SuffixHeld(s, o, InRotation(o, s.Period(), IndexOf(|o.history| - 1, s.Period())), []);
  }

  lemma ConsistentKeeps(s: Settings, o: Output)
    requires Consistent(s, o)
    ensures KeepsSuffix(s, o)
  {
    if |o.history| > s.Period() {
      RotatedKeeps(s, o);
    } else if o.history != [] {
      UnrotatedKeeps(s, o);
    }
  }

  lemma RotationKeepsSuffix(s: Settings, blocks: seq<Block>)
    ensures KeepsSuffix(s, Run(s, NoOutput, blocks))
  {
    RunConsistent(s, NoOutput, blocks);
    ConsistentKeeps(s, Run(s, NoOutput, blocks));
  }

  lemma {:induction false} LatestIsOpened(history: seq<seq<Block>>, p: nat, i: nat)
    requires p > 0 && i in Latest(history, p)
    ensures Latest(history, p)[i] in history
  {
    var n := |history| - 1;
    if i != IndexOf(n, p) {
      LatestIsOpened(history[..n], p, i);
    }
  }

  /** No file on disk reaches `maxfile` unless a single block does, and no more
      files are kept than the settings allow. */
  lemma FilesBounded(s: Settings, blocks: seq<Block>, i: nat)
    requires i in Run(s, NoOutput, blocks).files
    ensures var file := Run(s, NoOutput, blocks).files[i];
            |file| > 1 ==> Size(file) < s.maxfile
    ensures i <= s.nfiles
  {
    RunConsistent(s, NoOutput, blocks);
    var o := Run(s, NoOutput, blocks);
    LatestIsOpened(o.history, s.Period(), i);
    if i >= s.Period() {
      LatestInPeriod(o.history, s.Period(), i);
    }
  }

  lemma {:induction false} LatestInPeriod(history: seq<seq<Block>>, p: nat, i: nat)
    requires p > 0 && i >= p
    ensures i !in Latest(history, p)
  {
    if history != [] {
      LatestInPeriod(history[..|history| - 1], p, i);
    }
  }

  /** The client's file record. */
  class FileInfo {
    const settings: Settings
    var ifile: nat
    var fd: Option<nat>
    var files: map<nat, seq<Block>>
    var exited: bool
    ghost var history: seq<seq<Block>>
    ghost var written: seq<Block>

    ghost function State(): Output
      reads this
    {
      Output(ifile, fd, files, exited, history, written)
    }

    constructor (settings: Settings)
      ensures State() == NoOutput && this.settings == settings
    {
      this.settings := settings;
      ifile, fd, files, exited, history, written := 0, None, map[], false, [], [];
    }

    /** The current position in the open file. */
    method Position() returns (fp: nat)
      requires fd.Some?
      ensures fp == Size(Content(State(), fd.value))
    {
      fp := if fd.value in files then Size(files[fd.value]) else 0;
    }

    method Open(len: nat)
      requires !exited
      modifies this
      ensures State() == FileOpen(settings, old(State()), len)
    {
      if fd.Some? {
        var fp := Position();
        if fp + len < settings.maxfile {
          return;
        }
      }
      fd := Some(ifile);
      files, history := files[ifile := []], history + [[]];
      ifile := ifile + 1;
      if ifile > settings.nfiles {
        if settings.oneshot {
          exited := true;
          return;
        }
        ifile := 0;
      }
    }

    /** Appends the block to the open file. */
    method Append(block: Block)
      requires fd.Some? && history != []
      modifies this`files, this`history, this`written
      ensures State() == Write(old(State()), block)
    {
      var content := if fd.value in files then files[fd.value] else [];
      files := files[fd.value := content + [block]];
      ghost var n := |history| - 1;
      history, written := history[n := history[n] + [block]], written + [block];
    }

    method Work(block: Block)
      requires !exited && Consistent(settings, State())
      modifies this
      ensures Consistent(settings, State())
      ensures State() == FileWork(settings, old(State()), block)
    {
      WorkConsistent(settings, State(), block);
      Open(|block|);
      if !exited {
        Append(block);
      }
    }
  }
}
