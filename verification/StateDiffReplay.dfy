/** What the recorded writes mean: replaying those that are not flagged over the storage at the start
    of recording, against the storage of the checkpointing EVM. */
module StateDiffReplay {
  import opened StateDiff
  import opened StateDiffRuns
  import opened Wrappers

  function KeyOf(a: StorageAccess): Key {
    Key(a.account, a.slot)
  }

  predicate Survives(it: Item) {
    it.Storage? && it.access.isWrite && !it.access.reverted
  }

  function Replay(base: Store, items: seq<Item>): Store {
    if items == [] then base
    else
      var before, it := Replay(base, items[..|items| - 1]), items[|items| - 1];
      if Survives(it) then before[KeyOf(it.access) := it.access.newValue] else before
  }

  /** The value a replay of what the recorder holds gives to slot `k`. */
  function Replayed(w: World, k: Key): Word {
    Lookup(Replay(w.base, Expected(w)), k)
  }

  lemma ReplaySnoc(base: Store, items: seq<Item>, it: Item)
    ensures var before := Replay(base, items);
            Replay(base, items + [it]) ==
              if Survives(it) then before[KeyOf(it.access) := it.access.newValue] else before
  {
    assert (items + [it])[..|items|] == items;
  }

  /** Flagged items do not take part in a replay. */
  lemma {:induction false} ReplayFlagged(base: Store, x: seq<Item>, y: seq<Item>)
    ensures Replay(base, x + FlagItems(y)) == Replay(base, x)
  {
    if y == [] {
      assert x + FlagItems(y) == x;
    } else {
      var n := |y| - 1;
      ReplayFlagged(base, x, y[..n]);
      ReplaySnoc(base, x + FlagItems(y[..n]), FlagItem(y[n]));
      assert x + FlagItems(y) == (x + FlagItems(y[..n])) + [FlagItem(y[n])];
    }
  }

  /** Neither does the post-call state of an account record. */
  lemma {:induction false} ReplayUpdated(base: Store, items: seq<Item>, i: nat, post: Post)
    requires i < |items|
    ensures Replay(base, items[i := UpdateItem(items[i], post)]) == Replay(base, items)
  {
    var n := |items| - 1;
    var changed := items[i := UpdateItem(items[i], post)];
    if i < n {
      ReplayUpdated(base, items[..n], i, post);
      assert changed[..n] == items[..n][i := UpdateItem(items[i], post)];
    } else {
      assert changed[..n] == items[..n];
    }
  }

  // ---------------------------------------------------------------------------------------------
  // One step
  // ---------------------------------------------------------------------------------------------

  predicate Coupled(w: World, k: Key) {
    Replayed(w, k) == Lookup(w.storage, k)
  }

  /** Each recorded open frame's checkpoint is the replay of what had been logged on its entry. */
  ghost predicate CheckpointsCoupled(w: World, k: Key)
    requires WellFormed(w)
  {
    forall j :: w.preopened <= j < |w.frames| ==>
      Lookup(Replay(w.base, Expected(w)[..w.frames[j].start]), k) == Lookup(w.frames[j].checkpoint, k)
  }

  /** What a step must satisfy at slot `k` for replay and storage to stay together, readable before
      the step: a frame opened before recording does not change the slot and, if it reverts, had not
      changed it earlier either; a frame that halts leaves the slot as it found it. */
  predicate Guard(w: World, e: Event, k: Key)
    requires Enabled(w, e)
  {
    match e
    case Sstore(key, value) => key != k || |w.frames| > w.preopened || value == Lookup(w.storage, k)
    case End(outcome, _) =>
      var checkpoint := w.frames[|w.frames| - 1].checkpoint;
      (match outcome
       case Success => true
       case Revert => |w.frames| > w.preopened || Lookup(checkpoint, k) == Lookup(w.base, k)
       case Halt => Lookup(checkpoint, k) == Lookup(w.storage, k))
    case _ => true
  }

  lemma ExpectedLength(w: World)
    ensures |Expected(w)| == |w.log|
  {
  }

  lemma ReplayParts(base: Store, items: seq<Item>, i: nat, isRevert: bool)
    requires i <= |items|
    ensures Replay(base, items[..i] + Flag(isRevert, items[i..])) ==
              if isRevert then Replay(base, items[..i]) else Replay(base, items)
  {
    hide Replay, FlagItems;
    ReplayFlagged(base, items[..i], items[i..]);
    SplitAt(items, i);
  }

  lemma ReplaySpan(w: World, v: World, span: Span)
    requires v.log == w.log && v.closed == w.closed + [span] && span.start <= span.end == |w.log|
    ensures |Expected(w)| == |w.log|
    ensures Replay(w.base, Expected(v)) ==
              if span.outcome.Revert? then Replay(w.base, Expected(w)[..span.start]) else Replay(w.base, Expected(w))
  {
    hide *;
    ExpectedLength(w);
    ExpectedEnd(w, v, span);
    ReplayParts(w.base, Expected(w), span.start, span.outcome.Revert?);
  }

  /** The replay after a frame ended: on a revert, what had been logged when the frame was entered. */
  lemma ReplayEnd(w: World, e: Event)
    requires WellFormed(w) && Enabled(w, e) && e.End?
    ensures var start := w.frames[|w.frames| - 1].start;
            Replay(w.base, Expected(WorldStep(w, e))) ==
              if e.outcome.Revert? then Replay(w.base, Expected(w)[..start]) else Replay(w.base, Expected(w))
  {
    var f, v := w.frames[|w.frames| - 1], WorldStep(w, e);
    var span := Span(f.start, |w.log|, e.outcome);
    var mid := w.(closed := w.closed + [span]);
    ReplaySpan(w, mid, span);
    if v.log != w.log {
      ExpectedUpdate(mid, v, f.start, e.post.value);
      ReplayUpdated(w.base, Expected(mid), f.start, e.post.value);
    } else {
      ExpectedSame(mid, v);
    }
  }

  /** The part logged before a frame still open was entered is not touched by the end of another. */
  lemma ReplayEndBelow(w: World, e: Event, i: nat)
    requires WellFormed(w) && Enabled(w, e) && e.End? && i <= w.frames[|w.frames| - 1].start
    ensures Expected(WorldStep(w, e))[..i] == Expected(w)[..i]
  {
    var f, v := w.frames[|w.frames| - 1], WorldStep(w, e);
    var span := Span(f.start, |w.log|, e.outcome);
    var mid := w.(closed := w.closed + [span]);
    ExpectedEnd(w, mid, span);
    if v.log != w.log {
      ExpectedUpdate(mid, v, f.start, e.post.value);
    } else {
      ExpectedSame(mid, v);
    }
  }

  lemma ReplayedSame(w: World, v: World, k: Key)
    requires v.log == w.log && v.closed == w.closed && v.base == w.base
    ensures Replayed(v, k) == Replayed(w, k)
  {
    hide Expected, Replay;
    ExpectedSame(w, v);
  }

  lemma ReplayedSnoc(w: World, v: World, it: Item, k: Key)
    requires WellFormed(w) && v.log == w.log + [it] && v.closed == w.closed && v.base == w.base
    ensures Replayed(v, k) == if Survives(it) && KeyOf(it.access) == k then it.access.newValue else Replayed(w, k)
  {
    hide Expected, Replay, WellFormed;
    ExpectedSnoc(w, v, it);
    ReplaySnoc(w.base, Expected(w), it);
  }

  lemma ReplayedRestart(w: World, k: Key)
    ensures Coupled(Restarted(w), k)
  {
    assert Expected(Restarted(w)) == [];
  }

  lemma CoupledWrite(w: World, e: Event, k: Key)
    requires WellFormed(w) && e.Sstore? && Coupled(w, k)
    ensures Coupled(WorldStep(w, e), k) <==> Guard(w, e, k)
  {
    var v := WorldStep(w, e);
    hide WellFormed, Replayed;
    if |w.frames| > w.preopened {
      ReplayedSnoc(w, v, Storage(AccessOf(e, w.storage)), k);
    } else {
      ReplayedSame(w, v, k);
    }
  }

  /** Everything but stores, ends of frames and the recording cheatcodes leaves both alone. */
  lemma CoupledOther(w: World, e: Event, k: Key)
    requires WellFormed(w) && Enabled(w, e) && Coupled(w, k)
    requires !e.Sstore? && !e.End? && !e.StartRecording? && !e.StopRecording?
    ensures Coupled(WorldStep(w, e), k)
  {
    var v := WorldStep(w, e);
    hide WellFormed, Replayed;
    if v.log == w.log {
      ReplayedSame(w, v, k);
    } else {
      var it := v.log[|w.log|];
      assert !Survives(it);
      ReplayedSnoc(w, v, it, k);
    }
  }

  lemma CoupledEnd(w: World, e: Event, k: Key)
    requires WellFormed(w) && Enabled(w, e) && e.End? && Coupled(w, k) && CheckpointsCoupled(w, k)
    ensures Coupled(WorldStep(w, e), k) <==> Guard(w, e, k)
  {
    var n := |w.frames| - 1;
    ReplayEnd(w, e);
    var start := w.frames[n].start;
    assert w.preopened == |w.frames| ==> Expected(w)[..start] == [];
    if n >= w.preopened {
      assert Lookup(Replay(w.base, Expected(w)[..start]), k) == Lookup(w.frames[n].checkpoint, k);
    } else {
      assert Replay(w.base, Expected(w)[..start]) == w.base;
    }
    hide WellFormed, Replay, Expected, CheckpointsCoupled;
  }

  /** Exactly the guarded steps keep replay and storage together. */
  lemma CoupledStep(w: World, e: Event, k: Key)
    requires WellFormed(w) && Enabled(w, e) && Coupled(w, k) && CheckpointsCoupled(w, k)
    ensures Coupled(WorldStep(w, e), k) <==> Guard(w, e, k)
  {
    hide WellFormed, Coupled, CheckpointsCoupled;
    match e
    case StartRecording => ReplayedRestart(w, k);
    case StopRecording => ReplayedRestart(w, k);
    case End(_, _) => CoupledEnd(w, e, k);
    case Sstore(_, _) => CoupledWrite(w, e, k);
    case _ => CoupledOther(w, e, k);
  }

  /** Logging leaves what was logged before alone. */
  lemma PrefixKept(w: World, v: World, i: nat)
    requires WellFormed(w) && v.closed == w.closed && i <= |w.log|
    requires v.log == w.log || (|v.log| == |w.log| + 1 && v.log[..|w.log|] == w.log)
    ensures Expected(v)[..i] == Expected(w)[..i]
  {
    if v.log == w.log {
      ExpectedSame(w, v);
    } else {
      assert v.log == w.log + [v.log[|w.log|]];
      ExpectedSnoc(w, v, v.log[|w.log|]);
    }
  }

  lemma CheckpointsEnd(w: World, e: Event, k: Key)
    requires WellFormed(w) && Enabled(w, e) && e.End? && CheckpointsCoupled(w, k) && WellFormed(WorldStep(w, e))
    ensures CheckpointsCoupled(WorldStep(w, e), k)
  {
    var v := WorldStep(w, e);
    hide Expected, Replay;
    forall j | v.preopened <= j < |v.frames|
      ensures Lookup(Replay(v.base, Expected(v)[..v.frames[j].start]), k) == Lookup(v.frames[j].checkpoint, k)
    {
      ReplayEndBelow(w, e, w.frames[j].start);
    }
  }

  /** A frame's checkpoint stays coupled while things are logged, and a new frame's is from the start. */
  lemma CheckpointsLogged(w: World, v: World, k: Key)
    requires WellFormed(w) && WellFormed(v) && Coupled(w, k) && CheckpointsCoupled(w, k)
    requires v.closed == w.closed && v.base == w.base && v.preopened == w.preopened
    requires v.log == w.log || (|v.log| == |w.log| + 1 && v.log[..|w.log|] == w.log)
    requires v.frames == w.frames || exists kind :: v.frames == w.frames + [Frame(kind, w.storage, |w.log|)]
    ensures CheckpointsCoupled(v, k)
  {
    assert Expected(w)[..|w.log|] == Expected(w);
    hide Expected, Replay;
    forall j | v.preopened <= j < |v.frames|
      ensures Lookup(Replay(v.base, Expected(v)[..v.frames[j].start]), k) == Lookup(v.frames[j].checkpoint, k)
    {
      assert j < |w.frames| ==> v.frames[j] == w.frames[j];
      PrefixKept(w, v, v.frames[j].start);
    }
  }

  lemma CheckpointsStep(w: World, e: Event, k: Key)
    requires WellFormed(w) && Enabled(w, e) && Coupled(w, k) && CheckpointsCoupled(w, k)
    requires WellFormed(WorldStep(w, e))
    ensures CheckpointsCoupled(WorldStep(w, e), k)
  {
    var v := WorldStep(w, e);
    if e.StartRecording? || e.StopRecording? {
      assert v.preopened == |v.frames|;
    } else if e.End? {
      hide CheckpointsCoupled;
      CheckpointsEnd(w, e, k);
    } else {
      hide CheckpointsCoupled, WellFormed, Coupled;
      CheckpointsLogged(w, v, k);
    }
  }

  // ---------------------------------------------------------------------------------------------
  // Whole runs
  // ---------------------------------------------------------------------------------------------

  /** Replaying the unflagged recorded writes gives the slot its present value. */
  predicate Agrees(s: State, k: Key) {
    s.stack.Some? ==> Lookup(Replay(s.world.base, StackItems(s.stack.value)), k) == Lookup(s.world.storage, k)
  }

  predicate AlwaysAgrees(s: State, es: seq<Event>, k: Key)
    requires Legal(s, es)
  {
    && (es != [] ==> AlwaysAgrees(s, es[..|es| - 1], k))
    && Agrees(Run(s, es), k)
  }

  predicate AlwaysGuarded(s: State, es: seq<Event>, k: Key)
    requires Legal(s, es)
  {
    es != [] ==>
      && AlwaysGuarded(s, es[..|es| - 1], k)
      && var r := Run(s, es[..|es| - 1]);
         (r.stack.Some? ==> Guard(r.world, es[|es| - 1], k))
  }

  /** For every run and every slot: replay and storage agree throughout the run if and only if every
      step of the run is guarded at that slot. */
  lemma {:induction false} ReplayAgreesIffGuarded(s: State, es: seq<Event>, k: Key)
    requires Initial(s) && Legal(s, es)
    ensures AlwaysAgrees(s, es, k) <==> AlwaysGuarded(s, es, k)
    ensures Inv(Run(s, es))
    ensures AlwaysAgrees(s, es, k) && Run(s, es).stack.Some? ==> CheckpointsCoupled(Run(s, es).world, k)
  {
    RunInv(s, es);
    if es != [] {
      var r, e := Run(s, es[..|es| - 1]), es[|es| - 1];
      ReplayAgreesIffGuarded(s, es[..|es| - 1], k);
      if r.stack.Some? && AlwaysAgrees(s, es[..|es| - 1], k) {
        CoupledStep(r.world, e, k);
        CheckpointsStep(r.world, e, k);
      }
    }
  }

  // The same for a reader who knows the run: a condition on its events.

  predicate CheckpointsAgree(frames: seq<Frame>, value: Word, k: Key) {
    forall j :: 0 <= j < |frames| ==> Lookup(frames[j].checkpoint, k) == value
  }

  /** No frame halts, and frames open when recording began do not write slot `k`, neither since then
      nor between their entry and the start of recording. */
  predicate CleanStep(w: World, e: Event, k: Key) {
    match e
    case StartRecording => CheckpointsAgree(w.frames, Lookup(w.storage, k), k)
    case StopRecording => CheckpointsAgree(w.frames, Lookup(w.storage, k), k)
    case End(outcome, _) => !outcome.Halt?
    case Sstore(key, _) => key != k || |w.frames| > w.preopened
    case _ => true
  }

  predicate Clean(s: State, es: seq<Event>, k: Key)
    requires Legal(s, es)
  {
    es != [] ==> Clean(s, es[..|es| - 1], k) && CleanStep(Run(s, es[..|es| - 1]).world, es[|es| - 1], k)
  }

  /** Over every run without halts, for every slot that the frames already open when recording began
      do not write, replaying the unflagged records over the starting storage gives exactly the
      storage of the checkpointing EVM, at every moment of the run. */
  lemma {:induction false} ReplayIsStorage(s: State, es: seq<Event>, k: Key)
    requires Initial(s) && Legal(s, es) && Clean(s, es, k)
    ensures AlwaysAgrees(s, es, k)
  {
    CleanIsGuarded(s, es, k);
    ReplayAgreesIffGuarded(s, es, k);
  }

  predicate PreopenedClean(s: State, k: Key) {
    s.stack.Some? ==>
      forall j :: 0 <= j < |s.world.frames| && j < s.world.preopened ==>
        Lookup(s.world.frames[j].checkpoint, k) == Lookup(s.world.base, k)
  }

  lemma CleanStepIsGuarded(r: State, e: Event, k: Key)
    requires Inv(r) && Enabled(r.world, e) && CleanStep(r.world, e, k) && PreopenedClean(r, k)
    ensures r.stack.Some? ==> Guard(r.world, e, k)
    ensures PreopenedClean(Step(r, e), k)
  {
  }

  lemma {:induction false} CleanIsGuarded(s: State, es: seq<Event>, k: Key)
    requires Initial(s) && Legal(s, es) && Clean(s, es, k)
    ensures AlwaysGuarded(s, es, k)
    ensures PreopenedClean(Run(s, es), k)
  {
    if es != [] {
      CleanIsGuarded(s, es[..|es| - 1], k);
      RunInv(s, es[..|es| - 1]);
      CleanStepIsGuarded(Run(s, es[..|es| - 1]), es[|es| - 1], k);
    }
  }

  // A halt is not flagged although the EVM rolls it back.

  const SLOT := Key(7, 0)
  const RECORD := CallRecord(Call, 1, 7, true, 0, 0, 1)
  const WRITE := StorageAccess(7, 0, true, 0, 5, false)
  const ROOT := Frame(Call, map[], 0)

  const BEFORE := State(World(map[], [ROOT], 1, map[], [], []), None)
  const STARTED := State(BEFORE.world, Some([]))
  const CALLED := State(World(map[], [ROOT, ROOT], 1, map[], [Account(RECORD)], []), Some([[RECORD]]))
  const WRITTEN := State(World(map[SLOT := 5], [ROOT, ROOT], 1, map[], [Account(RECORD), Storage(WRITE)], []),
                         Some([[RECORD.(storageAccesses := [WRITE])]]))
  const HALTED := State(World(map[], [ROOT], 1, map[], [Account(RECORD), Storage(WRITE)], [Span(0, 2, Halt)]),
                        Some([[RECORD.(storageAccesses := [WRITE])]]))

  const HALTED_CALL: seq<Event> :=
    [StartRecording, EnterCall(Call, 1, 7, true, 0, 0), Sstore(SLOT, 5), End(Halt, None)]

  lemma HaltedCallSteps()
    ensures Step(BEFORE, HALTED_CALL[0]) == STARTED
    ensures Step(STARTED, HALTED_CALL[1]) == CALLED
  {
    assert STARTED.world.log + [Account(RECORD)] == CALLED.world.log;
    assert STARTED.world.frames + [ROOT] == CALLED.world.frames;
    assert STARTED.stack.value + [[RECORD]] == CALLED.stack.value;
  }

  lemma HaltedCallWrites()
    ensures Step(CALLED, HALTED_CALL[2]) == WRITTEN
  {
    var r := RECORD.(storageAccesses := [WRITE]);
    assert AppendStorageAccess([RECORD], WRITE, 2) == [r] by { assert [] + [WRITE] == [WRITE]; }
    assert [[RECORD]][..0] + [[r]] == [[r]];
  }

  lemma HaltedCallHalts()
    ensures Step(WRITTEN, HALTED_CALL[3]) == HALTED
  {
    var top := [RECORD.(storageAccesses := [WRITE])];
    assert [top][..0] == [];
    assert [ROOT, ROOT][..1] == [ROOT];
  }

  lemma Extend(s: State, es: seq<Event>, i: nat, r: State)
    requires i < |es| && Legal(s, es[..i]) && Run(s, es[..i]) == r && Enabled(r.world, es[i])
    ensures Legal(s, es[..i + 1]) && Run(s, es[..i + 1]) == Step(r, es[i])
  {
    hide *;
    RunSnoc(s, es[..i], es[i]);
    assert es[..i] + [es[i]] == es[..i + 1];
  }

  lemma HaltedCallEnabled()
    ensures Enabled(BEFORE.world, HALTED_CALL[0]) && Enabled(STARTED.world, HALTED_CALL[1])
    ensures Enabled(CALLED.world, HALTED_CALL[2]) && Enabled(WRITTEN.world, HALTED_CALL[3])
    ensures |HALTED_CALL| == 4
  {
  }

  lemma EmptyRun(s: State)
    ensures Legal(s, []) && Run(s, []) == s
  {
  }

  lemma HaltedCallIsLegal()
    ensures Legal(BEFORE, HALTED_CALL) && Run(BEFORE, HALTED_CALL) == HALTED
  {
    hide *;
    HaltedCallSteps();
    HaltedCallWrites();
    HaltedCallHalts();
    HaltedCallEnabled();
    EmptyRun(BEFORE);
    assert HALTED_CALL[..0] == [];
    Extend(BEFORE, HALTED_CALL, 0, BEFORE);
    Extend(BEFORE, HALTED_CALL, 1, STARTED);
    Extend(BEFORE, HALTED_CALL, 2, CALLED);
    Extend(BEFORE, HALTED_CALL, 3, WRITTEN);
    assert HALTED_CALL[..4] == HALTED_CALL;
  }

  lemma HaltedReplay()
    ensures Replay(map[], StackItems(HALTED.stack.value)) == map[SLOT := 5]
  {
    var r := RECORD.(storageAccesses := [WRITE]);
    assert StackItems([[r]]) == [Account(RECORD)] + [Storage(WRITE)] by {
      MergeItems([], [r]);
      ItemsSingle(r);
    }
    ReplaySnoc(map[], [Account(RECORD)], Storage(WRITE));
    ReplaySnoc(map[], [], Account(RECORD));
    assert [] + [Account(RECORD)] == [Account(RECORD)];
  }

  /** After one halted call that wrote a slot, replaying the unflagged records differs from the
      storage. */
  lemma HaltIsNotFlagged()
    ensures Initial(BEFORE) && Legal(BEFORE, HALTED_CALL)
    ensures !Agrees(Run(BEFORE, HALTED_CALL), SLOT)
  {
    HaltedCallIsLegal();
    HaltedReplay();
  }
}
