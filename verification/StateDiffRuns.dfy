/** Whole runs of the state-diff recorder beside a simple EVM: a storage map, a stack of frame
    checkpoints, and a plain log of what was executed since recording began. */
module StateDiffRuns {
  import opened StateDiff
  import opened Wrappers

  datatype Key = Key(account: Address, slot: Word)

  type Store = map<Key, Word>

  function Lookup(s: Store, k: Key): Word {
    if k in s then s[k] else 0
  }

  /** A halt (out of gas, invalid opcode, ...) rolls back like a revert but is not `is_revert()`. */
  datatype Outcome = Success | Revert | Halt

  /** An open frame: the checkpoint taken on entry and the log position at that time. */
  datatype Frame = Frame(kind: AccessKind, checkpoint: Store, start: nat)

  /** A finished frame: the log positions executed while it was open, and how it ended. */
  datatype Span = Span(start: nat, end: nat, outcome: Outcome)

  /** `preopened` is the number of open frames that were already open when recording began. */
  datatype World = World(
    storage: Store, frames: seq<Frame>, preopened: nat, base: Store, log: seq<Item>, closed: seq<Span>)

  datatype State = State(world: World, stack: Option<Stack>)

  datatype Event =
    | StartRecording
    | StopRecording
    | EnterCall(kind: AccessKind, accessor: Address, account: Address, initialized: bool, balance: Word, nonce: nat)
    | EnterCreate(accessor: Address, account: Address)
    | End(outcome: Outcome, post: Option<Post>)
    | Sload(key: Key)
    | Sstore(key: Key, value: Word)
    | Touch(kind: AccessKind, accessor: Address, account: Address, initialized: bool, balance: Word, nonce: nat)
    | Destruct(accessor: Address, account: Address, initialized: bool, balance: Word, value: Word, nonce: nat)

  /** Frames end properly nested and the root call does not end within the run. */
  predicate Enabled(w: World, e: Event) {
    match e
    case EnterCall(kind, _, _, _, _, _) => IsFrameKind(kind) && !kind.Create?
    case End(_, _) => |w.frames| > 1
    case Touch(kind, _, _, _, _, _) => kind.Balance? || kind.Extcodesize? || kind.Extcodehash? || kind.Extcodecopy?
    case _ => true
  }

  function TouchRecord(e: Event, depth: nat): AccountAccess
    requires e.Touch?
  {
    AccountAccess(e.accessor, e.account, e.kind, e.initialized, e.balance, e.balance, e.nonce, e.nonce,
                  false, [], depth)
  }

  function DestructRecord(e: Event, depth: nat): AccountAccess
    requires e.Destruct?
  {
    AccountAccess(e.accessor, e.account, SelfDestruct, e.initialized, e.balance, e.balance + e.value,
                  e.nonce, e.nonce, false, [], depth)
  }

  function EntryRecord(e: Event, depth: nat): AccountAccess
    requires e.EnterCall? || e.EnterCreate?
  {
    match e
    case EnterCall(kind, accessor, account, initialized, balance, nonce) =>
      CallRecord(kind, accessor, account, initialized, balance, nonce, depth)
    case EnterCreate(accessor, account) =>
      CreateRecord(accessor, account, depth)
  }

  function AccessOf(e: Event, storage: Store): StorageAccess
    requires e.Sload? || e.Sstore?
  {
    var present := Lookup(storage, e.key);
    StorageAccess(e.key.account, e.key.slot, e.Sstore?, present, if e.Sstore? then e.value else present, false)
  }

  // ---------------------------------------------------------------------------------------------
  // The recorder's side of one step
  // ---------------------------------------------------------------------------------------------

  /** Hooks see the journal depth: the number of open frames, after the pop for the end hooks. */
  function StackStep(w: World, stack: Stack, e: Event): Stack
    requires Enabled(w, e)
  {
    var depth := |w.frames|;
    match e
    case StartRecording => []
    case StopRecording => []
    case EnterCall(_, _, _, _, _, _) => stack + [[EntryRecord(e, depth)]]
    case EnterCreate(_, _) => stack + [[EntryRecord(e, depth)]]
    case End(outcome, post) => EndFrame(stack, depth - 1, outcome.Revert?, post)
    case Sload(_) => OfferAccess(stack, AccessOf(e, w.storage), depth)
    case Sstore(_, _) => OfferAccess(stack, AccessOf(e, w.storage), depth)
    case Touch(_, _, _, _, _, _) => PushTouch(stack, TouchRecord(e, depth))
    case Destruct(_, _, _, _, _, _) => PushSelfDestruct(stack, DestructRecord(e, depth))
  }

  // ---------------------------------------------------------------------------------------------
  // The reference side of one step
  // ---------------------------------------------------------------------------------------------

  /** Everything logged happens in order; storage accesses of frames opened before recording began
      are not logged, nor is a self-destruct before anything else was. */
  function LogStep(w: World, e: Event): seq<Item>
    requires Enabled(w, e)
  {
    var depth := |w.frames|;
    match e
    case StartRecording => []
    case StopRecording => []
    case EnterCall(_, _, _, _, _, _) => w.log + [Account(EntryRecord(e, depth))]
    case EnterCreate(_, _) => w.log + [Account(EntryRecord(e, depth))]
    case End(_, post) =>
      var start := w.frames[depth - 1].start;
      if post.Some? && depth > w.preopened && start < |w.log|
      then w.log[start := UpdateItem(w.log[start], post.value)]
      else w.log
    case Sload(_) => if depth > w.preopened then w.log + [Storage(AccessOf(e, w.storage))] else w.log
    case Sstore(_, _) => if depth > w.preopened then w.log + [Storage(AccessOf(e, w.storage))] else w.log
    case Touch(_, _, _, _, _, _) => w.log + [Account(TouchRecord(e, depth))]
    case Destruct(_, _, _, _, _, _) => if w.log == [] then [] else w.log + [Account(DestructRecord(e, depth))]
  }

  function WorldStep(w: World, e: Event): World
    requires Enabled(w, e)
  {
    var log := LogStep(w, e);
    match e
    case StartRecording => Restarted(w)
    case StopRecording => Restarted(w)
    case EnterCall(kind, _, _, _, _, _) => w.(log := log, frames := w.frames + [Frame(kind, w.storage, |w.log|)])
    case EnterCreate(_, _) => w.(log := log, frames := w.frames + [Frame(Create, w.storage, |w.log|)])
    case End(outcome, _) =>
      var n := |w.frames| - 1;
      var f := w.frames[n];
      w.(log := log,
         frames := w.frames[..n],
         preopened := if w.preopened > n then n else w.preopened,
         closed := w.closed + [Span(f.start, |w.log|, outcome)],
         storage := if outcome.Success? then w.storage else f.checkpoint)
    case Sstore(key, value) => w.(log := log, storage := w.storage[key := value])
    case _ => w.(log := log)
  }

  /** Both cheatcodes replace the stack by an empty one: recording goes on from the present storage. */
  function Restarted(w: World): World {
    w.(preopened := |w.frames|, base := w.storage, log := [], closed := [],
       frames := seq(|w.frames|, i requires 0 <= i < |w.frames| => w.frames[i].(start := 0)))
  }

  function Step(s: State, e: Event): State
    requires Enabled(s.world, e)
  {
    State(WorldStep(s.world, e),
          if s.stack.Some? then Some(StackStep(s.world, s.stack.value, e))
          else if e.StartRecording? || e.StopRecording? then Some([])
          else None)
  }

  // ---------------------------------------------------------------------------------------------
  // What the recorder should hold
  // ---------------------------------------------------------------------------------------------

  predicate RevertedAt(closed: seq<Span>, i: nat) {
    exists c :: 0 <= c < |closed| && closed[c].outcome.Revert? && closed[c].start <= i < closed[c].end
  }

  predicate IsFlagged(it: Item) {
    match it
    case Account(r) => r.reverted
    case Storage(a) => a.reverted
  }

  /** The log with each item flagged exactly when some frame open at its execution ended in revert. */
  function Expected(w: World): seq<Item> {
    seq(|w.log|, i requires 0 <= i < |w.log| => if RevertedAt(w.closed, i) then FlagItem(w.log[i]) else w.log[i])
  }

  /** The reference world's own bookkeeping: positions are in range and nested, the log is unflagged. */
  ghost predicate WellFormed(w: World) {
    && 1 <= w.preopened <= |w.frames|
    && (forall j :: 0 <= j < w.preopened ==> w.frames[j].start == 0)
    && (forall j :: 0 <= j < |w.frames| ==> w.frames[j].start <= |w.log|)
    && (forall j :: w.preopened <= j < |w.frames| ==> IsFrameKind(w.frames[j].kind))
    && (forall i, j :: 0 <= i < j < |w.frames| ==> w.frames[i].start <= w.frames[j].start)
    && (forall c :: 0 <= c < |w.closed| ==> w.closed[c].end <= |w.log|)
    && (forall i :: 0 <= i < |w.log| ==> !IsFlagged(w.log[i]))
  }

  /** A vector that starts with a proper record of the given kind and depth. */
  predicate OpenedBy(v: Records, kind: AccessKind, depth: nat) {
    v != [] && v[0].kind == kind && v[0].depth == depth
  }

  /** The vector left behind by finished frames: none of its records is below the open frames. */
  predicate IsResidual(v: Records, preopened: nat) {
    v != [] && !v[0].kind.Resume? && v[0].depth >= preopened
  }

  /** The stack-shape invariant: one vector per open recorded frame, opened by that frame's own
      record one depth below it and holding everything recorded since, above at most one residual
      vector. */
  predicate Shape(frames: seq<Frame>, preopened: nat, stack: Stack)
    decreases |frames|
  {
    if |frames| <= preopened then
      |frames| == preopened && (stack == [] || (|stack| == 1 && IsResidual(stack[0], preopened)))
    else
      var n := |frames| - 1;
      && stack != []
      && OpenedBy(stack[|stack| - 1], frames[n].kind, n)
      && |StackItems(stack[..|stack| - 1])| == frames[n].start
      && Shape(frames[..n], preopened, stack[..|stack| - 1])
  }

  ghost predicate Inv(s: State) {
    && |s.world.frames| >= 1
    && (s.stack.Some? ==>
          && WellFormed(s.world)
          && Faithful(s.world, s.stack.value))
  }

  /** The stack has its shape and, read from the bottom up, says exactly what was logged. */
  predicate Faithful(w: World, stack: Stack) {
    Shape(w.frames, w.preopened, stack) && StackItems(stack) == Expected(w)
  }

  // ---------------------------------------------------------------------------------------------
  // Preservation, event by event
  // ---------------------------------------------------------------------------------------------

  lemma UpdateKeepsFlag(it: Item, post: Post)
    ensures IsFlagged(UpdateItem(it, post)) == IsFlagged(it)
  {
  }

  lemma WellFormedLogged(w: World, v: World, it: Item)
    requires WellFormed(w) && v.frames == w.frames && v.preopened == w.preopened && v.closed == w.closed
    requires v.log == w.log + [it] && !IsFlagged(it)
    ensures WellFormed(v)
  {
    hide IsFlagged;
  }

  lemma WellFormedSame(w: World, v: World)
    requires WellFormed(w) && v.frames == w.frames && v.preopened == w.preopened
    requires v.closed == w.closed && v.log == w.log
    ensures WellFormed(v)
  {
  }

  lemma WellFormedEntered(w: World, v: World, it: Item, f: Frame)
    requires WellFormed(w) && v.preopened == w.preopened && v.closed == w.closed
    requires v.log == w.log + [it] && !IsFlagged(it)
    requires v.frames == w.frames + [f] && f.start == |w.log| && IsFrameKind(f.kind)
    ensures WellFormed(v)
  {
    WellFormedLogged(w, v.(frames := w.frames), it);
    hide IsFlagged, IsFrameKind;
  }

  lemma WellFormedEnded(w: World, v: World, n: nat)
    requires WellFormed(w) && n + 1 == |w.frames| && n >= 1 && v.frames == w.frames[..n]
    requires v.preopened == if w.preopened > n then n else w.preopened
    requires |v.closed| == |w.closed| + 1 && v.closed[..|w.closed|] == w.closed && v.closed[|w.closed|].end == |w.log|
    requires |v.log| == |w.log| && forall i :: 0 <= i < |v.log| ==> !IsFlagged(v.log[i])
    ensures WellFormed(v)
  {
    hide IsFlagged, IsFrameKind;
    forall c | 0 <= c < |v.closed| ensures v.closed[c].end <= |v.log| {
      assert c < |w.closed| ==> v.closed[c] == v.closed[..|w.closed|][c];
    }
  }

  lemma WellFormedRestarted(w: World)
    requires |w.frames| >= 1
    ensures WellFormed(Restarted(w))
  {
  }

  /** The end of a frame changes no flag and no position of the log. */
  lemma EndKeepsLog(w: World, e: Event)
    requires WellFormed(w) && Enabled(w, e) && e.End?
    ensures var log := LogStep(w, e);
            |log| == |w.log| && forall i :: 0 <= i < |log| ==> !IsFlagged(log[i])
  {
    var start := w.frames[|w.frames| - 1].start;
    hide IsFlagged, UpdateItem;
    if e.post.Some? && start < |w.log| {
      UpdateKeepsFlag(w.log[start], e.post.value);
    }
  }

  /** What is logged is not flagged. */
  lemma AccessUnflagged(w: World, v: World, e: Event)
    requires WellFormed(w) && (e.Sload? || e.Sstore?)
    requires v.frames == w.frames && v.preopened == w.preopened && v.closed == w.closed && v.log == LogStep(w, e)
    ensures WellFormed(v)
  {
    var it := Storage(AccessOf(e, w.storage));
    assert !IsFlagged(it);
    hide WellFormed, IsFlagged, AccessOf;
    if v.log == w.log {
      WellFormedSame(w, v);
    } else {
      WellFormedLogged(w, v, it);
    }
  }

  lemma WellFormedStep(w: World, e: Event)
    requires WellFormed(w) && Enabled(w, e)
    ensures WellFormed(WorldStep(w, e))
  {
    var v, n := WorldStep(w, e), |w.frames| - 1;
    assert n >= 0;
    hide WellFormed;
    match e
    case StartRecording => WellFormedRestarted(w);
    case StopRecording => WellFormedRestarted(w);
    case EnterCall(kind, _, _, _, _, _) =>
      WellFormedEntered(w, v, Account(EntryRecord(e, |w.frames|)), Frame(kind, w.storage, |w.log|));
    case EnterCreate(_, _) =>
      WellFormedEntered(w, v, Account(EntryRecord(e, |w.frames|)), Frame(Create, w.storage, |w.log|));
    case End(_, _) =>
      EndKeepsLog(w, e);
      WellFormedEnded(w, v, n);
    case Sload(_) => AccessUnflagged(w, v, e);
    case Sstore(_, _) => AccessUnflagged(w, v, e);
    case Touch(_, _, _, _, _, _) => WellFormedLogged(w, v, Account(TouchRecord(e, |w.frames|)));
    case Destruct(_, _, _, _, _, _) =>
      if w.log == [] {
        WellFormedSame(w, v);
      } else {
        WellFormedLogged(w, v, Account(DestructRecord(e, |w.frames|)));
      }
  }

  lemma FlagIdempotent(it: Item)
    ensures FlagItem(FlagItem(it)) == FlagItem(it)
  {
  }

  /** Logging one more item leaves the flags of the earlier ones alone and starts unflagged. */
  lemma ExpectedSnoc(w: World, v: World, it: Item)
    requires WellFormed(w) && v.log == w.log + [it] && v.closed == w.closed
    ensures Expected(v) == Expected(w) + [it]
  {
    assert !RevertedAt(w.closed, |w.log|);
  }

  /** A new frame's vector on top, whose record is logged, keeps the shape. */
  lemma PushShape(w: World, v: World, stack: Stack, r: AccountAccess, f: Frame)
    requires Shape(w.frames, w.preopened, stack) && |StackItems(stack)| == f.start && w.preopened <= |w.frames|
    requires v.frames == w.frames + [f] && v.preopened == w.preopened && r.kind == f.kind && r.depth == |w.frames|
    ensures Shape(v.frames, v.preopened, stack + [[r]])
  {
    hide StackItems;
    assert (stack + [[r]])[..|stack|] == stack;
    assert v.frames[..|w.frames|] == w.frames;
  }

  lemma PushFaithful(w: World, v: World, stack: Stack, r: AccountAccess, f: Frame)
    requires WellFormed(w) && Faithful(w, stack) && f.start == |w.log| && IsFrameKind(r.kind) && r.storageAccesses == []
    requires v.frames == w.frames + [f] && v.preopened == w.preopened && r.kind == f.kind && r.depth == |w.frames|
    requires v.closed == w.closed && v.log == w.log + [Account(r)]
    ensures Faithful(v, stack + [[r]])
  {
    assert |Expected(w)| == |w.log|;
    hide Shape, Expected, StackItems, Items;
    ExpectedSnoc(w, v, Account(r));
    StackItemsSnoc(stack, [r]);
    ItemsSingle(r);
    PushShape(w, v, stack, r, f);
  }

  lemma EnterStep(w: World, stack: Stack, e: Event)
    requires WellFormed(w) && Faithful(w, stack) && Enabled(w, e) && (e.EnterCall? || e.EnterCreate?)
    ensures Faithful(WorldStep(w, e), StackStep(w, stack, e))
  {
    hide WellFormed, Faithful;
    var v, r := WorldStep(w, e), EntryRecord(e, |w.frames|);
    PushFaithful(w, v, stack, r, Frame(r.kind, w.storage, |w.log|));
  }

  /** Replacing the top vector by one that keeps its first record keeps the shape. */
  lemma ReplaceTop(frames: seq<Frame>, preopened: nat, stack: Stack, top: Records)
    requires Shape(frames, preopened, stack) && stack != []
    requires stack[|stack| - 1] != [] && top != []
    requires top[0].depth == stack[|stack| - 1][0].depth && top[0].kind == stack[|stack| - 1][0].kind
    ensures Shape(frames, preopened, stack[..|stack| - 1] + [top])
  {
    assert (stack[..|stack| - 1] + [top])[..|stack| - 1] == stack[..|stack| - 1];
  }

  lemma TopNonEmpty(w: World, stack: Stack)
    requires WellFormed(w) && Shape(w.frames, w.preopened, stack) && stack != []
    ensures stack[|stack| - 1] != [] && !stack[|stack| - 1][0].kind.Resume?
  {
  }

  /** A top vector that says one thing more, with the same first record, logs exactly that thing. */
  lemma GrowTop(w: World, v: World, stack: Stack, top: Records, it: Item)
    requires WellFormed(w) && Faithful(w, stack) && stack != [] && stack[|stack| - 1] != []
    requires v.frames == w.frames && v.preopened == w.preopened && v.closed == w.closed && v.log == w.log + [it]
    requires top != [] && top[0].depth == stack[|stack| - 1][0].depth && top[0].kind == stack[|stack| - 1][0].kind
    requires Items(top) == Items(stack[|stack| - 1]) + [it]
    ensures Faithful(v, stack[..|stack| - 1] + [top])
  {
    var n := |stack| - 1;
    ReplaceTop(w.frames, w.preopened, stack, top);
    StackItemsSnoc(stack[..n], top);
    ExpectedSnoc(w, v, it);
    Assoc(StackItems(stack[..n]), Items(stack[n]), [it]);
  }

  lemma PushStep(w: World, v: World, stack: Stack, r: AccountAccess)
    requires WellFormed(w) && Faithful(w, stack) && stack != []
    requires v.frames == w.frames && v.preopened == w.preopened && v.closed == w.closed
    requires !r.kind.Resume? && r.storageAccesses == [] && v.log == w.log + [Account(r)]
    ensures Faithful(v, stack[..|stack| - 1] + [stack[|stack| - 1] + [r]])
  {
    var n := |stack| - 1;
    TopNonEmpty(w, stack);
    ItemsSnoc(stack[n], r);
    GrowTop(w, v, stack, stack[n] + [r], Account(r));
  }

  /** Nothing is pending exactly when nothing was logged. */
  lemma EmptyIffNothingLogged(w: World, stack: Stack)
    requires WellFormed(w) && Faithful(w, stack)
    ensures stack == [] <==> w.log == []
  {
    assert |Expected(w)| == |w.log|;
    if stack != [] {
      var n := |stack| - 1;
      TopNonEmpty(w, stack);
      FirstItem(stack[n]);
    }
  }

  lemma TouchStep(w: World, stack: Stack, e: Event)
    requires WellFormed(w) && Faithful(w, stack) && Enabled(w, e) && e.Touch?
    ensures Faithful(WorldStep(w, e), StackStep(w, stack, e))
  {
    var v, r := WorldStep(w, e), TouchRecord(e, |w.frames|);
    if stack == [] {
      EmptyIffNothingLogged(w, stack);
      ExpectedSnoc(w, v, Account(r));
      ItemsSingle(r);
      StackItemsSnoc([], [r]);
      assert [] + [[r]] == [[r]];
    } else {
      PushStep(w, v, stack, r);
    }
  }

  lemma DestructStep(w: World, stack: Stack, e: Event)
    requires WellFormed(w) && Faithful(w, stack) && Enabled(w, e) && e.Destruct?
    ensures Faithful(WorldStep(w, e), StackStep(w, stack, e))
  {
    var v, r := WorldStep(w, e), DestructRecord(e, |w.frames|);
    EmptyIffNothingLogged(w, stack);
    if stack != [] {
      PushStep(w, v, stack, r);
    }
  }

  lemma ExpectedSame(w: World, v: World)
    requires v.log == w.log && v.closed == w.closed
    ensures Expected(v) == Expected(w)
  {
  }

  /** The two sides of a storage access in a recorded frame. */
  lemma RecordedSides(w: World, stack: Stack, e: Event)
    requires Faithful(w, stack) && (e.Sload? || e.Sstore?) && |w.frames| > w.preopened
    ensures stack != [] && stack[|stack| - 1] != [] && stack[|stack| - 1][0].depth < |w.frames|
    ensures Enabled(w, e)
    ensures var v, a, n := WorldStep(w, e), AccessOf(e, w.storage), |stack| - 1;
            && v.frames == w.frames && v.preopened == w.preopened && v.closed == w.closed
            && v.log == w.log + [Storage(a)]
            && StackStep(w, stack, e) == stack[..n] + [AppendStorageAccess(stack[n], a, |w.frames|)]
  {
    hide AppendStorageAccess, AccessOf, StackItems, Expected;
  }

  /** A storage access is recorded when the executing frame was entered while recording ... */
  lemma RecordedAccessStep(w: World, stack: Stack, e: Event)
    requires WellFormed(w) && Faithful(w, stack) && (e.Sload? || e.Sstore?) && |w.frames| > w.preopened
    ensures Faithful(WorldStep(w, e), StackStep(w, stack, e))
  {
    hide *;
    RecordedSides(w, stack, e);
    var a, depth, n := AccessOf(e, w.storage), |w.frames|, |stack| - 1;
    AppendStorageAccessItems(stack[n], a, depth);
    GrowTop(w, WorldStep(w, e), stack, AppendStorageAccess(stack[n], a, depth), Storage(a));
  }

  /** ... and ignored when the executing frame was already open. */
  lemma IgnoredAccessStep(w: World, stack: Stack, e: Event)
    requires WellFormed(w) && Faithful(w, stack) && (e.Sload? || e.Sstore?) && |w.frames| == w.preopened
    ensures StackStep(w, stack, e) == stack
    ensures Faithful(WorldStep(w, e), stack)
  {
    ExpectedSame(w, WorldStep(w, e));
    assert stack == [] || stack == stack[..|stack| - 1] + [stack[|stack| - 1]];
  }

  lemma AccessStep(w: World, stack: Stack, e: Event)
    requires WellFormed(w) && Faithful(w, stack) && (e.Sload? || e.Sstore?)
    ensures Faithful(WorldStep(w, e), StackStep(w, stack, e))
  {
    if |w.frames| > w.preopened {
      RecordedAccessStep(w, stack, e);
    } else {
      IgnoredAccessStep(w, stack, e);
    }
  }

  lemma RevertedSnoc(closed: seq<Span>, span: Span, i: nat)
    ensures RevertedAt(closed + [span], i) <==>
            RevertedAt(closed, i) || (span.outcome.Revert? && span.start <= i < span.end)
  {
    var all := closed + [span];
    if RevertedAt(closed, i) {
      var c :| 0 <= c < |closed| && closed[c].outcome.Revert? && closed[c].start <= i < closed[c].end;
      assert all[c] == closed[c];
    }
    assert all[|closed|] == span;
  }

  lemma ExpectedEndAt(w: World, v: World, span: Span, i: nat)
    requires v.log == w.log && v.closed == w.closed + [span] && span.end == |w.log| && i < |w.log|
    ensures Expected(v)[i] ==
              if span.outcome.Revert? && span.start <= i then FlagItem(Expected(w)[i]) else Expected(w)[i]
  {
    RevertedSnoc(w.closed, span, i);
    FlagIdempotent(w.log[i]);
  }

  /** The end of a frame flags, on a revert, everything logged since the frame was entered. */
  lemma ExpectedEnd(w: World, v: World, span: Span)
    requires v.log == w.log && v.closed == w.closed + [span] && span.start <= span.end == |w.log|
    ensures Expected(v) == Expected(w)[..span.start] + Flag(span.outcome.Revert?, Expected(w)[span.start..])
  {
    var before, tail := Expected(w), Flag(span.outcome.Revert?, Expected(w)[span.start..]);
    forall i | 0 <= i < |before|
      ensures Expected(v)[i] == (before[..span.start] + tail)[i]
    {
      ExpectedEndAt(w, v, span, i);
      assert i >= span.start ==> before[span.start..][i - span.start] == before[i];
    }
  }

  lemma FlagUpdate(it: Item, post: Post)
    ensures FlagItem(UpdateItem(it, post)) == UpdateItem(FlagItem(it), post)
  {
  }

  lemma ExpectedUpdate(w: World, v: World, start: nat, post: Post)
    requires start < |w.log| && v.closed == w.closed && v.log == w.log[start := UpdateItem(w.log[start], post)]
    ensures Expected(v) == Expected(w)[start := UpdateItem(Expected(w)[start], post)]
  {
    FlagUpdate(w.log[start], post);
  }

  lemma SplitTop(w: World, stack: Stack)
    requires WellFormed(w) && Faithful(w, stack) && |w.frames| > w.preopened
    ensures var n, start := |stack| - 1, w.frames[|w.frames| - 1].start;
            && start < |w.log|
            && Expected(w)[..start] == StackItems(stack[..n])
            && Expected(w)[start..] == Items(stack[n])
  {
    FirstItem(stack[|stack| - 1]);
  }

  /** The items of the finished top vector, as the reference sees them. */
  lemma EndItems(w: World, stack: Stack, e: Event)
    requires WellFormed(w) && Faithful(w, stack) && Enabled(w, e) && e.End? && |w.frames| > w.preopened
    ensures var n := |stack| - 1;
            var top := Finished(stack[n], |w.frames| - 1, e.outcome.Revert?, e.post);
            && stack != [] && stack[n] != [] && top != []
            && top[0].depth == stack[n][0].depth && top[0].kind == stack[n][0].kind
            && Expected(WorldStep(w, e)) == StackItems(stack[..n]) + Items(top)
  {
    hide Items, StackItems, Finished;
    var n, f := |stack| - 1, w.frames[|w.frames| - 1];
    SplitTop(w, stack);
    var span := Span(f.start, |w.log|, e.outcome);
    var mid := w.(closed := w.closed + [span]);
    ExpectedEnd(w, mid, span);
    FinishedItems(stack[n], |w.frames| - 1, e.outcome.Revert?, e.post);
    var flagged := Flag(e.outcome.Revert?, Items(stack[n]));
    if e.post.Some? {
      ExpectedUpdate(mid, WorldStep(w, e), f.start, e.post.value);
      UpdateMiddle(StackItems(stack[..n]), flagged, UpdateItem(flagged[0], e.post.value));
    }
  }

  lemma UpdateMiddle<T>(x: seq<T>, y: seq<T>, t: T)
    requires |y| > 0
    ensures (x + y)[|x| := t] == x + y[0 := t]
  {
  }

  /** Merging a finished frame's vector restores the shape of the frames below it. */
  lemma MergeShape(frames: seq<Frame>, preopened: nat, rest: Stack, top: Records)
    requires Shape(frames, preopened, rest) && top != []
    requires |frames| == preopened ==> IsResidual(top, preopened)
    ensures Shape(frames, preopened, Merge(rest, top))
  {
    if rest != [] {
      ReplaceTop(frames, preopened, rest, rest[|rest| - 1] + top);
    }
  }

  lemma MergeFaithful(v: World, rest: Stack, top: Records)
    requires Shape(v.frames, v.preopened, rest) && top != []
    requires |v.frames| == v.preopened ==> IsResidual(top, v.preopened)
    requires Expected(v) == StackItems(rest) + Items(top)
    ensures Faithful(v, Merge(rest, top))
  {
    MergeItems(rest, top);
    MergeShape(v.frames, v.preopened, rest, top);
  }

  lemma EndRecordedStep(w: World, stack: Stack, e: Event)
    requires WellFormed(w) && Faithful(w, stack) && Enabled(w, e) && e.End? && |w.frames| > w.preopened
    ensures Faithful(WorldStep(w, e), StackStep(w, stack, e))
  {
    hide Items, StackItems, Finished;
    var n := |stack| - 1;
    EndItems(w, stack, e);
    MergeFaithful(WorldStep(w, e), stack[..n], Finished(stack[n], |w.frames| - 1, e.outcome.Revert?, e.post));
  }

  /** Execution percolates above the frame recording began in: the residual vector is kept, and
      flagged as a whole when that frame reverts. */
  lemma EndPreopenedStep(w: World, stack: Stack, e: Event)
    requires WellFormed(w) && Faithful(w, stack) && Enabled(w, e) && e.End? && |w.frames| == w.preopened
    ensures Faithful(WorldStep(w, e), StackStep(w, stack, e))
  {
    var v := WorldStep(w, e);
    ExpectedEnd(w, v, Span(0, |w.log|, e.outcome));
    if stack == [] {
      assert Expected(v) == [];
    } else {
      ResidualItems(stack, |w.frames| - 1, e.outcome.Revert?, e.post);
      MergeFaithful(v, [], Finished(stack[0], |w.frames| - 1, e.outcome.Revert?, e.post));
    }
  }

  lemma ResidualItems(stack: Stack, depth: nat, isRevert: bool, post: Option<Post>)
    requires |stack| == 1 && IsResidual(stack[0], depth + 1)
    ensures IsResidual(Finished(stack[0], depth, isRevert, post), depth)
    ensures Items(Finished(stack[0], depth, isRevert, post)) == Flag(isRevert, StackItems(stack))
  {
    hide Items, Finished;
    FinishedItems(stack[0], depth, isRevert, post);
    MergeItems([], stack[0]);
    assert stack == [stack[0]];
  }

  /** Every step keeps the invariant: the stack has its shape and says exactly what it should. */
  lemma InvStep(s: State, e: Event)
    requires Inv(s) && Enabled(s.world, e)
    ensures Inv(Step(s, e))
  {
    if s.stack.Some? {
      var w, stack := s.world, s.stack.value;
      WellFormedStep(w, e);
      match e
      case StartRecording =>
      case StopRecording =>
      case EnterCall(_, _, _, _, _, _) => EnterStep(w, stack, e);
      case EnterCreate(_, _) => EnterStep(w, stack, e);
      case End(_, _) =>
        if |w.frames| > w.preopened {
          EndRecordedStep(w, stack, e);
        } else {
          EndPreopenedStep(w, stack, e);
        }
      case Sload(_) => AccessStep(w, stack, e);
      case Sstore(_, _) => AccessStep(w, stack, e);
      case Touch(_, _, _, _, _, _) => TouchStep(w, stack, e);
      case Destruct(_, _, _, _, _, _) => DestructStep(w, stack, e);
    }
  }

  // ---------------------------------------------------------------------------------------------
  // Whole runs
  // ---------------------------------------------------------------------------------------------

  /** Every event of the run is possible when its turn comes. */
  predicate Legal(s: State, es: seq<Event>)
    decreases |es|, 0
  {
    es == [] || (Legal(s, es[..|es| - 1]) && Enabled(Run(s, es[..|es| - 1]).world, es[|es| - 1]))
  }

  function Run(s: State, es: seq<Event>): State
    requires Legal(s, es)
    decreases |es|, 1
  {
    if es == [] then s else Step(Run(s, es[..|es| - 1]), es[|es| - 1])
  }

  lemma RunSnoc(s: State, es: seq<Event>, e: Event)
    requires Legal(s, es) && Enabled(Run(s, es).world, e)
    ensures Legal(s, es + [e]) && Run(s, es + [e]) == Step(Run(s, es), e)
  {
    assert (es + [e])[..|es|] == es;
  }

  /** Anywhere inside a root call, with recording never switched on. */
  predicate Initial(s: State) {
    |s.world.frames| >= 1 && s.stack.None?
  }

  lemma {:induction false} RunInv(s: State, es: seq<Event>)
    requires Initial(s) && Legal(s, es)
    ensures Inv(Run(s, es))
  {
    if es != [] {
      RunInv(s, es[..|es| - 1]);
      InvStep(Run(s, es[..|es| - 1]), es[|es| - 1]);
    }
  }

  lemma {:induction false} LegalPrefix(s: State, es: seq<Event>, i: nat)
    requires Legal(s, es) && i <= |es|
    ensures Legal(s, es[..i])
  {
    if i < |es| {
      LegalPrefix(s, es[..|es| - 1], i);
      assert es[..|es| - 1][..i] == es[..i];
    } else {
      assert es[..i] == es;
    }
  }

  /** In every reachable state the recorder lists what was executed since recording began in frames
      entered since then, in execution order, and an item is flagged exactly when some frame that was
      open around it has ended in a revert. */
  lemma RecordedInOrderWithFlags(s: State, es: seq<Event>)
    requires Initial(s) && Legal(s, es) && Run(s, es).stack.Some?
    ensures var r := Run(s, es); var items := StackItems(r.stack.value);
            && |items| == |r.world.log|
            && forall i :: 0 <= i < |items| ==>
                 && (IsFlagged(items[i]) <==> RevertedAt(r.world.closed, i))
                 && items[i] == (if RevertedAt(r.world.closed, i) then FlagItem(r.world.log[i]) else r.world.log[i])
  {
    RunInv(s, es);
  }

  /** Vector `q` of a stack: a residual vector, or the vector of the open frame at depth `j + 1`. */
  predicate VectorShape(frames: seq<Frame>, preopened: nat, stack: Stack, q: nat)
    requires q < |stack|
  {
    var residuals := |stack| - (|frames| - preopened);
    if q < residuals then
      IsResidual(stack[q], preopened)
    else
      var j := q - residuals + preopened;
      0 <= j < |frames| && OpenedBy(stack[q], frames[j].kind, j)
  }

  lemma {:induction false} ShapeVector(frames: seq<Frame>, preopened: nat, stack: Stack, q: nat)
    requires Shape(frames, preopened, stack) && q < |stack|
    ensures |frames| - preopened <= |stack| <= |frames| - preopened + 1
    ensures VectorShape(frames, preopened, stack, q)
    decreases |frames|
  {
    if |frames| > preopened {
      var n, m := |frames| - 1, |stack| - 1;
      ShapeSize(frames, preopened, stack);
      if q < m {
        ShapeVector(frames[..n], preopened, stack[..m], q);
      }
    }
  }

  lemma {:induction false} ShapeSize(frames: seq<Frame>, preopened: nat, stack: Stack)
    requires Shape(frames, preopened, stack)
    ensures preopened <= |frames|
    ensures |frames| - preopened <= |stack| <= |frames| - preopened + 1
    decreases |frames|
  {
    if |frames| > preopened {
      ShapeSize(frames[..|frames| - 1], preopened, stack[..|stack| - 1]);
    }
  }

  /** In every reachable state no vector is empty, there is one vector per open frame entered while
      recording plus at most one below them, and each open frame's vector starts with that frame's
      own record, one depth below the frame. */
  lemma StackShapeAlways(s: State, es: seq<Event>)
    requires Initial(s) && Legal(s, es) && Run(s, es).stack.Some?
    ensures var r := Run(s, es);
            var open, stack := |r.world.frames| - r.world.preopened, r.stack.value;
            && 0 <= open <= |stack| <= open + 1
            && forall q :: 0 <= q < |stack| ==> VectorShape(r.world.frames, r.world.preopened, stack, q)
  {
    RunInv(s, es);
    var r := Run(s, es);
    ShapeSize(r.world.frames, r.world.preopened, r.stack.value);
    forall q | 0 <= q < |r.stack.value|
      ensures VectorShape(r.world.frames, r.world.preopened, r.stack.value, q)
    {
      ShapeVector(r.world.frames, r.world.preopened, r.stack.value, q);
    }
  }

  /** Hence a storage access is recorded exactly when its frame was entered while recording. */
  lemma OnlyNewFramesAreRecorded(s: State, es: seq<Event>, e: Event)
    requires Initial(s) && Legal(s, es) && Run(s, es).stack.Some? && (e.Sload? || e.Sstore?)
    ensures var r := Run(s, es);
            var next := StackStep(r.world, r.stack.value, e);
            if |r.world.frames| > r.world.preopened
            then StackItems(next) == StackItems(r.stack.value) + [Storage(AccessOf(e, r.world.storage))]
            else next == r.stack.value
  {
    RunInv(s, es);
    var r := Run(s, es);
    if |r.world.frames| > r.world.preopened {
      RecordedAccessStep(r.world, r.stack.value, e);
      ExpectedSnoc(r.world, WorldStep(r.world, e), Storage(AccessOf(e, r.world.storage)));
    } else {
      IgnoredAccessStep(r.world, r.stack.value, e);
    }
  }

  lemma TopShape(r: State)
    requires Inv(r) && r.stack.Some? && r.stack.value != []
    ensures var stack, n := r.stack.value, |r.world.frames| - 1;
            && stack[|stack| - 1] != []
            && (stack[|stack| - 1][0].depth == n ==>
                  n >= r.world.preopened && stack[|stack| - 1][0].kind == r.world.frames[n].kind)
  {
    hide Items, StackItems, Expected;
  }

  /** The debug assertions of `call_end` and `create_end` cannot fail: when the popped vector is at
      the current depth, its first record was opened by the kind of frame that is ending. */
  lemma EndHooksMeetTheirOwnRecord(s: State, es: seq<Event>)
    requires Initial(s) && Legal(s, es) && Run(s, es).stack.Some?
    ensures var r := Run(s, es);
            var stack, n := r.stack.value, |r.world.frames| - 1;
            stack != [] && stack[|stack| - 1] != [] && stack[|stack| - 1][0].depth == n ==>
              n >= r.world.preopened && stack[|stack| - 1][0].kind == r.world.frames[n].kind
  {
    hide *;
    RunInv(s, es);
    if Run(s, es).stack.value != [] {
      TopShape(Run(s, es));
    }
  }
}
