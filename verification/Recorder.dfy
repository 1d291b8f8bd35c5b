/** The recorder in the inspector's own form: an object whose hooks update the stack in place. */
module Recorder {
  import opened StateDiff
  import opened StateDiffRuns
  import opened StateDiffSummary
  import opened Wrappers

  /** All pending vectors, one after the other. */
  function Flatten(stack: Stack): Records {
    if stack == [] then [] else Flatten(stack[..|stack| - 1]) + stack[|stack| - 1]
  }

  /** Flattening neither loses nor reorders anything. */
  lemma {:induction false} FlattenItems(stack: Stack)
    ensures Items(Flatten(stack)) == StackItems(stack)
  {
    if stack != [] {
      FlattenItems(stack[..|stack| - 1]);
      ItemsConcat(Flatten(stack[..|stack| - 1]), stack[|stack| - 1]);
    }
  }

  function StorageOnly(items: seq<Item>): seq<StorageAccess> {
    if items == [] then []
    else
      var it := items[|items| - 1];
      StorageOnly(items[..|items| - 1]) + if it.Storage? then [it.access] else []
  }

  lemma {:induction false} StorageOnlyConcat(x: seq<Item>, y: seq<Item>)
    ensures StorageOnly(x + y) == StorageOnly(x) + StorageOnly(y)
  {
    if y == [] {
      assert x + y == x;
    } else {
      var n := |y| - 1;
      StorageOnlyConcat(x, y[..n]);
      assert (x + y)[..|x + y| - 1] == x + y[..n];
      Assoc(StorageOnly(x), StorageOnly(y[..n]), if y[n].Storage? then [y[n].access] else []);
    }
  }

  lemma {:induction false} StorageOnlyItems(s: seq<StorageAccess>)
    ensures StorageOnly(StorageItems(s)) == s
  {
    if s != [] {
      var n := |s| - 1;
      StorageOnlyItems(s[..n]);
      assert StorageItems(s)[..n] == StorageItems(s[..n]);
      assert s == s[..n] + [s[n]];
    }
  }

  lemma StorageOnlyRecordItems(r: AccountAccess)
    ensures StorageOnly(RecordItems(r)) == r.storageAccesses
  {
    StorageOnlyConcat(Header(r), StorageItems(r.storageAccesses));
    StorageOnlyItems(r.storageAccesses);
    assert StorageOnly(Header(r)) == [];
  }

  lemma StorageOnlyRecord(v: Records, r: AccountAccess)
    ensures StorageOnly(Items(v + [r])) == StorageOnly(Items(v)) + r.storageAccesses
  {
    ItemsSnoc(v, r);
    StorageOnlyConcat(Items(v), RecordItems(r));
    StorageOnlyRecordItems(r);
  }

  method MarkReverted(v: Records) returns (r: Records)
    ensures r == FlagRecords(v)
  {
    r := [];
    for i := 0 to |v|
      invariant r == FlagRecords(v)[..i]
    {
      var accesses := [];
      var s := v[i].storageAccesses;
      for j := 0 to |s|
        invariant accesses == FlagAccesses(s)[..j]
      {
        accesses := accesses + [s[j].(reverted := true)];
      }
      assert accesses == FlagAccesses(s);
      r := r + [v[i].(reverted := true, storageAccesses := accesses)];
    }
  }

  lemma NoStorage(v: Records)
    ensures StorageOnly(Items(v[..0])) == []
  {
  }

  lemma MoreStorage(v: Records, i: nat)
    requires i < |v|
    ensures StorageOnly(Items(v[..i + 1])) == StorageOnly(Items(v[..i])) + v[i].storageAccesses
  {
    hide Items, StorageOnly;
    StorageOnlyRecord(v[..i], v[i]);
    assert v[..i] + [v[i]] == v[..i + 1];
  }

  lemma AllStorage(stack: Stack)
    ensures var flat := Flatten(stack); StorageOnly(Items(flat[..|flat|])) == StorageOnly(StackItems(stack))
  {
    hide Items, StorageOnly, StackItems, Flatten;
    FlattenItems(stack);
    assert Flatten(stack)[..|Flatten(stack)|] == Flatten(stack);
  }

  class StateDiffRecorder {
    var recorded: Option<Stack>

    constructor ()
      ensures recorded == None
    {
      recorded := None;
    }

    method StartStateDiffRecording()
      modifies this
      ensures recorded == Some([])
    {
      recorded := Some([]);
    }

    /** Returns what was recorded; recording goes on afterwards, from an empty stack. */
    method StopAndReturnStateDiff() returns (records: Records)
      modifies this
      ensures recorded == Some([])
      ensures records == match old(recorded) case None => [] case Some(stack) => Flatten(stack)
    {
      records := [];
      match recorded {
        case None =>
        case Some(stack) =>
          records := FlattenVectors(stack);
      }
      recorded := Some([]);
    }

    /** All storage accesses, in the order in which they were executed. */
    method GetStorageAccesses() returns (accesses: seq<StorageAccess>)
      ensures recorded.Some? ==> accesses == StorageOnly(StackItems(recorded.value))
      ensures recorded.None? ==> accesses == []
    {
      accesses := [];
      match recorded {
        case None =>
        case Some(stack) =>
          var flat := FlattenVectors(stack);
          hide Items, StorageOnly, StackItems, Flatten;
          NoStorage(flat);
          for i := 0 to |flat|
            invariant accesses == StorageOnly(Items(flat[..i]))
          {
            MoreStorage(flat, i);
            accesses := accesses + flat[i].storageAccesses;
          }
          AllStorage(stack);
      }
    }

    static method FlattenVectors(stack: Stack) returns (flat: Records)
      ensures flat == Flatten(stack)
    {
      flat := [];
      for i := 0 to |stack|
        invariant flat == Flatten(stack[..i])
      {
        assert stack[..i + 1][..i] == stack[..i];
        flat := flat + stack[i];
      }
      assert stack[..|stack|] == stack;
    }

    method GetRecordedStateDiffs() returns (d: Summary)
      ensures Sums(d, StackChanges(if recorded.Some? then recorded.value else []))
    {
      d := StateDiffSummary.GetRecordedStateDiffs(if recorded.Some? then recorded.value else []);
    }

    method OnCall(kind: AccessKind, accessor: Address, account: Address, initialized: bool,
                  balance: Word, nonce: nat, depth: nat)
      modifies this
      ensures recorded == match old(recorded)
                          case None => None
                          case Some(s) =>
                            var r := CallRecord(kind, accessor, account, initialized, balance, nonce, depth);
                            Some(s + [[r]])
    {
      if recorded.Some? {
        var r := AccountAccess(accessor, account, kind, initialized, balance, 0, nonce, 0, false, [], depth);
        recorded := Some(recorded.value + [[r]]);
      }
    }

    method OnCreate(accessor: Address, account: Address, depth: nat)
      modifies this
      ensures recorded == match old(recorded)
                          case None => None
                          case Some(s) => Some(s + [[CreateRecord(accessor, account, depth)]])
    {
      if recorded.Some? {
        var r := AccountAccess(accessor, account, Create, true, 0, 0, 0, 1, false, [], depth);
        recorded := Some(recorded.value + [[r]]);
      }
    }

    /** `call_end` and `create_end`, which treat the stack alike. */
    method OnEnd(depth: nat, isRevert: bool, post: Option<Post>)
      modifies this
      ensures recorded == match old(recorded)
                          case None => None
                          case Some(s) => Some(EndFrame(s, depth, isRevert, post))
    {
      if recorded.Some? && depth > 0 && recorded.value != [] {
        var stack := recorded.value;
        var last := stack[|stack| - 1];
        stack := stack[..|stack| - 1];
        if isRevert {
          last := MarkReverted(last);
        }
        if last != [] {
          if last[0].depth == depth && post.Some? {
            last := [last[0].(newBalance := post.value.balance, newNonce := post.value.nonce)] + last[1..];
          }
          if stack != [] {
            stack := stack[..|stack| - 1] + [stack[|stack| - 1] + last];
          } else {
            stack := [last];
          }
        }
        recorded := Some(stack);
      }
    }

    /** SLOAD and SSTORE: the access goes to the topmost vector, if that belongs to this context. */
    method OnStorageAccess(access: StorageAccess, depth: nat)
      modifies this
      ensures recorded == match old(recorded)
                          case None => None
                          case Some(s) => Some(OfferAccess(s, access, depth))
    {
      if recorded.Some? && recorded.value != [] {
        var n := |recorded.value| - 1;
        var last := recorded.value[n];
        if last != [] && last[0].depth < depth {
          var m := |last| - 1;
          if m == 0 {
            last := [last[0].(storageAccesses := last[0].storageAccesses + [access])];
          } else if last[m].kind.Resume? {
            last := last[..m] + [last[m].(storageAccesses := last[m].storageAccesses + [access])];
          } else {
            var entry := last[0];
            last := last + [AccountAccess(entry.accessor, entry.account, Resume, entry.initialized,
                                          0, 0, 0, 0, entry.reverted, [access], entry.depth)];
          }
        }
        recorded := Some(recorded.value[..n] + [last]);
      }
    }

    method OnTouch(r: AccountAccess)
      modifies this
      ensures recorded == match old(recorded) case None => None case Some(s) => Some(PushTouch(s, r))
    {
      if recorded.Some? {
        var n := |recorded.value| - 1;
        recorded := Some(if n < 0 then [[r]] else recorded.value[..n] + [recorded.value[n] + [r]]);
      }
    }

    method OnSelfDestruct(r: AccountAccess)
      modifies this
      ensures recorded == match old(recorded) case None => None case Some(s) => Some(PushSelfDestruct(s, r))
    {
      if recorded.Some? && recorded.value != [] {
        var n := |recorded.value| - 1;
        recorded := Some(recorded.value[..n] + [recorded.value[n] + [r]]);
      }
    }

    /** One event of a run, dispatched to its hook with what the hook would read from the journal. */
    method OnEvent(w: World, e: Event)
      requires Enabled(w, e)
      modifies this
      ensures recorded == Step(State(w, old(recorded)), e).stack
    {
      var depth := |w.frames|;
      match e
      case StartRecording => StartStateDiffRecording();
      case StopRecording => var _ := StopAndReturnStateDiff();
      case EnterCall(kind, accessor, account, initialized, balance, nonce) =>
        OnCall(kind, accessor, account, initialized, balance, nonce, depth);
      case EnterCreate(accessor, account) => OnCreate(accessor, account, depth);
      case End(outcome, post) => OnEnd(depth - 1, outcome.Revert?, post);
      case Sload(_) => OnStorageAccess(AccessOf(e, w.storage), depth);
      case Sstore(_, _) => OnStorageAccess(AccessOf(e, w.storage), depth);
      case Touch(_, _, _, _, _, _) => OnTouch(TouchRecord(e, depth));
      case Destruct(_, _, _, _, _, _) => OnSelfDestruct(DestructRecord(e, depth));
    }
  }

  /** Driving the object through a run leaves it with exactly the run's stack, so every statement
      about runs is a statement about the object. */
  method Drive(rec: StateDiffRecorder, s: State, es: seq<Event>)
    requires Legal(s, es) && rec.recorded == s.stack
    modifies rec
    ensures rec.recorded == Run(s, es).stack
  {
    var r := s;
    LegalPrefix(s, es, 0);
    for i := 0 to |es|
      invariant Legal(s, es[..i]) && r == Run(s, es[..i]) && rec.recorded == r.stack
    {
      LegalPrefix(s, es, i + 1);
      assert es[..i + 1][..i] == es[..i];
      rec.OnEvent(r.world, es[i]);
      r := Step(r, es[i]);
    }
    assert es[..|es|] == es;
  }
}
