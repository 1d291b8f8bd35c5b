/** The aggregated state diff: `get_recorded_state_diffs` folds the recorded accesses into one net
    change per account balance, account nonce and storage slot. */
module StateDiffSummary {
  import opened StateDiff
  import opened StateDiffRuns
  import opened StateDiffReplay
  import opened Wrappers

  datatype Diff = Diff(previous: Word, current: Word)

  datatype AccountDiffs = AccountDiffs(balance: Option<Diff>, nonce: Option<Diff>, slots: map<Word, Diff>)

  type Summary = map<Address, AccountDiffs>

  /** One recorded change of something named by a key. */
  datatype Change<K> = Change(key: K, previous: Word, current: Word)

  /** The net effect on `k` of a list of changes. */
  function Net<K(==)>(cs: seq<Change<K>>, k: K): Option<Diff> {
    if cs == [] then None
    else
      var before, c := Net(cs[..|cs| - 1], k), cs[|cs| - 1];
      if c.key != k then before else Some(Overlay(before, c.previous, c.current))
  }

  /** The initial value of an existing entry is not overwritten. */
  function Overlay(before: Option<Diff>, previous: Word, current: Word): Diff {
    match before
    case None => Diff(previous, current)
    case Some(d) => Diff(d.previous, current)
  }

  ghost predicate IsFirst<K>(cs: seq<Change<K>>, k: K, i: int) {
    0 <= i < |cs| && cs[i].key == k && forall j :: 0 <= j < i ==> cs[j].key != k
  }

  ghost predicate IsLast<K>(cs: seq<Change<K>>, k: K, i: int) {
    0 <= i < |cs| && cs[i].key == k && forall j :: i < j < |cs| ==> cs[j].key != k
  }

  lemma {:induction false} NetNone<K>(cs: seq<Change<K>>, k: K)
    ensures Net(cs, k).None? <==> forall i :: 0 <= i < |cs| ==> cs[i].key != k
  {
    if cs != [] {
      var n := |cs| - 1;
      NetNone(cs[..n], k);
      assert forall i :: 0 <= i < n ==> cs[..n][i] == cs[i];
    }
  }

  lemma {:induction false} NetFirst<K>(cs: seq<Change<K>>, k: K) returns (i: int)
    requires Net(cs, k).Some?
    ensures IsFirst(cs, k, i) && Net(cs, k).value.previous == cs[i].previous
  {
    var n := |cs| - 1;
    assert forall j :: 0 <= j < n ==> cs[..n][j] == cs[j];
    if Net(cs[..n], k).Some? {
      i := NetFirst(cs[..n], k);
    } else {
      NetNone(cs[..n], k);
      i := n;
    }
  }

  lemma {:induction false} NetLast<K>(cs: seq<Change<K>>, k: K) returns (i: int)
    requires Net(cs, k).Some?
    ensures IsLast(cs, k, i) && Net(cs, k).value.current == cs[i].current
  {
    var n := |cs| - 1;
    if cs[n].key == k {
      i := n;
    } else {
      i := NetLast(cs[..n], k);
      assert forall j :: 0 <= j < n ==> cs[..n][j] == cs[j];
    }
  }

  /** A key has a net change exactly when it occurs; the net change goes from the first occurrence's
      previous value to the last occurrence's new value. */
  lemma {:induction false} NetMeaning<K>(cs: seq<Change<K>>, k: K)
    ensures Net(cs, k).None? <==> forall i :: 0 <= i < |cs| ==> cs[i].key != k
    ensures Net(cs, k).Some? ==>
              && (exists i :: IsFirst(cs, k, i) && Net(cs, k).value.previous == cs[i].previous)
              && (exists i :: IsLast(cs, k, i) && Net(cs, k).value.current == cs[i].current)
  {
    NetNone(cs, k);
    if Net(cs, k).Some? {
      var i := NetFirst(cs, k);
      var j := NetLast(cs, k);
      hide Net, IsFirst, IsLast;
    }
  }

  lemma NetSnoc<K>(cs: seq<Change<K>>, c: Change<K>, k: K)
    ensures Net(cs + [c], k) == if c.key != k then Net(cs, k) else Some(Overlay(Net(cs, k), c.previous, c.current))
  {
    assert (cs + [c])[..|cs|] == cs;
  }

  // ---------------------------------------------------------------------------------------------
  // The changes a list of records holds
  // ---------------------------------------------------------------------------------------------

  function SlotChange(a: StorageAccess): seq<Change<Key>> {
    if a.isWrite && !a.reverted then [Change(KeyOf(a), a.previousValue, a.newValue)] else []
  }

  function SlotChanges(s: seq<StorageAccess>): seq<Change<Key>> {
    if s == [] then [] else SlotChanges(s[..|s| - 1]) + SlotChange(s[|s| - 1])
  }

  /** Balance and nonce changes count whether or not the access was reverted. */
  function BalanceChange(r: AccountAccess): seq<Change<Address>> {
    if r.oldBalance != r.newBalance then [Change(r.account, r.oldBalance, r.newBalance)] else []
  }

  function NonceChange(r: AccountAccess): seq<Change<Address>> {
    if r.oldNonce != r.newNonce then [Change(r.account, r.oldNonce, r.newNonce)] else []
  }

  datatype Changes = Changes(slots: seq<Change<Key>>, balances: seq<Change<Address>>, nonces: seq<Change<Address>>)

  function AddRecord(c: Changes, r: AccountAccess): Changes {
    Changes(c.slots + SlotChanges(r.storageAccesses), c.balances + BalanceChange(r), c.nonces + NonceChange(r))
  }

  function RecordChanges(c: Changes, v: Records): Changes {
    if v == [] then c else AddRecord(RecordChanges(c, v[..|v| - 1]), v[|v| - 1])
  }

  function StackChanges(stack: Stack): Changes {
    if stack == [] then Changes([], [], []) else RecordChanges(StackChanges(stack[..|stack| - 1]), stack[|stack| - 1])
  }

  // ---------------------------------------------------------------------------------------------
  // The aggregation
  // ---------------------------------------------------------------------------------------------

  function Entry(d: Summary, a: Address): AccountDiffs {
    if a in d then d[a] else AccountDiffs(None, None, map[])
  }

  function SlotAt(d: Summary, k: Key): Option<Diff> {
    var slots := Entry(d, k.account).slots;
    if k.slot in slots then Some(slots[k.slot]) else None
  }

  /** The summary holds exactly the net changes, and no account without one. */
  ghost predicate Sums(d: Summary, c: Changes) {
    && (forall k :: SlotAt(d, k) == Net(c.slots, k))
    && (forall a :: Entry(d, a).balance == Net(c.balances, a))
    && (forall a :: Entry(d, a).nonce == Net(c.nonces, a))
    && (forall a :: a in d ==> d[a].balance.Some? || d[a].nonce.Some? || d[a].slots != map[])
  }

  method RecordSlot(d: Summary, a: StorageAccess, ghost c: Changes) returns (r: Summary)
    requires Sums(d, c)
    ensures Sums(r, c.(slots := c.slots + SlotChange(a)))
  {
    r := d;
    if a.isWrite && !a.reverted {
      var entry := Entry(d, a.account);
      var before := if a.slot in entry.slots then Some(entry.slots[a.slot]) else None;
      r := d[a.account := entry.(slots := entry.slots[a.slot := Overlay(before, a.previousValue, a.newValue)])];
      forall k { NetSnoc(c.slots, Change(KeyOf(a), a.previousValue, a.newValue), k); }
    } else {
      assert c.slots + SlotChange(a) == c.slots;
    }
  }

  method RecordBalance(d: Summary, rec: AccountAccess, ghost c: Changes) returns (r: Summary)
    requires Sums(d, c)
    ensures Sums(r, c.(balances := c.balances + BalanceChange(rec)))
  {
    r := d;
    if rec.oldBalance != rec.newBalance {
      var entry := Entry(d, rec.account);
      r := d[rec.account := entry.(balance := Some(Overlay(entry.balance, rec.oldBalance, rec.newBalance)))];
      forall a { NetSnoc(c.balances, Change(rec.account, rec.oldBalance, rec.newBalance), a); }
      assert forall k :: SlotAt(r, k) == SlotAt(d, k);
    } else {
      assert c.balances + BalanceChange(rec) == c.balances;
    }
  }

  method RecordNonce(d: Summary, rec: AccountAccess, ghost c: Changes) returns (r: Summary)
    requires Sums(d, c)
    ensures Sums(r, c.(nonces := c.nonces + NonceChange(rec)))
  {
    r := d;
    if rec.oldNonce != rec.newNonce {
      var entry := Entry(d, rec.account);
      r := d[rec.account := entry.(nonce := Some(Overlay(entry.nonce, rec.oldNonce, rec.newNonce)))];
      forall a { NetSnoc(c.nonces, Change(rec.account, rec.oldNonce, rec.newNonce), a); }
      assert forall k :: SlotAt(r, k) == SlotAt(d, k);
    } else {
      assert c.nonces + NonceChange(rec) == c.nonces;
    }
  }

  method RecordAccess(d: Summary, rec: AccountAccess, ghost c: Changes) returns (r: Summary)
    requires Sums(d, c)
    ensures Sums(r, AddRecord(c, rec))
  {
    r := RecordBalance(d, rec, c);
    ghost var cb := c.(balances := c.balances + BalanceChange(rec));
    r := RecordNonce(r, rec, cb);
    ghost var cn := cb.(nonces := cb.nonces + NonceChange(rec));
    var s := rec.storageAccesses;
    assert cn.slots + SlotChanges(s[..0]) == cn.slots;
    for i := 0 to |s|
      invariant Sums(r, cn.(slots := cn.slots + SlotChanges(s[..i])))
    {
      r := RecordSlot(r, s[i], cn.(slots := cn.slots + SlotChanges(s[..i])));
      assert s[..i + 1][..i] == s[..i];
      assert cn.slots + SlotChanges(s[..i + 1]) == cn.slots + SlotChanges(s[..i]) + SlotChange(s[i]);
    }
    assert s[..|s|] == s;
  }

  /** Records without accesses or changes are filtered out first. */
  predicate IsRelevant(r: AccountAccess) {
    r.storageAccesses != [] || r.oldBalance != r.newBalance || r.oldNonce != r.newNonce
  }

  lemma IrrelevantAddsNothing(c: Changes, r: AccountAccess)
    requires !IsRelevant(r)
    ensures AddRecord(c, r) == c
  {
  }

  method RecordVector(d: Summary, v: Records, ghost c: Changes) returns (r: Summary)
    requires Sums(d, c)
    ensures Sums(r, RecordChanges(c, v))
  {
    r := d;
    for i := 0 to |v|
      invariant Sums(r, RecordChanges(c, v[..i]))
    {
      assert v[..i + 1][..i] == v[..i];
      if IsRelevant(v[i]) {
        r := RecordAccess(r, v[i], RecordChanges(c, v[..i]));
      } else {
        IrrelevantAddsNothing(RecordChanges(c, v[..i]), v[i]);
      }
    }
    assert v[..|v|] == v;
  }

  method GetRecordedStateDiffs(stack: Stack) returns (d: Summary)
    ensures Sums(d, StackChanges(stack))
  {
    d := map[];
    for i := 0 to |stack|
      invariant Sums(d, StackChanges(stack[..i]))
    {
      assert stack[..i + 1][..i] == stack[..i];
      d := RecordVector(d, stack[i], StackChanges(stack[..i]));
    }
    assert stack[..|stack|] == stack;
  }

  // ---------------------------------------------------------------------------------------------
  // What the slots of a summary mean for a run
  // ---------------------------------------------------------------------------------------------

  function ItemChange(it: Item): seq<Change<Key>> {
    match it
    case Account(_) => []
    case Storage(a) => SlotChange(a)
  }

  function ItemChanges(items: seq<Item>): seq<Change<Key>> {
    if items == [] then [] else ItemChanges(items[..|items| - 1]) + ItemChange(items[|items| - 1])
  }

  lemma {:induction false} ItemChangesConcat(x: seq<Item>, y: seq<Item>)
    ensures ItemChanges(x + y) == ItemChanges(x) + ItemChanges(y)
  {
    if y == [] {
      assert x + y == x;
    } else {
      var n := |y| - 1;
      ItemChangesConcat(x, y[..n]);
      assert (x + y)[..|x + y| - 1] == x + y[..n];
      Assoc(ItemChanges(x), ItemChanges(y[..n]), ItemChange(y[n]));
    }
  }

  lemma {:induction false} StorageItemChanges(s: seq<StorageAccess>)
    ensures ItemChanges(StorageItems(s)) == SlotChanges(s)
  {
    if s != [] {
      var n := |s| - 1;
      StorageItemChanges(s[..n]);
      assert StorageItems(s)[..n] == StorageItems(s[..n]);
    }
  }

  lemma RecordItemChanges(r: AccountAccess)
    ensures ItemChanges(RecordItems(r)) == SlotChanges(r.storageAccesses)
  {
    ItemChangesConcat(Header(r), StorageItems(r.storageAccesses));
    StorageItemChanges(r.storageAccesses);
    assert ItemChanges(Header(r)) == [];
  }

  lemma {:induction false} VectorItemChanges(c: Changes, v: Records)
    ensures RecordChanges(c, v).slots == c.slots + ItemChanges(Items(v))
  {
    if v != [] {
      var n := |v| - 1;
      VectorItemChanges(c, v[..n]);
      ItemChangesConcat(Items(v[..n]), RecordItems(v[n]));
      RecordItemChanges(v[n]);
      Assoc(c.slots, ItemChanges(Items(v[..n])), SlotChanges(v[n].storageAccesses));
    }
  }

  lemma {:induction false} StackItemChanges(stack: Stack)
    ensures StackChanges(stack).slots == ItemChanges(StackItems(stack))
  {
    if stack != [] {
      var n := |stack| - 1;
      StackItemChanges(stack[..n]);
      VectorItemChanges(StackChanges(stack[..n]), stack[n]);
      ItemChangesConcat(StackItems(stack[..n]), Items(stack[n]));
    }
  }

  predicate IsWriteTo(it: Item, k: Key) {
    Survives(it) && KeyOf(it.access) == k
  }

  lemma NetItem(items: seq<Item>, it: Item, k: Key)
    ensures var before := Net(ItemChanges(items), k);
            Net(ItemChanges(items + [it]), k) ==
              if IsWriteTo(it, k) then Some(Overlay(before, it.access.previousValue, it.access.newValue)) else before
  {
    assert (items + [it])[..|items|] == items;
    if Survives(it) {
      NetSnoc(ItemChanges(items), Change(KeyOf(it.access), it.access.previousValue, it.access.newValue), k);
    } else {
      assert ItemChanges(items + [it]) == ItemChanges(items);
    }
  }

  /** The net change, or the base value without one, is what the replay gives. */
  predicate EndsAtReplay(base: Store, items: seq<Item>, k: Key) {
    var net := Net(ItemChanges(items), k);
    Lookup(Replay(base, items), k) == if net.Some? then net.value.current else Lookup(base, k)
  }

  lemma ReplayMore(base: Store, before: seq<Item>, it: Item, k: Key)
    requires EndsAtReplay(base, before, k)
    ensures EndsAtReplay(base, before + [it], k)
  {
    hide Net, ItemChanges, Replay;
    NetItem(before, it, k);
    ReplaySnoc(base, before, it);
  }

  lemma ReplayNothing(base: Store, k: Key)
    ensures EndsAtReplay(base, [], k)
  {
  }

  lemma {:induction false} EndsAtReplayAlways(base: Store, items: seq<Item>, k: Key)
    ensures EndsAtReplay(base, items, k)
  {
    hide *;
    if items == [] {
      ReplayNothing(base, k);
    } else {
      EndsAtReplayAlways(base, items[..|items| - 1], k);
      ReplayMore(base, items[..|items| - 1], items[|items| - 1], k);
      SplitLast(items);
    }
  }

  /** The net change of a slot ends at the replayed value. */
  lemma {:induction false} NetIsReplay(base: Store, items: seq<Item>, k: Key)
    ensures var net := Net(ItemChanges(items), k);
            Lookup(Replay(base, items), k) == if net.Some? then net.value.current else Lookup(base, k)
  {
    hide Net, ItemChanges, Replay;
    EndsAtReplayAlways(base, items, k);
  }

  /** There is a net change exactly when some write to the slot survived. */
  lemma {:induction false} NetIffSurvived(items: seq<Item>, k: Key)
    ensures Net(ItemChanges(items), k).Some? <==> exists i :: 0 <= i < |items| && IsWriteTo(items[i], k)
  {
    if items == [] {
      NetOfNothing(k);
    } else {
      hide Net, ItemChanges, IsWriteTo;
      var n := |items| - 1;
      NetIffSurvived(items[..n], k);
      NetItem(items[..n], items[n], k);
      SplitLast(items);
      if exists i :: 0 <= i < |items| && IsWriteTo(items[i], k) {
        var i :| 0 <= i < |items| && IsWriteTo(items[i], k);
        assert i < n ==> items[..n][i] == items[i];
      } else {
        assert forall i :: 0 <= i < n ==> items[..n][i] == items[i];
      }
    }
  }

  /** A surviving write to `k` recorded as its previous value what a replay up to it gives. */
  predicate PreviousAt(base: Store, items: seq<Item>, k: Key, i: nat)
    requires i < |items|
  {
    IsWriteTo(items[i], k) ==> items[i].access.previousValue == Lookup(Replay(base, items[..i]), k)
  }

  ghost predicate PreviousCoupled(base: Store, items: seq<Item>, k: Key) {
    forall i :: 0 <= i < |items| ==> PreviousAt(base, items, k, i)
  }

  lemma CoupledPrefix(base: Store, items: seq<Item>, k: Key)
    requires PreviousCoupled(base, items, k) && items != []
    ensures var n := |items| - 1;
            && PreviousCoupled(base, items[..n], k)
            && (IsWriteTo(items[n], k) ==> items[n].access.previousValue == Lookup(Replay(base, items[..n]), k))
  {
    hide Replay, IsWriteTo;
    var n := |items| - 1;
    forall i | 0 <= i < n ensures PreviousAt(base, items[..n], k, i) {
      assert PreviousAt(base, items, k, i);
      assert items[..n][..i] == items[..i];
    }
    assert PreviousAt(base, items, k, n);
  }

  lemma PreviousMore(base: Store, before: seq<Item>, it: Item, k: Key)
    requires var net := Net(ItemChanges(before), k); net.Some? ==> net.value.previous == Lookup(base, k)
    requires IsWriteTo(it, k) ==> it.access.previousValue == Lookup(Replay(base, before), k)
    ensures var net := Net(ItemChanges(before + [it]), k); net.Some? ==> net.value.previous == Lookup(base, k)
  {
    hide Net, ItemChanges, Replay, Lookup;
    NetIsReplay(base, before, k);
    NetItem(before, it, k);
  }

  lemma NetOfNothing(k: Key)
    ensures Net(ItemChanges([]), k).None?
  {
  }

  lemma {:induction false} NetPrevious(base: Store, items: seq<Item>, k: Key)
    requires PreviousCoupled(base, items, k)
    ensures var net := Net(ItemChanges(items), k);
            net.Some? ==> net.value.previous == Lookup(base, k)
  {
    hide *;
    if items == [] {
      NetOfNothing(k);
    } else {
      CoupledPrefix(base, items, k);
      NetPrevious(base, items[..|items| - 1], k);
      PreviousMore(base, items[..|items| - 1], items[|items| - 1], k);
      SplitLast(items);
    }
  }

  lemma PreviousStep(w: World, e: Event, k: Key)
    requires WellFormed(w) && Enabled(w, e) && Coupled(w, k) && PreviousCoupled(w.base, Expected(w), k)
    ensures PreviousCoupled(WorldStep(w, e).base, Expected(WorldStep(w, e)), k)
  {
    var v := WorldStep(w, e);
    forall i | 0 <= i < |v.log|
      ensures PreviousAt(v.base, Expected(v), k, i)
    {
      if e.End? {
        PreviousEnd(w, e, k, i);
      } else if v.log == w.log {
        ExpectedSame(w, v);
        assert PreviousAt(w.base, Expected(w), k, i);
      } else {
        var it := v.log[|w.log|];
        ExpectedSnoc(w, v, it);
        assert Expected(v)[..i] == Expected(w)[..i];
        assert Expected(w)[..|w.log|] == Expected(w);
        if i < |w.log| {
          assert PreviousAt(w.base, Expected(w), k, i);
        }
      }
    }
  }

  lemma PreviousSpan(w: World, v: World, span: Span, k: Key, i: nat)
    requires v.log == w.log && v.closed == w.closed + [span] && span.start <= span.end == |w.log|
    requires i < |w.log| && PreviousAt(w.base, Expected(w), k, i)
    ensures PreviousAt(w.base, Expected(v), k, i)
  {
    hide Replay, RevertedAt;
    ExpectedEnd(w, v, span);
    if i < span.start || !span.outcome.Revert? {
      assert Expected(v)[..i] == Expected(w)[..i];
    }
  }

  lemma PreviousUpdate(w: World, v: World, start: nat, post: Post, k: Key, i: nat)
    requires start < |w.log| && v.closed == w.closed && v.log == w.log[start := UpdateItem(w.log[start], post)]
    requires i < |w.log| && PreviousAt(w.base, Expected(w), k, i)
    ensures PreviousAt(w.base, Expected(v), k, i)
  {
    hide Replay, RevertedAt;
    ExpectedUpdate(w, v, start, post);
    if i > start {
      ReplayUpdated(w.base, Expected(w)[..i], start, post);
      assert Expected(v)[..i] == Expected(w)[..i][start := UpdateItem(Expected(w)[start], post)];
    } else {
      assert Expected(v)[..i] == Expected(w)[..i];
    }
  }

  lemma PreviousEnd(w: World, e: Event, k: Key, i: nat)
    requires WellFormed(w) && Enabled(w, e) && e.End? && PreviousCoupled(w.base, Expected(w), k)
    requires i < |w.log|
    ensures |Expected(WorldStep(w, e))| == |w.log|
    ensures PreviousAt(w.base, Expected(WorldStep(w, e)), k, i)
  {
    hide Replay, RevertedAt, PreviousAt;
    var f, v := w.frames[|w.frames| - 1], WorldStep(w, e);
    var span := Span(f.start, |w.log|, e.outcome);
    var mid := w.(closed := w.closed + [span]);
    PreviousSpan(w, mid, span, k, i);
    if v.log != w.log {
      PreviousUpdate(mid, v, f.start, e.post.value, k, i);
    } else {
      ExpectedSame(mid, v);
    }
  }

  lemma {:induction false} PreviousAlways(s: State, es: seq<Event>, k: Key)
    requires Initial(s) && Legal(s, es) && AlwaysAgrees(s, es, k)
    ensures var r := Run(s, es); r.stack.Some? ==> PreviousCoupled(r.world.base, Expected(r.world), k)
  {
    if es != [] {
      var r, e := Run(s, es[..|es| - 1]), es[|es| - 1];
      PreviousAlways(s, es[..|es| - 1], k);
      RunInv(s, es[..|es| - 1]);
      if r.stack.Some? {
        PreviousStep(r.world, e, k);
      }
    }
  }

  /** For every run: the summary has an entry for a slot exactly when some recorded write to it lies
      in no frame that has reverted, and the entry's current value is the replayed one. */
  lemma EntryIffWriteSurvived(s: State, es: seq<Event>, d: Summary, k: Key)
    requires Initial(s) && Legal(s, es) && Run(s, es).stack.Some? && Sums(d, StackChanges(Run(s, es).stack.value))
    ensures var w := Run(s, es).world;
            && (SlotAt(d, k).Some? <==>
                  exists i :: 0 <= i < |w.log| && IsWriteTo(w.log[i], k) && !RevertedAt(w.closed, i))
            && (SlotAt(d, k).Some? ==> SlotAt(d, k).value.current == Replayed(w, k))
  {
    RunInv(s, es);
    hide Run, Legal, Net, Replay, ItemChanges, StackItems, StackChanges;
    hide WellFormed, Shape, SlotAt, IsWriteTo, RevertedAt;
    var r := Run(s, es);
    StackItemChanges(r.stack.value);
    NetIsReplay(r.world.base, Expected(r.world), k);
    NetIffSurvived(Expected(r.world), k);
    SurvivedIff(r.world, k);
  }

  lemma ExpectedWrite(w: World, k: Key, i: nat)
    requires i < |w.log| && !IsFlagged(w.log[i])
    ensures |Expected(w)| == |w.log|
    ensures IsWriteTo(Expected(w)[i], k) <==> IsWriteTo(w.log[i], k) && !RevertedAt(w.closed, i)
  {
    hide RevertedAt;
  }

  /** The writes that survive are those that were logged in no reverted frame. */
  lemma SurvivedIff(w: World, k: Key)
    requires WellFormed(w)
    ensures (exists i :: 0 <= i < |Expected(w)| && IsWriteTo(Expected(w)[i], k)) <==>
            exists i :: 0 <= i < |w.log| && IsWriteTo(w.log[i], k) && !RevertedAt(w.closed, i)
  {
    ExpectedLength(w);
    hide Expected, IsWriteTo, RevertedAt;
    forall i | 0 <= i < |w.log|
      ensures IsWriteTo(Expected(w)[i], k) <==> IsWriteTo(w.log[i], k) && !RevertedAt(w.closed, i)
    {
      ExpectedWrite(w, k, i);
    }
  }

  /** The net change of slot `k` goes from its value when recording began to its present value; where
      there is none, the slot has not changed. */
  predicate NetChangeIsRight(s: State, k: Key) {
    s.stack.Some? ==>
      var net := Net(StackChanges(s.stack.value).slots, k);
      var base, present := Lookup(s.world.base, k), Lookup(s.world.storage, k);
      if net.Some? then net.value == Diff(base, present) else base == present
  }

  predicate AlwaysRight(s: State, es: seq<Event>, k: Key)
    requires Legal(s, es)
  {
    (es != [] ==> AlwaysRight(s, es[..|es| - 1], k)) && NetChangeIsRight(Run(s, es), k)
  }

  /** A right net change ends at the replayed value, which is then the present one. */
  lemma RightAgrees(s: State, k: Key)
    requires NetChangeIsRight(s, k)
    ensures Agrees(s, k)
  {
    if s.stack.Some? {
      hide Net, Replay, StackChanges, StackItems, ItemChanges;
      StackItemChanges(s.stack.value);
      NetIsReplay(s.world.base, StackItems(s.stack.value), k);
    }
  }

  lemma AgreesIsRight(s: State, k: Key)
    requires Inv(s) && Agrees(s, k) && (s.stack.Some? ==> PreviousCoupled(s.world.base, Expected(s.world), k))
    ensures NetChangeIsRight(s, k)
  {
    if s.stack.Some? {
      hide Net, Replay, StackChanges, StackItems, ItemChanges, WellFormed, Shape, PreviousCoupled;
      StackItemChanges(s.stack.value);
      NetIsReplay(s.world.base, Expected(s.world), k);
      NetPrevious(s.world.base, Expected(s.world), k);
    }
  }

  /** For every run and slot: the net change is right at every moment of the run, whatever is reverted
      in between, if and only if every step of the run is guarded at that slot. */
  lemma {:induction false} NetChangeIffGuarded(s: State, es: seq<Event>, k: Key)
    requires Initial(s) && Legal(s, es)
    ensures AlwaysRight(s, es, k) <==> AlwaysGuarded(s, es, k)
  {
    ReplayAgreesIffGuarded(s, es, k);
    RightIffAgrees(s, es, k);
  }

  lemma {:induction false} RightIffAgrees(s: State, es: seq<Event>, k: Key)
    requires Initial(s) && Legal(s, es)
    ensures AlwaysRight(s, es, k) <==> AlwaysAgrees(s, es, k)
  {
    if es != [] {
      RightIffAgrees(s, es[..|es| - 1], k);
    }
    if AlwaysAgrees(s, es, k) {
      RunInv(s, es);
      PreviousAlways(s, es, k);
      hide Agrees, NetChangeIsRight, Inv, PreviousCoupled;
      AgreesIsRight(Run(s, es), k);
    } else if NetChangeIsRight(Run(s, es), k) {
      RightAgrees(Run(s, es), k);
    }
  }

  /** So over every guarded run the entry of the aggregated diff is the slot's net change. */
  lemma SummaryIsNetChange(s: State, es: seq<Event>, d: Summary, k: Key)
    requires Initial(s) && Legal(s, es) && Run(s, es).stack.Some? && Sums(d, StackChanges(Run(s, es).stack.value))
    requires AlwaysGuarded(s, es, k)
    ensures var w := Run(s, es).world;
            if SlotAt(d, k).Some?
            then SlotAt(d, k).value == Diff(Lookup(w.base, k), Lookup(w.storage, k))
            else Lookup(w.base, k) == Lookup(w.storage, k)
  {
    NetChangeIffGuarded(s, es, k);
    assert NetChangeIsRight(Run(s, es), k);
    hide Net, StackChanges, SlotAt, Run, AlwaysGuarded;
  }
}
