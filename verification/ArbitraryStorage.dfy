/** Arbitrary storage: cached random slot values, addresses that copy another's storage, and the
    account storage both are written to. */
module ArbitraryStorage {
  import opened Wrappers

  type Slots = map<Word, Word>

  /** What a store replaced. */
  datatype Entry = Entry(a: Address, slot: Word, had: Word)

  /** The inspector's tables, and the journaled state: the storage, the entries that undo its stores,
      and for every open frame the number of entries there were when it was entered. */
  datatype State = State(
    values: map<Address, Slots>, copies: map<Address, Address>, overwrites: set<Address>,
    storage: map<Address, Slots>, journal: seq<Entry>, frames: seq<nat>)

  function Put(slots: Slots, slot: Word, value: Word): Slots {
    slots[slot := value]
  }

  function SlotsOf(storage: map<Address, Slots>, a: Address): Slots {
    if a in storage then storage[a] else map[]
  }

  /** What an account's slot holds. */
  function Load(s: State, a: Address, slot: Word): Word {
    var slots := SlotsOf(s.storage, a);
    if slot in slots then slots[slot] else 0
  }

  function Set(s: State, a: Address, slot: Word, value: Word): State {
    s.(storage := s.storage[a := Put(SlotsOf(s.storage, a), slot, value)])
  }

  /** A journaled store. */
  function Write(s: State, a: Address, slot: Word, value: Word): State {
    Set(s, a, slot, value).(journal := s.journal + [Entry(a, slot, Load(s, a, slot))])
  }

  /** Undoes the stores after the first `mark`, the latest first. */
  function Undo(s: State, mark: nat): State
    decreases |s.journal|
  {
    if |s.journal| <= mark then s
    else
      var n := |s.journal| - 1;
      var e := s.journal[n];
      Undo(Set(s, e.a, e.slot, e.had).(journal := s.journal[..n]), mark)
  }

  lemma UndoStep(s: State, mark: nat)
    requires |s.journal| > mark
    ensures var n := |s.journal| - 1;
            var e := s.journal[n];
            Undo(s, mark) == Undo(Set(s, e.a, e.slot, e.had).(journal := s.journal[..n]), mark)
  {
  }

  lemma UndoDone(s: State, mark: nat)
    requires |s.journal| <= mark
    ensures Undo(s, mark) == s
  {
  }

  function EnterFrame(s: State): State {
    s.(frames := s.frames + [|s.journal|])
  }

  /** A frame that reverts or halts undoes its stores.  The tables are not journaled. */
  function EndFrame(s: State, success: bool): State
    requires s.frames != []
  {
    var n := |s.frames| - 1;
    var popped := s.(frames := s.frames[..n]);
    if success then popped else Undo(popped, s.frames[n])
  }

  function Cache(s: State, a: Address, slot: Word, value: Word): State
    requires a in s.values
  {
    s.(values := s.values[a := Put(s.values[a], slot, value)])
  }

  // ---------------------------------------------------------------------------------------------
  // The cheatcodes and the SLOAD hook on values
  // ---------------------------------------------------------------------------------------------

  function MarkArbitrary(s: State, a: Address, overwrite: bool): State {
    s.(values := s.values[a := map[]],
       overwrites := if overwrite then s.overwrites + {a} else s.overwrites - {a})
  }

  function MarkCopy(s: State, from: Address, to: Address): State {
    if from in s.values then s.(copies := s.copies[to := from]) else s
  }

  /** Refused when the target has arbitrary storage itself.  The storage is replaced without a journal
      entry. */
  function CopyStorage(s: State, from: Address, to: Address): State {
    if to in s.values then s
    else MarkCopy(s.(storage := s.storage[to := SlotsOf(s.storage, from)]), from, to)
  }

  function Save(s: State, a: Address, slot: Word, value: Word): State
    requires a in s.values
  {
    Write(Cache(s, a, slot, value), a, slot, value)
  }

  function Copy(s: State, target: Address, slot: Word, generated: Word): State
    requires target in s.copies && s.copies[target] in s.values
  {
    var source := s.copies[target];
    if slot in s.values[source] then
      Write(s, target, slot, s.values[source][slot])
    else
      Write(Write(Cache(s, source, slot, generated), source, slot, generated), target, slot, generated)
  }

  predicate ShouldOverwrite(s: State, a: Address, slot: Word) {
    a in s.overwrites && (a in s.values ==> slot !in s.values[a])
  }

  predicate Generates(s: State, a: Address, slot: Word, isCold: bool) {
    (isCold && Load(s, a, slot) == 0) || ShouldOverwrite(s, a, slot)
  }

  /** Every source of a copy has a value table. */
  predicate SourcesExist(s: State) {
    forall t :: t in s.copies ==> s.copies[t] in s.values
  }

  /** What happens before an SLOAD reads the slot; `random` is the value drawn if one is needed. */
  function BeforeSload(s: State, a: Address, slot: Word, isCold: bool, random: Word): State
    requires SourcesExist(s)
  {
    if !Generates(s, a, slot, isCold) then s
    else if a in s.values then Save(s, a, slot, random)
    else if a in s.copies then Copy(s, a, slot, random)
    else s
  }

  class Arbitrary {
    var values: map<Address, Slots>
    var copies: map<Address, Address>
    var overwrites: set<Address>
    var storage: map<Address, Slots>
    var journal: seq<Entry>
    var frames: seq<nat>

    constructor (storage: map<Address, Slots>)
      ensures Value() == State(map[], map[], {}, storage, [], []) && SourcesExist(Value())
    {
      this.storage := storage;
      values, copies, overwrites := map[], map[], {};
      journal, frames := [], [];
    }

    function Value(): State
      reads this
    {
      State(values, copies, overwrites, storage, journal, frames)
    }

    method OnSetArbitraryStorage(a: Address, overwrite: bool)
      requires SourcesExist(Value())
      modifies this
      ensures Value() == MarkArbitrary(old(Value()), a, overwrite) && SourcesExist(Value())
    {
      values := values[a := map[]];
      if overwrite {
        overwrites := overwrites + {a};
      } else {
        overwrites := overwrites - {a};
      }
    }

    method OnCopyStorage(from: Address, to: Address) returns (ok: bool)
      requires SourcesExist(Value())
      modifies this
      ensures Value() == CopyStorage(old(Value()), from, to) && SourcesExist(Value())
      ensures ok <==> to !in old(values)
    {
      if to in values {
        return false;
      }
      storage := storage[to := SlotsOf(storage, from)];
      if from in values {
        copies := copies[to := from];
      }
      return true;
    }

    method Sstore(a: Address, slot: Word, value: Word)
      modifies this
      ensures Value() == Write(old(Value()), a, slot, value)
    {
      journal := journal + [Entry(a, slot, Load(Value(), a, slot))];
      storage := storage[a := Put(SlotsOf(storage, a), slot, value)];
    }

    method OnEnterFrame()
      modifies this
      ensures Value() == EnterFrame(old(Value()))
    {
      frames := frames + [|journal|];
    }

    method OnEndFrame(success: bool)
      requires frames != []
      modifies this
      ensures Value() == EndFrame(old(Value()), success)
    {
      var mark := frames[|frames| - 1];
      frames := frames[..|frames| - 1];
      if !success {
        hide Undo;
        while |journal| > mark
          invariant Undo(Value(), mark) == EndFrame(old(Value()), false)
        {
          UndoStep(Value(), mark);
          var e := journal[|journal| - 1];
          journal := journal[..|journal| - 1];
          storage := storage[e.a := Put(SlotsOf(storage, e.a), e.slot, e.had)];
        }
        UndoDone(Value(), mark);
      }
    }

    method SaveValue(a: Address, slot: Word, value: Word)
      requires a in values
      modifies this
      ensures Value() == Save(old(Value()), a, slot, value)
    {
      values := values[a := Put(values[a], slot, value)];
      Sstore(a, slot, value);
    }

    method CopyValue(target: Address, slot: Word, generated: Word) returns (value: Word)
      requires target in copies && copies[target] in values
      modifies this
      ensures Value() == Copy(old(Value()), target, slot, generated)
      ensures value == Load(Value(), target, slot)
    {
      var source := copies[target];
      if slot in values[source] {
        value := values[source][slot];
      } else {
        values := values[source := Put(values[source], slot, generated)];
        Sstore(source, slot, generated);
        value := generated;
      }
      Sstore(target, slot, value);
    }

    /** The lookups of `save` and `copy` never fail: the guards and `SourcesExist` see to that. */
    method OnSload(a: Address, slot: Word, isCold: bool, random: Word)
      requires SourcesExist(Value())
      modifies this
      ensures Value() == BeforeSload(old(Value()), a, slot, isCold, random) && SourcesExist(Value())
    {
      if (isCold && Load(Value(), a, slot) == 0) || ShouldOverwrite(Value(), a, slot) {
        if a in values {
          SaveValue(a, slot, random);
        } else if a in copies {
          var _ := CopyValue(a, slot, random);
        }
      }
    }
  }

  // ---------------------------------------------------------------------------------------------
  // Runs
  // ---------------------------------------------------------------------------------------------

  datatype Event =
    | SetArbitrary(a: Address, overwrite: bool)
    | CopyAccount(from: Address, to: Address)
    | Sload(a: Address, slot: Word, isCold: bool, random: Word)
    | Sstore(a: Address, slot: Word, value: Word)
    | Enter
    | End(success: bool)

  /** Frames end properly nested. */
  predicate Enabled(s: State, e: Event) {
    SourcesExist(s) && (e.End? ==> s.frames != [])
  }

  function Step(s: State, e: Event): State
    requires Enabled(s, e)
  {
    match e
    case SetArbitrary(a, overwrite) => MarkArbitrary(s, a, overwrite)
    case CopyAccount(from, to) => CopyStorage(s, from, to)
    case Sload(a, slot, isCold, random) => BeforeSload(s, a, slot, isCold, random)
    case Sstore(a, slot, value) => Write(s, a, slot, value)
    case Enter => EnterFrame(s)
    case End(success) => EndFrame(s, success)
  }

  lemma {:induction false} UndoKeepsTables(s: State, mark: nat)
    ensures var r := Undo(s, mark);
            r.values == s.values && r.copies == s.copies && r.overwrites == s.overwrites && r.frames == s.frames
    decreases |s.journal|
  {
    if |s.journal| > mark {
      var e := s.journal[|s.journal| - 1];
      UndoKeepsTables(Set(s, e.a, e.slot, e.had).(journal := s.journal[..|s.journal| - 1]), mark);
    }
  }

  lemma SourcesStep(s: State, e: Event)
    requires Enabled(s, e)
    ensures SourcesExist(Step(s, e))
  {
    if e.End? {
      var n := |s.frames| - 1;
      UndoKeepsTables(s.(frames := s.frames[..n]), s.frames[n]);
    }
  }

  /** The table an address draws its values from: its own, or its source's. */
  function TableOf(s: State, a: Address): Option<Address> {
    if a in s.values then Some(a) else if a in s.copies then Some(s.copies[a]) else None
  }

  /** The cells that took their value from their table and were not disturbed since. */
  type Cells = set<(Address, Word)>

  /** Which cells are drawn from a table after an event: generating adds the cell, and its source's
      when the value is new; re-marking drops every cell of that table, re-pointing those of the
      target, re-saving those of the slot, and a store by the program that cell.  A copied account
      starts with the source's cells.  The end of a frame disturbs no cell of its own accord. */
  function Drawn(s: State, d: Cells, e: Event): Cells {
    match e
    case SetArbitrary(a, _) => set c | c in d && c.0 != a && TableOf(s, c.0) != Some(a)
    case CopyAccount(from, to) =>
      if to in s.values then d
      else (set c | c in d && c.0 != to) +
           (if from in s.values then set c | c in d && c.0 == from :: (to, c.1) else {})
    case Sload(a, slot, isCold, _) =>
      if !Generates(s, a, slot, isCold) || TableOf(s, a).None? then d
      else if a in s.values then (set c | c in d && !(c.1 == slot && TableOf(s, c.0) == Some(a))) + {(a, slot)}
      else d + {(a, slot)} +
           (if s.copies[a] in s.values && slot in s.values[s.copies[a]] then {} else {(s.copies[a], slot)})
    case Sstore(a, slot, _) => d - {(a, slot)}
    case Enter => d
    case End(_) => d
  }

  /** A drawn cell holds the value its table caches for the slot. */
  predicate Holds(s: State, c: (Address, Word)) {
    var t := TableOf(s, c.0);
    t.Some? && t.value in s.values && c.1 in s.values[t.value] && Load(s, c.0, c.1) == s.values[t.value][c.1]
  }

  predicate Coherent(s: State, d: Cells) {
    SourcesExist(s) && forall c :: c in d ==> Holds(s, c)
  }

  /** What a cell held before the first store to it after the first `mark`, if there is one. */
  function Original(journal: seq<Entry>, mark: nat, c: (Address, Word)): Option<Word>
    decreases |journal| - mark
  {
    if |journal| <= mark then None
    else if journal[mark].a == c.0 && journal[mark].slot == c.1 then Some(journal[mark].had)
    else Original(journal, mark + 1, c)
  }

  lemma {:induction false} OriginalSnoc(journal: seq<Entry>, e: Entry, mark: nat, c: (Address, Word))
    requires mark <= |journal|
    ensures var before := Original(journal, mark, c);
            Original(journal + [e], mark, c) ==
              if before.Some? then before else if (e.a, e.slot) == c then Some(e.had) else None
    decreases |journal| - mark
  {
    if mark < |journal| {
      OriginalSnoc(journal, e, mark + 1, c);
    }
  }

  lemma LoadAfterSet(s: State, e: Entry, journal: seq<Entry>, c: (Address, Word))
    ensures var r := Set(s, e.a, e.slot, e.had).(journal := journal);
            Load(r, c.0, c.1) == if (e.a, e.slot) == c then e.had else Load(s, c.0, c.1)
  {
  }

  /** Undoing gives every cell back what it held before the first undone store to it. */
  lemma {:induction false} UndoLoad(s: State, mark: nat, c: (Address, Word))
    requires mark <= |s.journal|
    ensures var original := Original(s.journal, mark, c);
            Load(Undo(s, mark), c.0, c.1) == if original.Some? then original.value else Load(s, c.0, c.1)
    decreases |s.journal|
  {
    if |s.journal| > mark {
      var n := |s.journal| - 1;
      var e := s.journal[n];
      hide Load, Original;
      LoadAfterSet(s, e, s.journal[..n], c);
      UndoLoad(Set(s, e.a, e.slot, e.had).(journal := s.journal[..n]), mark, c);
      OriginalSnoc(s.journal[..n], e, mark, c);
      SplitLast(s.journal);
    }
  }

  /** Marks of open frames do not exceed the journal. */
  predicate MarksFit(s: State) {
    forall i :: 0 <= i < |s.frames| ==>
      s.frames[i] <= |s.journal| && forall j :: i < j < |s.frames| ==> s.frames[i] <= s.frames[j]
  }

  lemma {:induction false} UndoLength(s: State, mark: nat)
    requires mark <= |s.journal|
    ensures |Undo(s, mark).journal| == mark
    decreases |s.journal|
  {
    if |s.journal| > mark {
      var e := s.journal[|s.journal| - 1];
      UndoLength(Set(s, e.a, e.slot, e.had).(journal := s.journal[..|s.journal| - 1]), mark);
    }
  }

  lemma MarksEnd(s: State, success: bool)
    requires s.frames != [] && MarksFit(s)
    ensures MarksFit(EndFrame(s, success))
  {
    var n := |s.frames| - 1;
    var popped := s.(frames := s.frames[..n]);
    hide Undo;
    UndoLength(popped, s.frames[n]);
    UndoKeepsTables(popped, s.frames[n]);
    assert forall i :: 0 <= i < n ==> s.frames[i] <= s.frames[n];
  }

  /** More entries, and marks as before or one more at their end. */
  lemma MarksGrow(s: State, r: State)
    requires MarksFit(s) && |s.journal| <= |r.journal|
    requires r.frames == s.frames || r.frames == s.frames + [|r.journal|]
    ensures MarksFit(r)
  {
  }

  lemma MarksStep(s: State, e: Event)
    requires Enabled(s, e) && MarksFit(s)
    ensures MarksFit(Step(s, e))
  {
    hide MarksFit, Load, Undo, Generates;
    if e.End? {
      MarksEnd(s, e.success);
    } else {
      MarksGrow(s, Step(s, e));
    }
  }

  /** What the end of a frame must satisfy, readable before it: a frame that is undone finds in the
      journal, for every drawn cell it stored to, that the cell held the cached value on entry. */
  predicate Guard(s: State, d: Cells, e: Event)
    requires Enabled(s, e)
  {
    e.End? && !e.success ==>
      forall c :: c in d ==>
        var original := Original(s.journal, s.frames[|s.frames| - 1], c);
        original.Some? ==> original == Cached(s, c)
  }

  /** What the cell's table caches for the slot. */
  function Cached(s: State, c: (Address, Word)): Option<Word> {
    var t := TableOf(s, c.0);
    if t.Some? && t.value in s.values && c.1 in s.values[t.value] then Some(s.values[t.value][c.1]) else None
  }

  lemma LoadAfterWrite(s: State, a: Address, slot: Word, value: Word, b: Address, other: Word)
    ensures Load(Write(s, a, slot, value), b, other) == if b == a && other == slot then value else Load(s, b, other)
  {
  }

  lemma CacheKeepsStorage(s: State, a: Address, slot: Word, value: Word, c: (Address, Word))
    requires a in s.values
    ensures Load(Cache(s, a, slot, value), c.0, c.1) == Load(s, c.0, c.1)
  {
  }

  lemma SaveStep(s: State, d: Cells, e: Event, c: (Address, Word))
    requires Coherent(s, d) && e.Sload? && Generates(s, e.a, e.slot, e.isCold) && e.a in s.values
    requires c in Drawn(s, d, e)
    ensures Holds(Step(s, e), c)
  {
    hide Load;
    LoadAfterWrite(Cache(s, e.a, e.slot, e.random), e.a, e.slot, e.random, c.0, c.1);
    CacheKeepsStorage(s, e.a, e.slot, e.random, c);
    if c in d {
      assert Holds(s, c);
    }
  }

  lemma CopyStep(s: State, d: Cells, e: Event, c: (Address, Word))
    requires Coherent(s, d) && e.Sload? && Generates(s, e.a, e.slot, e.isCold) && e.a !in s.values && e.a in s.copies
    requires c in Drawn(s, d, e)
    ensures Holds(Step(s, e), c)
  {
    hide Load;
    var source := s.copies[e.a];
    if c in d {
      assert Holds(s, c);
    }
    if e.slot in s.values[source] {
      LoadAfterWrite(s, e.a, e.slot, s.values[source][e.slot], c.0, c.1);
    } else {
      var cached := Cache(s, source, e.slot, e.random);
      CacheKeepsStorage(s, source, e.slot, e.random, c);
      LoadAfterWrite(cached, source, e.slot, e.random, c.0, c.1);
      LoadAfterWrite(Write(cached, source, e.slot, e.random), e.a, e.slot, e.random, c.0, c.1);
    }
  }

  /** Every event but the end of a frame keeps the drawn cells equal to what their tables cache. */
  lemma CoherentStep(s: State, d: Cells, e: Event)
    requires Coherent(s, d) && !e.End?
    ensures Coherent(Step(s, e), Drawn(s, d, e))
  {
    SourcesStep(s, e);
    forall c | c in Drawn(s, d, e)
      ensures Holds(Step(s, e), c)
    {
      match e
      case SetArbitrary(a, _) => assert Holds(s, c);
      case CopyAccount(from, to) =>
        if c.0 == to && to !in s.values {
          assert Holds(s, (from, c.1));
        } else {
          assert Holds(s, c);
        }
      case Sload(a, slot, isCold, _) =>
        if !Generates(s, a, slot, isCold) || TableOf(s, a).None? {
          assert Holds(s, c);
        } else if a in s.values {
          SaveStep(s, d, e, c);
        } else {
          CopyStep(s, d, e, c);
        }
      case Sstore(a, slot, value) =>
        assert Holds(s, c);
        LoadAfterWrite(s, a, slot, value, c.0, c.1);
      case Enter => assert Holds(s, c);
    }
  }

  /** A drawn cell survives the undoing of a frame exactly if it held the cached value on entry. */
  lemma CellAfterEnd(s: State, d: Cells, e: Event, c: (Address, Word))
    requires Coherent(s, d) && MarksFit(s) && Enabled(s, e) && e.End? && !e.success && c in d
    ensures var original := Original(s.journal, s.frames[|s.frames| - 1], c);
            Holds(Step(s, e), c) <==> (original.Some? ==> original == Cached(s, c))
  {
    var n := |s.frames| - 1;
    var popped := s.(frames := s.frames[..n]);
    assert Holds(s, c);
    hide Undo, Original;
    UndoKeepsTables(popped, s.frames[n]);
    UndoLoad(popped, s.frames[n], c);
  }

  /** Exactly the guarded steps keep the drawn cells equal to what their tables cache. */
  lemma CoherentIffGuarded(s: State, d: Cells, e: Event)
    requires Coherent(s, d) && MarksFit(s) && Enabled(s, e)
    ensures Coherent(Step(s, e), Drawn(s, d, e)) <==> Guard(s, d, e)
  {
    SourcesStep(s, e);
    if !e.End? {
      CoherentStep(s, d, e);
    } else if e.success {
      forall c | c in d ensures Holds(Step(s, e), c) {
        assert Holds(s, c);
      }
    } else {
      hide Holds, Original, Cached, Step;
      forall c | c in d
        ensures var original := Original(s.journal, s.frames[|s.frames| - 1], c);
                Holds(Step(s, e), c) <==> (original.Some? ==> original == Cached(s, c))
      {
        CellAfterEnd(s, d, e, c);
      }
    }
  }

  predicate Legal(s: State, es: seq<Event>)
    decreases |es|, 0
  {
    es == [] || (Legal(s, es[..|es| - 1]) && Enabled(Run(s, es[..|es| - 1]), es[|es| - 1]))
  }

  function Run(s: State, es: seq<Event>): State
    requires Legal(s, es)
    decreases |es|, 1
  {
    if es == [] then s else Step(Run(s, es[..|es| - 1]), es[|es| - 1])
  }

  function RunDrawn(s: State, es: seq<Event>): Cells
    requires Legal(s, es)
  {
    if es == [] then {} else Drawn(Run(s, es[..|es| - 1]), RunDrawn(s, es[..|es| - 1]), es[|es| - 1])
  }

  /** Every frame that ends in the run was entered in it. */
  predicate Nested(open: nat, es: seq<Event>) {
    if es == [] then true
    else
      && Nested(open, es[..|es| - 1])
      && (es[|es| - 1].End? ==> Depth(open, es[..|es| - 1]) > 0)
  }

  function Depth(open: nat, es: seq<Event>): int {
    if es == [] then open
    else Depth(open, es[..|es| - 1]) + if es[|es| - 1].Enter? then 1 else if es[|es| - 1].End? then -1 else 0
  }

  /** Over every run of the cheatcodes, loads, stores and frames, the source of every copy has a value
      table, so no lookup ever fails; nothing but proper nesting is needed for a run to be possible. */
  lemma {:induction false} LookupsNeverFail(s: State, es: seq<Event>)
    requires SourcesExist(s) && MarksFit(s)
    ensures Legal(s, es) <==> Nested(|s.frames|, es)
    ensures Legal(s, es) ==>
              SourcesExist(Run(s, es)) && MarksFit(Run(s, es)) && |Run(s, es).frames| == Depth(|s.frames|, es)
  {
    if es != [] {
      var before, e := es[..|es| - 1], es[|es| - 1];
      LookupsNeverFail(s, before);
      if Legal(s, before) && Enabled(Run(s, before), e) {
        SourcesStep(Run(s, before), e);
        MarksStep(Run(s, before), e);
        FramesStep(Run(s, before), e);
      }
    }
  }

  lemma FramesStep(s: State, e: Event)
    requires Enabled(s, e)
    ensures |Step(s, e).frames| == |s.frames| + if e.Enter? then 1 else if e.End? then -1 else 0
  {
    if e.End? {
      var n := |s.frames| - 1;
      UndoKeepsTables(s.(frames := s.frames[..n]), s.frames[n]);
    }
  }

  predicate AlwaysCoherent(s: State, es: seq<Event>)
    requires Legal(s, es)
  {
    && (es != [] ==> AlwaysCoherent(s, es[..|es| - 1]))
    && Coherent(Run(s, es), RunDrawn(s, es))
  }

  predicate AlwaysGuarded(s: State, es: seq<Event>)
    requires Legal(s, es)
  {
    es != [] ==>
      && AlwaysGuarded(s, es[..|es| - 1])
      && Guard(Run(s, es[..|es| - 1]), RunDrawn(s, es[..|es| - 1]), es[|es| - 1])
  }

  /** For every run: every drawn cell holds what its table caches throughout the run, if and only if
      every end of a frame is guarded. */
  lemma {:induction false} AlwaysCoherentIffGuarded(s: State, es: seq<Event>)
    requires SourcesExist(s) && MarksFit(s) && Legal(s, es)
    ensures AlwaysCoherent(s, es) <==> AlwaysGuarded(s, es)
  {
    if es != [] {
      var before := es[..|es| - 1];
      AlwaysCoherentIffGuarded(s, before);
      LookupsNeverFail(s, before);
      if AlwaysCoherent(s, before) {
        CoherentIffGuarded(Run(s, before), RunDrawn(s, before), es[|es| - 1]);
      }
    }
  }

  /** No frame of the run is undone. */
  predicate NothingUndone(es: seq<Event>) {
    forall i :: 0 <= i < |es| ==> !es[i].End? || es[i].success
  }

  /** In particular over every run in which no frame reverts or halts. */
  lemma {:induction false} CoherentWithoutReverts(s: State, es: seq<Event>)
    requires SourcesExist(s) && MarksFit(s) && Legal(s, es) && NothingUndone(es)
    ensures AlwaysCoherent(s, es)
  {
    GuardedWithoutReverts(s, es);
    AlwaysCoherentIffGuarded(s, es);
  }

  lemma {:induction false} GuardedWithoutReverts(s: State, es: seq<Event>)
    requires Legal(s, es) && NothingUndone(es)
    ensures AlwaysGuarded(s, es)
  {
    if es != [] {
      GuardedWithoutReverts(s, es[..|es| - 1]);
    }
  }

  /** Hence, over every guarded run, a source and all its copies agree on every slot they have drawn. */
  lemma DrawnCellsAgree(s: State, es: seq<Event>, a: Address, b: Address, slot: Word)
    requires SourcesExist(s) && MarksFit(s) && Legal(s, es) && AlwaysGuarded(s, es)
    requires (a, slot) in RunDrawn(s, es) && (b, slot) in RunDrawn(s, es)
    requires TableOf(Run(s, es), a) == TableOf(Run(s, es), b)
    ensures Load(Run(s, es), a, slot) == Load(Run(s, es), b, slot)
  {
    AlwaysCoherentIffGuarded(s, es);
    assert Holds(Run(s, es), (a, slot)) && Holds(Run(s, es), (b, slot));
  }

  /** A load that generates a value leaves the cell drawn, so the next load of any copy sees it. */
  lemma LoadDraws(s: State, d: Cells, a: Address, slot: Word, isCold: bool, random: Word)
    requires Coherent(s, d) && Generates(s, a, slot, isCold) && TableOf(s, a).Some?
    ensures var e := Sload(a, slot, isCold, random);
            (a, slot) in Drawn(s, d, e) && Holds(Step(s, e), (a, slot)) && TableOf(Step(s, e), a) == TableOf(s, a)
  {
    CoherentStep(s, d, Sload(a, slot, isCold, random));
  }

  /** Re-saving is what coherence has to give up: when the program clears the source's slot and the
      slot is loaded cold again, the source takes a new value and a copy keeps the old one. */
  lemma ResavingSeparates(a: Address, t: Address, slot: Word, x: Word, y: Word)
    requires a != t && x != y && x != 0
    ensures var s0 := State(map[a := map[]], map[t := a], {}, map[], [], []);
            var s1 := Step(s0, Sload(t, slot, true, x));
            var s2 := Step(s1, Sstore(a, slot, 0));
            var s3 := Step(s2, Sload(a, slot, true, y));
            && Load(s1, a, slot) == Load(s1, t, slot) == x
            && Load(s3, t, slot) == x && Load(s3, a, slot) == y
  {
  }

  // A copy draws a value inside a frame that then reverts.

  function CopyOf(a: Address, t: Address): State {
    State(map[a := map[]], map[t := a], {}, map[], [], [])
  }

  function DrawnInside(a: Address, t: Address, slot: Word, x: Word): State
    requires a != t
  {
    Step(Step(CopyOf(a, t), Enter), Sload(t, slot, true, x))
  }

  lemma DrawnInsideIs(a: Address, t: Address, slot: Word, x: Word)
    requires a != t
    ensures DrawnInside(a, t, slot, x) ==
              State(map[a := map[slot := x]], map[t := a], {}, map[a := map[slot := x], t := map[slot := x]],
                    [Entry(a, slot, 0), Entry(t, slot, 0)], [0])
  {
  }

  lemma RevertedIs(a: Address, t: Address, slot: Word, x: Word)
    requires a != t
    ensures Enabled(DrawnInside(a, t, slot, x), End(false))
    ensures var r := Step(DrawnInside(a, t, slot, x), End(false));
            && r.values == map[a := map[slot := x]] && r.copies == map[t := a] && r.overwrites == {}
            && Load(r, a, slot) == 0 && Load(r, t, slot) == 0
  {
    DrawnInsideIs(a, t, slot, x);
    var s := DrawnInside(a, t, slot, x).(frames := []);
    assert [0][..0] == [];
    UndoKeepsTables(s, 0);
    UndoLoad(s, 0, (a, slot));
    UndoLoad(s, 0, (t, slot));
    assert Original(s.journal, 0, (t, slot)) == Original(s.journal, 1, (t, slot)) == Some(0);
  }

  lemma LoadsAfterwards(r: State, a: Address, t: Address, slot: Word, x: Word, y: Word)
    requires a != t && r.values == map[a := map[slot := x]] && r.copies == map[t := a] && r.overwrites == {}
    requires Load(r, a, slot) == 0 && Load(r, t, slot) == 0
    ensures var s := Step(r, Sload(t, slot, true, y));
            && SourcesExist(s)
            && var last := Step(s, Sload(a, slot, true, y)); Load(last, t, slot) == x && Load(last, a, slot) == y
  {
  }

  /** After the revert both cells are zero while the table still caches the value: the copy draws the
      cached value again and the source a new one, with nothing re-marked, re-pointed or stored to. */
  lemma RevertSeparates(a: Address, t: Address, slot: Word, x: Word, y: Word)
    requires a != t && x != y && x != 0
    ensures Enabled(DrawnInside(a, t, slot, x), End(false))
    ensures var inside := DrawnInside(a, t, slot, x);
            var drawn := Drawn(Step(CopyOf(a, t), Enter), {}, Sload(t, slot, true, x));
            var r := Step(inside, End(false));
            && drawn == {(a, slot), (t, slot)} && Coherent(inside, drawn)
            && !Guard(inside, drawn, End(false)) && !Holds(r, (a, slot)) && !Holds(r, (t, slot))
            && SourcesExist(r)
            && var s := Step(r, Sload(t, slot, true, y));
               && SourcesExist(s)
               && var last := Step(s, Sload(a, slot, true, y)); Load(last, t, slot) == x && Load(last, a, slot) == y
  {
    hide Undo;
    DrawnInsideIs(a, t, slot, x);
    RevertedIs(a, t, slot, x);
    var inside, r := DrawnInside(a, t, slot, x), Step(DrawnInside(a, t, slot, x), End(false));
    LoadsAfterwards(r, a, t, slot, x, y);
    assert Original(inside.journal, 0, (a, slot)) == Some(0);
  }
}
