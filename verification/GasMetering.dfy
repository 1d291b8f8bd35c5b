/** Pausing gas metering: one global stack of held gas values, against frames that each hold their
    own. */
module GasMetering {
  import opened Wrappers

  datatype Memory = Memory(words: nat, expansionCost: nat)

  datatype Gas = Gas(limit: nat, remaining: nat, refunded: int, memory: Memory)

  function FreshGas(limit: nat, memory: Memory): Gas {
    Gas(limit, limit, 0, memory)
  }

  function Spent(g: Gas): int {
    g.limit - g.remaining
  }

  /** A negative refund counts as none. */
  function Refunded(g: Gas): nat {
    if g.refunded < 0 then 0 else g.refunded
  }

  /** `held` with the memory accounting of `current`: memory expansion is not paused. */
  function Restore(held: Gas, current: Gas): Gas {
    held.(memory := current.memory)
  }

  datatype Meter = Meter(paused: bool, touched: bool, reset: bool, pausedFrames: seq<Gas>)

  // ---------------------------------------------------------------------------------------------
  // The hooks on values
  // ---------------------------------------------------------------------------------------------

  function Resume(m: Meter): Meter {
    m.(paused := false, touched := m.touched || m.paused, pausedFrames := [])
  }

  function Reset(m: Meter): Meter {
    Meter(false, true, true, [])
  }

  function Enter(m: Meter, gas: Gas): Meter {
    if m.paused then m.(pausedFrames := m.pausedFrames + [gas]) else m
  }

  /** The `step` hook: hold or restore while paused, then apply a pending reset. */
  function Step(m: Meter, gas: Gas): (Meter, Gas) {
    var n := |m.pausedFrames|;
    var (m1, g1) :=
      if !m.paused then (m, gas)
      else if n > 0 then (m, Restore(m.pausedFrames[n - 1], gas))
      else (m.(pausedFrames := m.pausedFrames + [gas]), gas);
    if m1.reset then (m1.(reset := false), FreshGas(g1.limit, g1.memory)) else (m1, g1)
  }

  /** The `step_end` hook. */
  function StepEnd(m: Meter, gas: Gas, exits: bool): (Meter, Gas) {
    var n := |m.pausedFrames|;
    (if m.paused && exits && n > 0 then m.(pausedFrames := m.pausedFrames[..n - 1]) else m,
     if m.touched && exits && Spent(gas) < Refunded(gas) then FreshGas(gas.limit, Memory(0, 0)) else gas)
  }

  class GasMeter {
    var paused: bool
    var touched: bool
    var reset: bool
    var pausedFrames: seq<Gas>

    constructor ()
      ensures Value() == Meter(false, false, false, [])
    {
      paused, touched, reset, pausedFrames := false, false, false, [];
    }

    function Value(): Meter
      reads this
    {
      Meter(paused, touched, reset, pausedFrames)
    }

    method PauseGasMetering()
      modifies this
      ensures Value() == old(Value()).(paused := true)
    {
      paused := true;
    }

    method ResumeGasMetering()
      modifies this
      ensures Value() == Resume(old(Value()))
    {
      if paused {
        paused := false;
        touched := true;
      }
      pausedFrames := [];
    }

    method ResetGasMetering()
      modifies this
      ensures Value() == Reset(old(Value()))
    {
      paused, touched, reset := false, true, true;
      pausedFrames := [];
    }

    method OnInitializeInterp(gas: Gas)
      modifies this
      ensures Value() == Enter(old(Value()), gas)
    {
      if paused {
        pausedFrames := pausedFrames + [gas];
      }
    }

    method OnStep(gas: Gas) returns (g: Gas)
      modifies this
      ensures (Value(), g) == Step(old(Value()), gas)
    {
      g := gas;
      if paused {
        if pausedFrames != [] {
          var memory := g.memory;
          g := pausedFrames[|pausedFrames| - 1];
          g := g.(memory := memory);
        } else {
          pausedFrames := pausedFrames + [g];
        }
      }
      if reset {
        g := FreshGas(g.limit, g.memory);
        reset := false;
      }
    }

    method OnStepEnd(gas: Gas, exits: bool) returns (g: Gas)
      modifies this
      ensures (Value(), g) == StepEnd(old(Value()), gas, exits)
    {
      g := gas;
      if paused && exits && pausedFrames != [] {
        pausedFrames := pausedFrames[..|pausedFrames| - 1];
      }
      if touched && exits && g.limit - g.remaining < Refunded(g) {
        g := FreshGas(g.limit, Memory(0, 0));
      }
    }
  }

  /** Once metering was touched, a frame never exits with more refunded than spent. */
  lemma ExitIsConsistent(m: Meter, gas: Gas)
    requires m.touched && gas.remaining <= gas.limit
    ensures var g := StepEnd(m, gas, true).1; g.limit == gas.limit && Refunded(g) <= Spent(g)
    ensures Refunded(gas) <= Spent(gas) ==> StepEnd(m, gas, true).1 == gas
  {
  }

  // ---------------------------------------------------------------------------------------------
  // Runs, beside frames that hold their own gas
  // ---------------------------------------------------------------------------------------------

  datatype Event =
    | PauseEvent
    | ResumeEvent
    | ResetEvent
    | EnterEvent(gas: Gas)
    | StepEvent(before: Gas, after: Gas, exits: bool)

  /** The open frames, outermost first, each with the gas it holds while paused, if any. */
  type Frames = seq<Option<Gas>>

  datatype State = State(meter: Meter, frames: Frames)

  predicate Enabled(s: State, e: Event) {
    e.StepEvent? ==> s.frames != []
  }

  /** A frame's first step while paused makes it hold its gas; entering while paused does so too. */
  function FramesStep(paused: bool, frames: Frames, e: Event): Frames
    requires e.StepEvent? ==> frames != []
  {
    match e
    case PauseEvent => frames
    case ResumeEvent => seq(|frames|, _ => None)
    case ResetEvent => seq(|frames|, _ => None)
    case EnterEvent(gas) => frames + [if paused then Some(gas) else None]
    case StepEvent(before, _, exits) =>
      var n := |frames| - 1;
      if exits then frames[..n]
      else if paused && frames[n].None? then frames[..n] + [Some(before)]
      else frames
  }

  function MeterStep(m: Meter, e: Event): Meter {
    match e
    case PauseEvent => m.(paused := true)
    case ResumeEvent => Resume(m)
    case ResetEvent => Reset(m)
    case EnterEvent(gas) => Enter(m, gas)
    case StepEvent(before, after, exits) => StepEnd(Step(m, before).0, after, exits).0
  }

  function Next(s: State, e: Event): State
    requires Enabled(s, e)
  {
    State(MeterStep(s.meter, e), FramesStep(s.meter.paused, s.frames, e))
  }

  predicate NoneHeld(frames: Frames) {
    forall i :: 0 <= i < |frames| ==> frames[i].None?
  }

  /** The stack holds, frame by frame from the top, what the innermost frames hold themselves, and no
      frame outside those holds anything. */
  predicate Aligned(frames: Frames, stack: seq<Gas>) {
    if stack == [] then NoneHeld(frames)
    else
      && frames != []
      && frames[|frames| - 1] == Some(stack[|stack| - 1])
      && Aligned(frames[..|frames| - 1], stack[..|stack| - 1])
  }

  predicate Inv(s: State) {
    Aligned(s.frames, s.meter.pausedFrames) && (!s.meter.paused ==> s.meter.pausedFrames == [])
  }

  lemma AlignedPush(frames: Frames, stack: seq<Gas>, gas: Gas)
    requires Aligned(frames, stack)
    ensures Aligned(frames + [Some(gas)], stack + [gas])
  {
    assert (frames + [Some(gas)])[..|frames|] == frames;
    assert (stack + [gas])[..|stack|] == stack;
  }

  lemma AlignedPop(frames: Frames, stack: seq<Gas>)
    requires Aligned(frames, stack) && frames != []
    ensures Aligned(frames[..|frames| - 1], if stack == [] then [] else stack[..|stack| - 1])
  {
  }

  lemma AlignedEmpty(frames: Frames)
    ensures Aligned(frames, []) <==> NoneHeld(frames)
  {
  }

  /** A step that does not exit leaves the stack aligned with the frame's own holding. */
  lemma HoldStep(m: Meter, frames: Frames, before: Gas)
    requires Aligned(frames, m.pausedFrames) && (!m.paused ==> m.pausedFrames == []) && frames != []
    ensures var n := |frames| - 1;
            var held := if m.paused && frames[n].None? then frames[..n] + [Some(before)] else frames;
            Aligned(held, Step(m, before).0.pausedFrames)
  {
    var n := |frames| - 1;
    if m.paused && m.pausedFrames == [] {
      AlignedEmpty(frames);
      AlignedEmpty(frames[..n]);
      AlignedPush(frames[..n], [], before);
      assert [] + [before] == [before];
    } else if m.paused {
      assert frames[n].Some?;
    }
  }

  lemma ExitPops(m: Meter, before: Gas, after: Gas)
    requires !m.paused ==> m.pausedFrames == []
    ensures var stack := Step(m, before).0.pausedFrames;
            StepEnd(Step(m, before).0, after, true).0.pausedFrames == if stack == [] then [] else stack[..|stack| - 1]
  {
  }

  lemma ExitStep(m: Meter, frames: Frames, before: Gas, after: Gas)
    requires Aligned(frames, m.pausedFrames) && (!m.paused ==> m.pausedFrames == []) && frames != []
    ensures Aligned(frames[..|frames| - 1], StepEnd(Step(m, before).0, after, true).0.pausedFrames)
  {
    hide Aligned, Step, StepEnd;
    var n := |frames| - 1;
    var held := if m.paused && frames[n].None? then frames[..n] + [Some(before)] else frames;
    HoldStep(m, frames, before);
    ExitPops(m, before, after);
    AlignedPop(held, Step(m, before).0.pausedFrames);
    assert held[..n] == frames[..n];
  }

  lemma InvStep(s: State, e: Event)
    requires Inv(s) && Enabled(s, e)
    ensures Inv(Next(s, e))
  {
    var m, frames := s.meter, s.frames;
    match e
    case EnterEvent(gas) =>
      if m.paused {
        AlignedPush(frames, m.pausedFrames, gas);
      } else {
        AlignedEmpty(frames);
        AlignedEmpty(frames + [None]);
      }
    case StepEvent(before, after, exits) =>
      hide Aligned;
      if exits {
        ExitStep(m, frames, before, after);
      } else {
        HoldStep(m, frames, before);
        if !m.paused {
          AlignedEmpty(frames);
        }
      }
    case PauseEvent =>
    case ResumeEvent => AlignedEmpty(Next(s, e).frames);
    case ResetEvent => AlignedEmpty(Next(s, e).frames);
  }

  predicate Legal(s: State, es: seq<Event>)
    decreases |es|, 0
  {
    es == [] || (Legal(s, es[..|es| - 1]) && Enabled(Run(s, es[..|es| - 1]), es[|es| - 1]))
  }

  function Run(s: State, es: seq<Event>): State
    requires Legal(s, es)
    decreases |es|, 1
  {
    if es == [] then s else Next(Run(s, es[..|es| - 1]), es[|es| - 1])
  }

  predicate Initial(s: State) {
    s.meter == Meter(false, false, false, []) && NoneHeld(s.frames)
  }

  lemma {:induction false} RunKeepsInv(s: State, es: seq<Event>)
    requires Inv(s) && Legal(s, es)
    ensures Inv(Run(s, es))
  {
    if es != [] {
      RunKeepsInv(s, es[..|es| - 1]);
      InvStep(Run(s, es[..|es| - 1]), es[|es| - 1]);
    }
  }

  /** Over any nesting of entries, exits, pauses, resumes and resets the stack stays aligned with the
      innermost open frames. */
  lemma {:induction false} AlwaysAligned(s: State, es: seq<Event>)
    requires Initial(s) && Legal(s, es)
    ensures Inv(Run(s, es))
  {
    RunKeepsInv(s, es);
  }

  /** The gas after the `step` hook is what the executing frame holds, or what it has if it holds
      nothing; the memory accounting is always the present one, and a pending reset gives all gas
      back. */
  predicate RestoresOwn(r: State, gas: Gas)
    requires r.frames != []
  {
    var own, g := r.frames[|r.frames| - 1], Step(r.meter, gas).1;
    var held := if own.Some? then own.value else gas;
    && g.memory == gas.memory && g.limit == held.limit
    && (if r.meter.reset then g.remaining == g.limit && g.refunded == 0
        else g.remaining == held.remaining && g.refunded == held.refunded)
  }

  /** So every step restores what its own frame holds, never a parent's or a sibling's gas. */
  lemma EachStepRestoresItsOwnFrame(s: State, es: seq<Event>, gas: Gas)
    requires Initial(s) && Legal(s, es) && Run(s, es).frames != []
    ensures RestoresOwn(Run(s, es), gas)
  {
    AlwaysAligned(s, es);
    StepRestores(Run(s, es), gas);
  }

  predicate Uninterrupted(s: State, es: seq<Event>, j: nat)
    requires Legal(s, es)
  {
    && j < |Run(s, es).frames|
    && (es != [] ==> && !es[|es| - 1].ResumeEvent? && !es[|es| - 1].ResetEvent?
                     && Uninterrupted(s, es[..|es| - 1], j))
  }

  /** What a frame holds does not change while it stays open, whatever is called below it, until
      metering is resumed or reset. */
  lemma {:induction false} HeldGasIsKept(s: State, es: seq<Event>, j: nat)
    requires Legal(s, es) && Uninterrupted(s, es, j)
    ensures j < |s.frames|
    ensures s.frames[j].Some? ==> Run(s, es).frames[j] == s.frames[j]
  {
    if es != [] {
      HeldGasIsKept(s, es[..|es| - 1], j);
    }
  }

  lemma StepRestores(r: State, gas: Gas)
    requires Inv(r) && r.frames != []
    ensures RestoresOwn(r, gas)
  {
  }

  /** So the gas that a step gives back to a paused frame is what the frame held at any earlier moment
      since it began to hold some: over every run, whatever was entered, left and paused in between,
      as long as metering was not resumed or reset. */
  lemma HeldGasIsGivenBack(s: State, es: seq<Event>, more: seq<Event>, j: nat, gas: Gas)
    requires Initial(s) && Legal(s, es) && j < |Run(s, es).frames| && Run(s, es).frames[j].Some?
    requires Legal(Run(s, es), more) && Uninterrupted(Run(s, es), more, j)
    requires |Run(Run(s, es), more).frames| == j + 1
    ensures var held, m := Run(s, es).frames[j].value, Run(Run(s, es), more).meter;
            var g := Step(m, gas).1;
            && m.pausedFrames != [] && m.pausedFrames[|m.pausedFrames| - 1] == held
            && g.memory == gas.memory && g.limit == held.limit
            && (!m.reset ==> g.remaining == held.remaining && g.refunded == held.refunded)
  {
    AlwaysAligned(s, es);
    RunKeepsInv(Run(s, es), more);
    HeldGasIsKept(Run(s, es), more, j);
    hide Run, Uninterrupted, Legal;
    StepRestores(Run(Run(s, es), more), gas);
  }
}
