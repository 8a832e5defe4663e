/**
 The software timers of linux/hba_timer.c: a fixed set of slots, a pool of free tags, and a
 periodic sweep whose callbacks may themselves add and cancel timers.
 */
module Timers {
  import opened Common

  const INTERVAL_OS := 1000
  const INTERVAL_LARGE_UNIT := 500
  const INTERVAL_SMALL_UNIT := 100
  const NO_CURRENT_TIMER := 0xFFFF
  const U32 := 0x1_0000_0000

  /**
   A slot.  `serial` is the number of the timer armed in it, until its routine is called:
   from then on the slot may still be valid, but it owes nobody a call.  `routine` is the number
   of the timer whose routine the slot names, which a cancellation leaves as it is.
   */
  datatype Slot = Slot(valid: bool, stamp: nat, serial: Option<nat>, routine: nat)

  /** An accepted timer: when it was added and after how long it is due. */
  datatype Armed = Armed(at: nat, delay: nat)

  datatype Fired = Fired(serial: nat, at: nat)

  /**
   `free` is the tag pool, next tag first.  The rest is history; `stale` are the timers whose
   routines were called although they had just been cancelled.
   */
  datatype Module = Module(now: nat, slots: seq<Slot>, free: seq<nat>,
                           armed: seq<Armed>, fired: seq<Fired>, cancelled: seq<nat>, lost: seq<nat>, stale: seq<nat>)

  /** What a routine, or anybody else, may ask of the module. */
  datatype Action = AddLarge(unit: nat) | AddSmall(unit: nat) | Cancel(index: nat)

  /** The product is taken in 32 bits. */
  function Delay(unit: nat, interval: nat): nat { unit * interval % U32 }

  // ---------------------------------------------------------------- operations

  /** Timer_Initialize. */
  function Init(n: nat): Module {
    Module(0, seq(n, i => Slot(false, 0, None, 0)), Upto(n), [], [], [], [], [])
  }

  /** Timer_AddRequest and Timer_AddSmallRequest. */
  function Add(t: Module, delay: nat): (Module, nat) {
    if t.free == [] || t.free[0] >= |t.slots| then (t, NO_CURRENT_TIMER)  // every free tag names a slot
    else
      (t.(free := t.free[1..],
          slots := t.slots[t.free[0] := Slot(true, t.now + delay, Some(|t.armed|), |t.armed|)],
          armed := t.armed + [Armed(t.now, delay)]),
       t.free[0])
  }

  /** Gives a valid slot back to the pool. */
  function Release(t: Module, i: nat): Module
    requires i < |t.slots|
  {
    t.(slots := t.slots[i := t.slots[i].(valid := false, serial := None)], free := [i] + t.free)
  }

  function Owed(o: Option<nat>): seq<nat> { if o.Some? then [o.value] else [] }

  /** Timer_CancelRequest: only a timer not yet overdue can be cancelled. */
  function CancelAt(t: Module, i: nat): Module {
    if i < |t.slots| && t.slots[i].valid && t.slots[i].stamp >= t.now then
      Release(t, i).(cancelled := t.cancelled + Owed(t.slots[i].serial))
    else t
  }

  function Perform(t: Module, a: Action): (r: Module)
    ensures |r.slots| == |t.slots|
  {
    match a
    case AddLarge(unit) => Add(t, Delay(unit, INTERVAL_LARGE_UNIT)).0
    case AddSmall(unit) => Add(t, Delay(unit, INTERVAL_SMALL_UNIT)).0
    case Cancel(i) => CancelAt(t, i)
  }

  /** A routine, or what others do meanwhile: any sequence of calls into the module. */
  function PerformAll(t: Module, acts: seq<Action>): (r: Module)
    ensures |r.slots| == |t.slots|
    decreases |acts|
  {
    if acts == [] then t else PerformAll(Perform(t, acts[0]), acts[1..])
  }

  predicate Due(t: Module, i: nat)
    requires i < |t.slots|
  {
    t.slots[i].valid && t.slots[i].stamp <= t.now
  }

  /** The routine the slot names is about to be called, whether or not a timer is armed there. */
  function Calling(t: Module, i: nat): Module
    requires i < |t.slots|
  {
    var s := t.slots[i];
    if s.serial.Some? then t.(fired := t.fired + [Fired(s.routine, t.now)], slots := t.slots[i := s.(serial := None)])
    else t.(stale := t.stale + [s.routine])
  }

  /** The slot of a routine that has returned: whatever it is armed with now is dropped. */
  function Finish(t: Module, i: nat): Module
    requires i < |t.slots|
  {
    if t.slots[i].valid then Release(t, i).(lost := t.lost + Owed(t.slots[i].serial)) else t
  }

  /**
   What happens at one slot of a sweep while the lock is free: `others` before the slot is looked
   at, `gap` after it was found due and before its routine is read from it, and `routine` while
   that runs, the routine's own calls and those of others.
   */
  datatype Turn = Turn(others: seq<Action>, gap: seq<Action>, routine: seq<Action>)

  /** One slot of the sweep, once the lock is taken again. */
  function Visit(t: Module, i: nat, gap: seq<Action>, acts: seq<Action>): (r: Module)
    requires i < |t.slots|
    ensures |r.slots| == |t.slots|
  {
    if Due(t, i) then Finish(PerformAll(Calling(PerformAll(t, gap), i), acts), i) else t
  }

  function TurnOf(t: Module, i: nat, turn: Turn): (r: Module)
    requires i < |t.slots|
    ensures |r.slots| == |t.slots|
  {
    Visit(PerformAll(t, turn.others), i, turn.gap, turn.routine)
  }

  function SweepFrom(t: Module, i: nat, script: seq<Turn>): (r: Module)
    requires i <= |t.slots| == |script|
    ensures |r.slots| == |t.slots|
    decreases |script| - i
  {
    if i == |script| then t else SweepFrom(TurnOf(t, i, script[i]), i + 1, script)
  }

  /** Timer_CheckRequest; `script[i]` is what happens at slot `i`. */
  function Sweep(t: Module, script: seq<Turn>): (r: Module)
    requires |t.slots| == |script|
    ensures |r.slots| == |t.slots|
  {
    SweepFrom(t.(now := t.now + INTERVAL_OS), 0, script)
  }

  // ---------------------------------------------------------------- slots and tags

  /** The free tags and the valid slots are complementary, and no tag is in the pool twice. */
  ghost predicate Partition(t: Module) {
    forall k: nat :: Count(t.free, k) == if k < |t.slots| && !t.slots[k].valid then 1 else 0
  }

  lemma FirstFree(t: Module)
    requires Partition(t) && t.free != []
    ensures t.free[0] < |t.slots| && !t.slots[t.free[0]].valid
  {
    CountMember(t.free, t.free[0]);
  }

  lemma AddKeepsPartition(t: Module, delay: nat)
    requires Partition(t)
    ensures Partition(Add(t, delay).0)
  {
    if t.free != [] {
      FirstFree(t);
      forall k: nat ensures Count(t.free, k) == Same(t.free[0], k) + Count(t.free[1..], k) {
        SumHead(t.free, Same, k);
      }
    }
  }

  lemma ReleaseKeepsPartition(t: Module, i: nat)
    requires Partition(t) && i < |t.slots| && t.slots[i].valid
    ensures Partition(Release(t, i))
  {
    forall k: nat ensures Count([i] + t.free, k) == Same(i, k) + Count(t.free, k) {
      SumHead([i] + t.free, Same, k);
    }
  }

  lemma PerformKeepsPartition(t: Module, a: Action)
    requires Partition(t)
    ensures Partition(Perform(t, a))
  {
    hide Sum;
    AddKeepsPartition(t, if a.AddLarge? then Delay(a.unit, INTERVAL_LARGE_UNIT) else if a.AddSmall? then Delay(a.unit, INTERVAL_SMALL_UNIT) else 0);
    if a.Cancel? && a.index < |t.slots| && t.slots[a.index].valid {
      ReleaseKeepsPartition(t, a.index);
      assert CancelAt(t, a.index).free == t.free || CancelAt(t, a.index).free == Release(t, a.index).free;
    }
  }

  lemma {:induction false} PerformAllKeepsPartition(t: Module, acts: seq<Action>)
    requires Partition(t)
    ensures Partition(PerformAll(t, acts))
    decreases |acts|
  {
    hide Partition;
    if acts != [] {
      PerformKeepsPartition(t, acts[0]);
      PerformAllKeepsPartition(Perform(t, acts[0]), acts[1..]);
    }
  }

  lemma CallingKeepsPartition(t: Module, i: nat)
    requires Partition(t) && i < |t.slots|
    ensures Partition(Calling(t, i))
  {
  }

  lemma VisitKeepsPartition(t: Module, i: nat, gap: seq<Action>, acts: seq<Action>)
    requires Partition(t) && i < |t.slots|
    ensures Partition(Visit(t, i, gap, acts))
  {
    if Due(t, i) {
      var u := PerformAll(t, gap);
      PerformAllKeepsPartition(t, gap);
      CallingKeepsPartition(u, i);
      PerformAllKeepsPartition(Calling(u, i), acts);
      FinishKeepsPartition(PerformAll(Calling(u, i), acts), i);
    }
  }

  lemma FinishKeepsPartition(t: Module, i: nat)
    requires Partition(t) && i < |t.slots|
    ensures Partition(Finish(t, i))
  {
    if t.slots[i].valid {
      ReleaseKeepsPartition(t, i);
      assert Finish(t, i).free == Release(t, i).free && Finish(t, i).slots == Release(t, i).slots;
    }
  }

  lemma {:induction false} SweepFromKeepsPartition(t: Module, i: nat, script: seq<Turn>)
    requires Partition(t) && i <= |t.slots| == |script|
    ensures Partition(SweepFrom(t, i, script))
    decreases |script| - i
  {
    hide Partition, Visit;
    if i < |script| {
      var turn := script[i];
      PerformAllKeepsPartition(t, turn.others);
      VisitKeepsPartition(PerformAll(t, turn.others), i, turn.gap, turn.routine);
      SweepFromKeepsPartition(TurnOf(t, i, turn), i + 1, script);
    }
  }
}
