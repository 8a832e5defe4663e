/** The timer module as it is written: slots in an array, updated in place, and a sweep that calls out. */
module TimerModule {
  import opened Common
  import opened Timers

  class TimerPool {
    var timeStamp: nat
    const runningRequests: array<Slot>
    var tagPool: seq<nat>
    var armed: seq<Armed>
    var fired: seq<Fired>
    var cancelled: seq<nat>
    var lost: seq<nat>
    var stale: seq<nat>

    ghost function State(): Module
      reads this, runningRequests
    {
      Module(timeStamp, runningRequests[..], tagPool, armed, fired, cancelled, lost, stale)
    }

    ghost predicate Valid()
      reads this, runningRequests
    {
      Partition(State())
    }

    /** Timer_Initialize; the tag pool hands out the lowest slot first. */
    constructor Initialize(n: nat)
      ensures fresh(runningRequests) && Valid()
      ensures State() == Init(n)
    {
      runningRequests := new Slot[n](i => Slot(false, 0, None, 0));
      tagPool := Upto(n);
      timeStamp, armed, fired, cancelled, lost, stale := 0, [], [], [], [], [];
      new;
      forall k: nat ensures Count(Upto(n), k) == if k < n then 1 else 0 {
        CountUpto(n, k);
      }
    }

    /** Timer_AddRequest (large unit) and Timer_AddSmallRequest (small unit). */
    method AddRequest(unit: nat, interval: nat) returns (index: nat)
      requires Valid()
      modifies this`tagPool, this`armed, runningRequests
      ensures Valid()
      ensures State() == Add(old(State()), Delay(unit, interval)).0
      ensures index == Add(old(State()), Delay(unit, interval)).1
      ensures old(tagPool) != [] ==>
        && index < runningRequests.Length && runningRequests[index].valid
        && runningRequests[index].stamp == timeStamp + unit * interval % 0x1_0000_0000
    {
      AddKeepsPartition(State(), Delay(unit, interval));
      if tagPool != [] {
        FirstFree(State());
      }
      if tagPool != [] {
        index := tagPool[0];
        tagPool := tagPool[1..];
        runningRequests[index] := Slot(true, timeStamp + Delay(unit, interval), Some(|armed|), |armed|);
        armed := armed + [Armed(timeStamp, Delay(unit, interval))];
      } else {
        index := NO_CURRENT_TIMER;
      }
    }

    method ReleaseSlot(i: nat)
      requires i < runningRequests.Length
      modifies this`tagPool, runningRequests
      ensures State() == Release(old(State()), i)
    {
      runningRequests[i] := runningRequests[i].(valid := false, serial := None);
      tagPool := [i] + tagPool;
    }

    /** Timer_CancelRequest: handles that name no slot, or an overdue timer, are ignored. */
    method CancelRequest(index: nat)
      requires Valid()
      modifies this`tagPool, this`cancelled, runningRequests
      ensures Valid()
      ensures State() == CancelAt(old(State()), index)
    {
      PerformKeepsPartition(State(), Cancel(index));
      if index < runningRequests.Length {
        if runningRequests[index].valid && runningRequests[index].stamp >= timeStamp {
          cancelled := cancelled + Owed(runningRequests[index].serial);
          ReleaseSlot(index);
        }
      }
    }

    /** What a routine does: `acts`, one call after the other. */
    method RunRoutine(acts: seq<Action>)
      requires Valid()
      modifies this`tagPool, this`armed, this`cancelled, runningRequests
      ensures Valid()
      ensures State() == PerformAll(old(State()), acts)
    {
      var k := 0;
      while k < |acts|
        invariant k <= |acts| && Valid()
        invariant PerformAll(State(), acts[k..]) == PerformAll(old(State()), acts)
      {
        var index;
        assert acts[k..][1..] == acts[k + 1..];
        match acts[k] {
          case AddLarge(unit) => index := AddRequest(unit, INTERVAL_LARGE_UNIT);
          case AddSmall(unit) => index := AddRequest(unit, INTERVAL_SMALL_UNIT);
          case Cancel(i) => CancelRequest(i);
        }
        k := k + 1;
      }
    }

    /** Timer_CheckRequest; `script[i]` is what happens at slot `i` while the lock is free. */
    method CheckRequest(script: seq<Turn>)
      requires Valid() && |script| == runningRequests.Length
      modifies this, runningRequests
      ensures Valid()
      ensures State() == Sweep(old(State()), script)
    {
      timeStamp := timeStamp + INTERVAL_OS;
      var i := 0;
      ghost var start := State();
      while i < runningRequests.Length
        invariant i <= runningRequests.Length && Valid()
        invariant SweepFrom(State(), i, script) == SweepFrom(start, 0, script)
        decreases runningRequests.Length - i
      {
        CheckSlot(i, script[i]);
        i := i + 1;
      }
    }

    /** One pass of the sweep's loop, before which others may have the lock. */
    method CheckSlot(i: nat, turn: Turn)
      requires Valid() && i < runningRequests.Length
      modifies this`tagPool, this`armed, this`fired, this`cancelled, this`lost, this`stale, runningRequests
      ensures State() == TurnOf(old(State()), i, turn)
      ensures Valid()
    {
      hide Partition, Sum;
      RunRoutine(turn.others);
      LookAt(i, turn.gap, turn.routine);
    }

    /** A slot that is due has its routine read and called, without the lock, and is released if still valid. */
    method LookAt(i: nat, gap: seq<Action>, acts: seq<Action>)
      requires Valid() && i < runningRequests.Length
      modifies this`tagPool, this`armed, this`fired, this`cancelled, this`lost, this`stale, runningRequests
      ensures State() == Visit(old(State()), i, gap, acts)
      ensures Valid()
    {
      hide Partition, Sum;
      VisitKeepsPartition(State(), i, gap, acts);
      if runningRequests[i].valid && runningRequests[i].stamp <= timeStamp {
        RunRoutine(gap);
        Call(i);
        RunRoutine(acts);
        if runningRequests[i].valid {
          lost := lost + Owed(runningRequests[i].serial);
          ReleaseSlot(i);
        }
      }
    }

    /** The routine is read from the slot and called, whatever has become of the slot since it was looked at. */
    method Call(i: nat)
      requires Valid() && i < runningRequests.Length
      modifies this`fired, this`stale, runningRequests
      ensures State() == Calling(old(State()), i)
      ensures Valid()
    {
      CallingKeepsPartition(State(), i);
      hide Partition, Sum;
      if runningRequests[i].serial.Some? {
        fired := fired + [Fired(runningRequests[i].routine, timeStamp)];
        runningRequests[i] := runningRequests[i].(serial := None);
      } else {
        stale := stale + [runningRequests[i].routine];
      }
    }
  }
}
