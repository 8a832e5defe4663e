/** When a timer is due and when it fires, in terms of the units asked for. */
module TimerRequests {
  import opened Common
  import opened Timers
  import opened TimerRuns

  /** A unit of Timer_AddRequest is 500 of the stamp, one of Timer_AddSmallRequest 100. */
  function UnitOf(large: bool): nat { if large then 500 else 100 }

  function Request(large: bool, units: nat): Action { if large then AddLarge(units) else AddSmall(units) }

  /**
   What an addition does, in any state: with a tag to be had, its slot is armed, due after the units
   asked for, as far as 32 bits hold the product; without one, nothing.
   */
  lemma ArmsAsAsked(t: Module, large: bool, units: nat)
    requires Partition(t)
    ensures var u := Perform(t, Request(large, units));
      var delay := units * UnitOf(large) % 0x1_0000_0000;
      if t.free == [] then u == t
      else
        && t.free[0] < |t.slots| && u.armed == t.armed + [Armed(t.now, delay)]
        && u.slots == t.slots[t.free[0] := Slot(true, t.now + delay, Some(|t.armed|), |t.armed|)]
    ensures units * UnitOf(large) < 0x1_0000_0000 ==> units * UnitOf(large) % 0x1_0000_0000 == units * UnitOf(large)
  {
    if t.free != [] {
      FirstFree(t);
    }
    hide Partition;
  }

  lemma {:induction false} SweepArms(t: Module, pos: nat, script: seq<Turn>)
    requires pos <= |t.slots| == |script|
    ensures t.armed <= SweepFrom(t, pos, script).armed && SweepFrom(t, pos, script).now == t.now
    decreases |script| - pos
  {
    hide PerformAll;
    if pos < |script| {
      var u := PerformAll(t, script[pos].others);
      SameNowAll(t, script[pos].others);
      if Due(u, pos) {
        var g := PerformAll(u, script[pos].gap);
        SameNowAll(u, script[pos].gap);
        SameNowAll(Calling(g, pos), script[pos].routine);
      }
      SweepArms(TurnOf(t, pos, script[pos]), pos + 1, script);
    }
  }

  /** Accepted timers stay on record, and a sweep moves the stamp on by 1000. */
  lemma StepArms(t: Module, e: Event)
    requires Legal(t, e)
    ensures t.armed <= Step(t, e).armed && Step(t, e).now == t.now + if e.Tick? then 1000 else 0
  {
    match e
    case Do(a) => SameNow(t, a);
    case Tick(script) => SweepArms(t.(now := t.now + INTERVAL_OS), 0, script);
    hide Perform, SweepFrom;
  }

  lemma {:induction false} RunArms(ts: seq<Module>, es: seq<Event>, i: nat)
    requires IsRun(ts, es) && i <= |es|
    ensures ts[i].armed <= ts[|es|].armed
    decreases |es|
  {
    hide Step;
    if i < |es| {
      var n := |es| - 1;
      RunArms(ts[..|es|], es[..n], i);
      StepArms(ts[n], es[n]);
    }
  }

  /** The stamp is 1000 for every sweep there has been. */
  function Sweeps(es: seq<Event>): nat {
    if es == [] then 0 else Sweeps(es[..|es| - 1]) + if es[|es| - 1].Tick? then 1 else 0
  }

  lemma {:induction false} StampCountsSweeps(n: nat, ts: seq<Module>, es: seq<Event>)
    requires IsRun(ts, es) && ts[0] == Init(n)
    ensures ts[|es|].now == 1000 * Sweeps(es)
    decreases |es|
  {
    hide Step;
    if es != [] {
      StampCountsSweeps(n, ts[..|es|], es[..|es| - 1]);
      StepArms(ts[|es| - 1], es[|es| - 1]);
    }
  }

  /**
   A request made when a slot is not in use is recorded, due so many units later; and if nobody cancels
   a timer that is being called, it has fired once when a sweep has reached that stamp, unless it was
   cancelled, and in the first sweep that did.
   */
  lemma FiresAsAsked(n: nat, ts: seq<Module>, es: seq<Event>, i: nat, large: bool, units: nat)
    requires IsRun(ts, es) && ts[0] == Init(n) && n <= NO_CURRENT_TIMER && forall e <- es :: Polite(e)
    requires i < |es| && es[i] == Do(Request(large, units))
    requires exists k :: 0 <= k < |ts[i].slots| && !ts[i].slots[k].valid
    requires 0 < units * UnitOf(large) < 0x1_0000_0000
    ensures var t := ts[|es|]; var k: nat := |ts[i].armed|; var due := ts[i].now + units * UnitOf(large);
      && k < |t.armed| && t.armed[k] == Armed(ts[i].now, units * UnitOf(large))
      && (due <= t.now && Count(t.cancelled, k) == 0 ==> Sum(t.fired, Calls, k) == 1)
      && (forall j :: 0 <= j < |t.fired| && t.fired[j].serial == k ==> t.fired[j].at - 1000 < due <= t.fired[j].at)
  {
    var t := ts[|es|];
    var k: nat := |ts[i].armed|;
    EveryRun(n, ts[..i + 1], es[..i], 0);
    AcceptedExactly(n, ts[..i + 1], es[..i], 0);
    ArmsAsAsked(ts[i], large, units);
    assert ts[i + 1] == Step(ts[i], es[i]);
    RunArms(ts, es, i + 1);
    hide IsRun, Partition, Pending, ValidOwe, OneFate, Step, Polite, OnTime;
    if t.armed[k].delay > 0 && Deadline(t.armed[k]) <= t.now {
      FiresExactlyOnce(n, ts, es, k);
    }
    forall j | 0 <= j < |t.fired| && t.fired[j].serial == k ensures t.fired[j].at - 1000 < Deadline(t.armed[k]) <= t.fired[j].at {
      FiredOnTime(n, ts, es, j);
      NothingDropped(n, ts, es);
    }
  }
}
