/**
 Runs from the initial state, with any number of slots, in which a timer is dropped, fires early, or
 is called although cancelled.
 */
module TimerEdges {
  import opened Common
  import opened Timers
  import opened TimerRuns

  const NOTHING := Turn([], [], [])

  /** A sweep in which only slot 0 sees anything happen. */
  function AtFirst(n: nat, turn: Turn): seq<Turn> { seq(n, k => if k == 0 then turn else NOTHING) }

  /** One timer, in slot 0, due at stamp 1000. */
  ghost predicate OneTimer(t: Module, n: nat) {
    && |t.slots| == n > 0 && t.slots[0] == Slot(true, 1000, Some(0), 0)
    && (forall k :: 0 < k < n ==> !t.slots[k].valid)
    && t.armed == [Armed(0, 1000)] && t.fired == [] && t.cancelled == [] && t.lost == [] && t.stale == []
  }

  lemma FirstTimer(n: nat)
    requires n > 0
    ensures OneTimer(Step(Init(n), Do(AddLarge(2))), n) && Step(Init(n), Do(AddLarge(2))).now == 0
  {
    assert Upto(n)[0] == 0;
  }

  /** Slots not in use are passed over. */
  lemma {:induction false} QuietSweep(t: Module, pos: nat, script: seq<Turn>)
    requires pos <= |t.slots| == |script| && forall k :: pos <= k < |script| ==> script[k] == NOTHING && !t.slots[k].valid
    ensures SweepFrom(t, pos, script) == t
    decreases |script| - pos
  {
    if pos < |script| {
      assert TurnOf(t, pos, script[pos]) == t;
      QuietSweep(t, pos + 1, script);
    }
  }

  /** The timer is cancelled at its deadline, and its slot is the next to be handed out. */
  lemma AfterCancel(t: Module, n: nat)
    requires OneTimer(t, n) && t.now == 1000
    ensures var u := Perform(t, Cancel(0));
      && u.slots == t.slots[0 := Slot(false, 1000, None, 0)] && u.free == [0] + t.free && u.cancelled == [0]
      && u.armed == t.armed && u.fired == [] && u.lost == [] && u.stale == [] && u.now == 1000
  {
  }

  /** The next addition gets it. */
  lemma AfterCancelAndAdd(t: Module, n: nat)
    requires OneTimer(t, n) && t.now == 1000
    ensures var u := PerformAll(t, [Cancel(0), AddLarge(2)]);
      && u.slots == t.slots[0 := Slot(true, 2000, Some(1), 1)] && u.cancelled == [0]
      && u.armed == [Armed(0, 1000), Armed(1000, 1000)] && u.fired == [] && u.lost == [] && u.stale == [] && u.now == 1000
  {
    AfterCancel(t, n);
    var u := Perform(t, Cancel(0));
    var acts := [Cancel(0), AddLarge(2)];
    assert acts[1..] == [AddLarge(2)] && acts[1..][1..] == [];
    assert PerformAll(t, acts) == PerformAll(u, [AddLarge(2)]) == Perform(u, AddLarge(2));
    assert u.free[0] == 0;
  }

  /** The run: the timer is added, and a sweep reaches its deadline. */
  lemma SweepAtDeadline(n: nat, turn: Turn) returns (ts: seq<Module>, t: Module)
    requires n > 0 && turn.others == []
    requires forall u :: OneTimer(u, n) && u.now == 1000 ==>
      forall k :: 0 <= k < n ==> !Visit(u, 0, turn.gap, turn.routine).slots[k].valid
    ensures IsRun(ts, [Do(AddLarge(2)), Tick(AtFirst(n, turn))]) && ts[0] == Init(n)
    ensures OneTimer(t, n) && t.now == 1000 && ts[2] == Visit(t, 0, turn.gap, turn.routine)
  {
    FirstTimer(n);
    hide Visit, Init;
    var s := Step(Init(n), Do(AddLarge(2)));
    var script := AtFirst(n, turn);
    t := s.(now := 1000);
    var v := Visit(t, 0, turn.gap, turn.routine);
    assert PerformAll(t, []) == t;
    QuietSweep(v, 1, script);
    assert Sweep(s, script) == SweepFrom(t, 0, script) == SweepFrom(v, 1, script);
    ts := [Init(n), s, Sweep(s, script)];
  }

  /** A timer is dropped: the routine cancels its own handle and adds a timer, which gets that slot. */
  lemma DroppedOnce(n: nat) returns (ts: seq<Module>)
    requires n > 0
    ensures IsRun(ts, [Do(AddLarge(2)), Tick(AtFirst(n, Turn([], [], [Cancel(0), AddLarge(2)])))]) && ts[0] == Init(n)
    ensures ts[2].lost == [1] && ts[2].fired == [Fired(0, 1000)]
  {
    var acts := [Cancel(0), AddLarge(2)];
    forall u | OneTimer(u, n) && u.now == 1000
      ensures var v := Visit(u, 0, [], acts);
        v.lost == [1] && v.fired == [Fired(0, 1000)] && forall k :: 0 <= k < n ==> !v.slots[k].valid {
      CalledThenRearmed(u, n);
    }
    hide Visit;
    var t;
    ts, t := SweepAtDeadline(n, Turn([], [], acts));
  }

  lemma CalledThenRearmed(t: Module, n: nat)
    requires OneTimer(t, n) && t.now == 1000
    ensures var v := Visit(t, 0, [], [Cancel(0), AddLarge(2)]);
      v.lost == [1] && v.fired == [Fired(0, 1000)] && forall k :: 0 <= k < n ==> !v.slots[k].valid
  {
    var c := Calling(t, 0);
    var acts := [Cancel(0), AddLarge(2)];
    assert PerformAll(t, []) == t;
    assert acts[1..] == [AddLarge(2)] && acts[1..][1..] == [];
    var u := Perform(c, Cancel(0));
    assert u.free[0] == 0 && u.lost == [] && u.fired == [Fired(0, 1000)];
    var w := Perform(u, AddLarge(2));
    assert PerformAll(c, acts) == PerformAll(u, [AddLarge(2)]) == w;
    assert w.slots[0] == Slot(true, 2000, Some(1), 1);
    hide Perform, PerformAll;
  }

  /** A timer fires at once: others cancel the one found due and add one before the routine is read. */
  lemma FiredEarly(n: nat) returns (ts: seq<Module>)
    requires n > 0
    ensures IsRun(ts, [Do(AddLarge(2)), Tick(AtFirst(n, Turn([], [Cancel(0), AddLarge(2)], [])))]) && ts[0] == Init(n)
    ensures ts[2].fired == [Fired(1, 1000)] && ts[2].cancelled == [0]
    ensures |ts[2].armed| == 2 && Deadline(ts[2].armed[1]) == 2000
  {
    var gap := [Cancel(0), AddLarge(2)];
    forall u | OneTimer(u, n) && u.now == 1000
      ensures var v := Visit(u, 0, gap, []);
        && v.fired == [Fired(1, 1000)] && v.cancelled == [0] && v.armed == [Armed(0, 1000), Armed(1000, 1000)]
        && forall k :: 0 <= k < n ==> !v.slots[k].valid {
      AfterCancelAndAdd(u, n);
      var c := Calling(PerformAll(u, gap), 0);
      hide Perform;
      assert PerformAll(c, []) == c;
    }
    hide Visit;
    var t;
    ts, t := SweepAtDeadline(n, Turn([], gap, []));
  }

  /** A cancelled timer's routine is called: others cancel it before the routine is read. */
  lemma CalledThoughCancelled(n: nat) returns (ts: seq<Module>)
    requires n > 0
    ensures IsRun(ts, [Do(AddLarge(2)), Tick(AtFirst(n, Turn([], [Cancel(0)], [])))]) && ts[0] == Init(n)
    ensures ts[2].stale == [0] && ts[2].cancelled == [0] && ts[2].fired == []
  {
    var gap := [Cancel(0)];
    forall u | OneTimer(u, n) && u.now == 1000
      ensures var v := Visit(u, 0, gap, []);
        && v.stale == [0] && v.cancelled == [0] && v.fired == [] && forall k :: 0 <= k < n ==> !v.slots[k].valid {
      AfterCancel(u, n);
      assert gap[1..] == [] && PerformAll(u, gap) == Perform(u, Cancel(0));
      var c := Calling(PerformAll(u, gap), 0);
      hide Perform;
      assert PerformAll(c, []) == c;
    }
    hide Visit;
    var t;
    ts, t := SweepAtDeadline(n, Turn([], gap, []));
  }
}
