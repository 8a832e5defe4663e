/** What timers are promised, over every run of adds, cancels and sweeps. */
module TimerRuns {
  import opened Common
  import opened Timers

  // ---------------------------------------------------------------- in the gap

  /** What one call leaves as it is. */
  lemma SameNow(t: Module, a: Action)
    ensures var u := Perform(t, a);
      && u.now == t.now && u.fired == t.fired && u.lost == t.lost && u.stale == t.stale
      && t.armed <= u.armed && t.cancelled <= u.cancelled
  {
  }

  lemma {:induction false} SameNowAll(t: Module, acts: seq<Action>)
    ensures var u := PerformAll(t, acts);
      && u.now == t.now && u.fired == t.fired && u.lost == t.lost && u.stale == t.stale
      && t.armed <= u.armed && t.cancelled <= u.cancelled
    decreases |acts|
  {
    hide Perform;
    if acts != [] {
      SameNow(t, acts[0]);
      SameNowAll(Perform(t, acts[0]), acts[1..]);
    }
  }

  lemma CountPrefix(a: seq<nat>, b: seq<nat>, n: nat)
    requires a <= b
    ensures Count(a, n) <= Count(b, n)
  {
    assert b == a + b[|a|..];
    SumConcat(a, b[|a|..], Same, n);
  }

  /** Slot `i` holds a timer, and names its routine. */
  predicate Holds(t: Module, i: nat) {
    && i < |t.slots| && t.slots[i].valid && t.slots[i].serial == Some(t.slots[i].routine)
    && t.slots[i].routine < |t.armed|
  }

  /**
   What any calls may have made of slot `i`, which held a timer in `t`: nothing; or it holds
   another one, armed since; or it is free, and names the routine of a timer cancelled since.
   */
  ghost predicate Since(t: Module, u: Module, i: nat)
    requires i < |t.slots| == |u.slots|
  {
    var s := u.slots[i];
    || s == t.slots[i]
    || (Holds(u, i) && s.routine >= |t.armed| && u.armed[s.routine].at == t.now)
    || (!s.valid && s.serial == None && Count(u.cancelled, s.routine) > Count(t.cancelled, s.routine))
  }

  lemma CancelSince(t: Module, u: Module, k: nat, i: nat)
    requires Holds(t, i) && |u.slots| == |t.slots| && Since(t, u, i) && t.armed <= u.armed && t.cancelled <= u.cancelled
    ensures Since(t, CancelAt(u, k), i)
  {
    var s := u.slots[i].routine;
    var c := CancelAt(u, k);
    CountPrefix(t.cancelled, u.cancelled, s);
    CountPrefix(u.cancelled, c.cancelled, s);
    if k == i && u.slots[i].valid {
      CountSnoc(u.cancelled, s, s);
    }
    hide Sum;
  }

  lemma AddSince(t: Module, u: Module, delay: nat, i: nat)
    requires Holds(t, i) && |u.slots| == |t.slots| && Since(t, u, i) && t.armed <= u.armed && u.now == t.now
    ensures Since(t, Add(u, delay).0, i)
  {
    hide Sum;
  }

  lemma {:induction false} PerformAllSince(t: Module, u: Module, acts: seq<Action>, i: nat)
    requires Holds(t, i) && |u.slots| == |t.slots| && Since(t, u, i)
    requires t.armed <= u.armed && t.cancelled <= u.cancelled && u.now == t.now
    ensures Since(t, PerformAll(u, acts), i)
    decreases |acts|
  {
    hide Since, Add, CancelAt;
    if acts != [] {
      SameNow(u, acts[0]);
      match acts[0] {
        case AddLarge(unit) => AddSince(t, u, Delay(unit, INTERVAL_LARGE_UNIT), i);
        case AddSmall(unit) => AddSince(t, u, Delay(unit, INTERVAL_SMALL_UNIT), i);
        case Cancel(k) => CancelSince(t, u, k, i);
      }
      PerformAllSince(t, Perform(u, acts[0]), acts[1..], i);
    }
  }

  // ---------------------------------------------------------------- in time

  function Deadline(a: Armed): nat { a.at + a.delay }

  /** The slot of a pending timer carries its deadline; slots before `pos` have been swept at `now`. */
  ghost predicate Pending(t: Module, pos: nat) {
    forall k :: 0 <= k < |t.slots| && t.slots[k].serial.Some? ==>
      && Holds(t, k)
      && var s, a := t.slots[k], t.armed[t.slots[k].routine];
      && s.stamp == Deadline(a)
      && a.at <= t.now
      && var seen := if k < pos then t.now else t.now - INTERVAL_OS;
         s.stamp > seen || (a.delay == 0 && s.stamp == seen)
  }

  /** Not early, and less than one sweep interval late; a timer of no delay may be a whole interval late. */
  predicate Punctual(f: Fired, a: Armed) {
    && Deadline(a) <= f.at
    && (f.at < Deadline(a) + INTERVAL_OS || (a.delay == 0 && f.at == Deadline(a) + INTERVAL_OS))
  }

  /** What is fired is fired on time, or at the stamp at which it was added. */
  ghost predicate OnTime(t: Module) {
    forall j :: 0 <= j < |t.fired| ==>
      var f := t.fired[j];
      f.serial < |t.armed| && (Punctual(f, t.armed[f.serial]) || t.armed[f.serial].at == f.at)
  }

  /** Slot `busy` apart, every valid slot owes a call. */
  ghost predicate ValidOwe(t: Module, busy: int) {
    forall k :: 0 <= k < |t.slots| && k != busy && t.slots[k].valid ==> t.slots[k].serial.Some?
  }

  ghost predicate Timely(t: Module, pos: nat, busy: int) {
    Partition(t) && Pending(t, pos) && OnTime(t) && ValidOwe(t, busy)
  }

  lemma AddTimely(t: Module, delay: nat, pos: nat, busy: int)
    requires Timely(t, pos, busy)
    ensures Timely(Add(t, delay).0, pos, busy)
  {
    AddKeepsPartition(t, delay);
    hide Partition, Sum;
  }

  lemma CancelTimely(t: Module, i: nat, pos: nat, busy: int)
    requires Timely(t, pos, busy)
    ensures Timely(CancelAt(t, i), pos, busy)
  {
    PerformKeepsPartition(t, Cancel(i));
    hide Partition, Sum;
  }

  lemma {:induction false} PerformAllTimely(t: Module, acts: seq<Action>, pos: nat, busy: int)
    requires Timely(t, pos, busy)
    ensures Timely(PerformAll(t, acts), pos, busy) && PerformAll(t, acts).now == t.now
    decreases |acts|
  {
    hide Partition, Pending, OnTime, ValidOwe, Add, CancelAt;
    if acts != [] {
      var a := acts[0];
      PerformKeepsPartition(t, a);
      match a {
        case AddLarge(unit) => AddTimely(t, Delay(unit, INTERVAL_LARGE_UNIT), pos, busy);
        case AddSmall(unit) => AddTimely(t, Delay(unit, INTERVAL_SMALL_UNIT), pos, busy);
        case Cancel(i) => CancelTimely(t, i, pos, busy);
      }
      SameNow(t, a);
      PerformAllTimely(Perform(t, a), acts[1..], pos, busy);
    }
  }

  /** The call of the routine in slot `i`, found due in `t`, after the calls in the gap. */
  lemma CallingTimely(t: Module, u: Module, i: nat)
    requires Timely(t, i, -1) && i < |t.slots| == |u.slots| && Due(t, i)
    requires Timely(u, i, -1) && Since(t, u, i) && u.now == t.now && t.armed <= u.armed
    ensures Timely(Calling(u, i), i + 1, i)
  {
    CallingKeepsPartition(u, i);
    hide Partition, Sum, OnTime, Since;
  }

  lemma FinishTimely(t: Module, i: nat, pos: nat)
    requires Timely(t, pos, i) && i < |t.slots|
    ensures Timely(Finish(t, i), pos, -1)
  {
    FinishKeepsPartition(t, i);
    hide Partition, Sum;
  }

  lemma VisitTimely(t: Module, i: nat, gap: seq<Action>, acts: seq<Action>)
    requires Timely(t, i, -1) && i < |t.slots|
    ensures Timely(Visit(t, i, gap, acts), i + 1, -1) && Visit(t, i, gap, acts).now == t.now
  {
    hide Partition, Sum, PerformAll, Since;
    if Due(t, i) {
      var u := PerformAll(t, gap);
      assert Holds(t, i);
      PerformAllTimely(t, gap, i, -1);
      SameNowAll(t, gap);
      SinceItself(t, i);
      PerformAllSince(t, t, gap, i);
      CallingTimely(t, u, i);
      PerformAllTimely(Calling(u, i), acts, i + 1, i);
      FinishTimely(PerformAll(Calling(u, i), acts), i, i + 1);
    }
  }

  lemma SinceItself(t: Module, i: nat)
    requires i < |t.slots|
    ensures Since(t, t, i)
  {
  }

  lemma TurnTimely(t: Module, i: nat, turn: Turn)
    requires Timely(t, i, -1) && i < |t.slots|
    ensures Timely(PerformAll(t, turn.others), i, -1)
    ensures Timely(TurnOf(t, i, turn), i + 1, -1) && TurnOf(t, i, turn).now == t.now
  {
    hide Timely, Visit;
    PerformAllTimely(t, turn.others, i, -1);
    VisitTimely(PerformAll(t, turn.others), i, turn.gap, turn.routine);
  }

  lemma {:induction false} SweepFromTimely(t: Module, i: nat, script: seq<Turn>)
    requires Timely(t, i, -1) && i <= |t.slots| == |script|
    ensures Timely(SweepFrom(t, i, script), |script|, -1) && SweepFrom(t, i, script).now == t.now
    decreases |script| - i
  {
    hide Timely, TurnOf;
    if i < |script| {
      TurnTimely(t, i, script[i]);
      SweepFromTimely(TurnOf(t, i, script[i]), i + 1, script);
    }
  }

  // ---------------------------------------------------------------- every timer ends once

  ghost function Owes(s: Slot, serial: nat): nat { Count(Owed(s.serial), serial) }
  ghost function Calls(f: Fired, serial: nat): nat { Same(f.serial, serial) }

  /** How often timer `n` is pending, was fired, was cancelled or was dropped. */
  ghost function Fates(t: Module, n: nat): nat {
    Sum(t.slots, Owes, n) + Sum(t.fired, Calls, n) + Count(t.cancelled, n) + Count(t.lost, n)
  }

  /** A slot that owes a call is valid, and names the routine to be called. */
  ghost predicate OnlyValidOwe(t: Module) {
    forall k :: 0 <= k < |t.slots| && t.slots[k].serial.Some? ==>
      t.slots[k].valid && t.slots[k].serial == Some(t.slots[k].routine)
  }

  lemma OwedCount(o: Option<nat>, n: nat)
    ensures Count(Owed(o), n) == if o == Some(n) then 1 else 0
  {
    if o.Some? {
      CountSmall<nat>(o.value, n);
    } else {
      CountSmall<nat>(n, n);
      assert Owed(o) == [];
    }
  }

  lemma AddFates(t: Module, delay: nat, n: nat)
    requires Partition(t) && OnlyValidOwe(t)
    ensures var u := Add(t, delay).0;
      OnlyValidOwe(u) && Fates(u, n) == Fates(t, n) + if |u.armed| > |t.armed| && n == |t.armed| then 1 else 0
  {
    hide Sum;
    AddKeepsPartition(t, delay);
    if t.free != [] {
      FirstFree(t);
      var k := t.free[0];
      SumUpdate(t.slots, k, Slot(true, t.now + delay, Some(|t.armed|), |t.armed|), Owes, n);
      OwedCount(None, n);
      OwedCount(Some(|t.armed|), n);
    }
  }

  lemma ReleaseFates(t: Module, i: nat, n: nat)
    requires i < |t.slots| && OnlyValidOwe(t)
    ensures var u := Release(t, i);
      OnlyValidOwe(u) && Sum(u.slots, Owes, n) + Count(Owed(t.slots[i].serial), n) == Sum(t.slots, Owes, n)
  {
    hide Sum;
    SumUpdate(t.slots, i, t.slots[i].(valid := false, serial := None), Owes, n);
    OwedCount(None, n);
  }

  lemma PerformFates(t: Module, a: Action, n: nat)
    requires Partition(t) && OnlyValidOwe(t)
    ensures var u := Perform(t, a);
      && OnlyValidOwe(u) && |u.armed| <= |t.armed| + 1
      && Fates(u, n) == Fates(t, n) + if |u.armed| > |t.armed| && n == |t.armed| then 1 else 0
  {
    hide Sum;
    PerformKeepsPartition(t, a);
    match a
    case AddLarge(unit) => AddFates(t, Delay(unit, INTERVAL_LARGE_UNIT), n);
    case AddSmall(unit) => AddFates(t, Delay(unit, INTERVAL_SMALL_UNIT), n);
    case Cancel(i) =>
      if i < |t.slots| {
        ReleaseFates(t, i, n);
        SumConcat(t.cancelled, Owed(t.slots[i].serial), Same, n);
      }
  }

  /** Timers numbered below the count of accepted ones have one fate, the others none; only a cancelled one is stale. */
  ghost predicate OneFate(t: Module, n: nat) {
    && OnlyValidOwe(t) && Fates(t, n) == (if n < |t.armed| then 1 else 0)
    && Count(t.stale, n) <= Count(t.cancelled, n)
  }

  lemma {:induction false} PerformAllFates(t: Module, acts: seq<Action>, n: nat)
    requires Partition(t) && OneFate(t, n)
    ensures OneFate(PerformAll(t, acts), n)
    decreases |acts|
  {
    hide Sum, Fates, OnlyValidOwe, Partition, Perform;
    if acts != [] {
      PerformFates(t, acts[0], n);
      PerformKeepsPartition(t, acts[0]);
      SameNow(t, acts[0]);
      CountPrefix(t.cancelled, Perform(t, acts[0]).cancelled, n);
      PerformAllFates(Perform(t, acts[0]), acts[1..], n);
    }
  }

  lemma CallingFates(t: Module, u: Module, i: nat, n: nat)
    requires i < |t.slots| == |u.slots| && Holds(t, i) && Since(t, u, i) && u.stale == t.stale
    requires OneFate(u, n) && Count(t.stale, n) <= Count(t.cancelled, n)
    ensures OneFate(Calling(u, i), n)
  {
    hide Sum;
    var o := u.slots[i].serial;
    if o.Some? {
      SumUpdate(u.slots, i, u.slots[i].(serial := None), Owes, n);
      OwedCount(None, n);
      OwedCount(o, n);
      SumSnoc(u.fired, Fired(u.slots[i].routine, u.now), Calls, n);
    } else {
      CountSnoc(u.stale, u.slots[i].routine, n);
    }
  }

  lemma FinishFates(t: Module, i: nat, n: nat)
    requires i < |t.slots| && OneFate(t, n)
    ensures OneFate(Finish(t, i), n)
  {
    hide Sum;
    ReleaseFates(t, i, n);
    SumConcat(t.lost, Owed(t.slots[i].serial), Same, n);
  }

  lemma VisitFates(t: Module, i: nat, gap: seq<Action>, acts: seq<Action>, n: nat)
    requires Timely(t, i, -1) && i < |t.slots| && OneFate(t, n)
    ensures OneFate(Visit(t, i, gap, acts), n)
  {
    hide Sum, Fates, OnlyValidOwe, Since, PerformAll, Partition;
    if Due(t, i) {
      var u := PerformAll(t, gap);
      assert Holds(t, i);
      PerformAllFates(t, gap, n);
      PerformAllKeepsPartition(t, gap);
      SameNowAll(t, gap);
      SinceItself(t, i);
      PerformAllSince(t, t, gap, i);
      CallingFates(t, u, i, n);
      CallingKeepsPartition(u, i);
      PerformAllFates(Calling(u, i), acts, n);
      FinishFates(PerformAll(Calling(u, i), acts), i, n);
    }
  }

  lemma {:induction false} SweepFromFates(t: Module, i: nat, script: seq<Turn>, n: nat)
    requires Timely(t, i, -1) && i <= |t.slots| == |script| && OneFate(t, n)
    ensures OneFate(SweepFrom(t, i, script), n)
    decreases |script| - i
  {
    hide OneFate, Pending, OnTime, ValidOwe, Visit;
    if i < |script| {
      var turn := script[i];
      TurnTimely(t, i, turn);
      PerformAllFates(t, turn.others, n);
      VisitFates(PerformAll(t, turn.others), i, turn.gap, turn.routine, n);
      SweepFromFates(TurnOf(t, i, turn), i + 1, script, n);
    }
  }

  // ---------------------------------------------------------------- runs

  datatype Event = Do(action: Action) | Tick(script: seq<Turn>)

  predicate Legal(t: Module, e: Event) { e.Tick? ==> |e.script| == |t.slots| }

  function Step(t: Module, e: Event): (r: Module)
    requires Legal(t, e)
    ensures |r.slots| == |t.slots|
  {
    match e
    case Do(a) => Perform(t, a)
    case Tick(script) => Sweep(t, script)
  }

  /** The state after `es`, if they are legal one after the other. */
  ghost predicate IsRun(ts: seq<Module>, es: seq<Event>) {
    && |ts| == |es| + 1
    && forall i :: 0 <= i < |es| ==> Legal(ts[i], es[i]) && ts[i + 1] == Step(ts[i], es[i])
  }

  /** The stamp moves on, and no slot has been swept at the new one. */
  lemma TickTimely(t: Module)
    requires Timely(t, |t.slots|, -1)
    ensures Timely(t.(now := t.now + INTERVAL_OS), 0, -1)
  {
    hide Sum;
  }

  lemma StepTimely(t: Module, e: Event)
    requires Timely(t, |t.slots|, -1) && Legal(t, e)
    ensures var r := Step(t, e);
      |r.slots| == |t.slots| && Timely(r, |r.slots|, -1)
  {
    hide Timely, SweepFrom, Perform;
    match e
    case Do(a) =>
      PerformAllTimely(t, [a], |t.slots|, -1);
      assert PerformAll(t, [a]) == PerformAll(Perform(t, a), []);
    case Tick(script) =>
      TickTimely(t);
      SweepFromTimely(t.(now := t.now + INTERVAL_OS), 0, script);
  }

  lemma StepFates(t: Module, e: Event, n: nat)
    requires Timely(t, |t.slots|, -1) && Legal(t, e) && OneFate(t, n)
    ensures OneFate(Step(t, e), n)
  {
    hide Pending, OnTime, ValidOwe, SweepFrom, Perform, Partition, Sum;
    match e
    case Do(a) =>
      PerformAllFates(t, [a], n);
      assert PerformAll(t, [a]) == PerformAll(Perform(t, a), []);
    case Tick(script) =>
      TickTimely(t);
      SweepFromFates(t.(now := t.now + INTERVAL_OS), 0, script, n);
  }

  lemma Started(n: nat, k: nat)
    ensures Timely(Init(n), n, -1) && OneFate(Init(n), k)
  {
    forall i: nat ensures Count(Upto(n), i) == if i < n then 1 else 0 {
      CountUpto(n, i);
    }
    NothingOwed(n, k);
  }

  lemma {:induction false} NothingOwed(n: nat, k: nat)
    ensures Sum(seq(n, i => Slot(false, 0, None, 0)), Owes, k) == 0
  {
    if n > 0 {
      NothingOwed(n - 1, k);
      assert seq(n, i => Slot(false, 0, None, 0))[..n - 1] == seq(n - 1, i => Slot(false, 0, None, 0));
    }
  }

  /** Every state of every run keeps slots and tags apart, and timers accounted for and on time. */
  lemma {:induction false} EveryRun(n: nat, ts: seq<Module>, es: seq<Event>, k: nat)
    requires IsRun(ts, es) && ts[0] == Init(n)
    ensures var t := ts[|es|];
      |t.slots| == n && Timely(t, n, -1) && OneFate(t, k)
    decreases |es|
  {
    hide Timely, OneFate, Step;
    Started(n, k);
    if es != [] {
      EveryRun(n, ts[..|es|], es[..|es| - 1], k);
      StepTimely(ts[|es| - 1], es[|es| - 1]);
      StepFates(ts[|es| - 1], es[|es| - 1], k);
    }
  }

  /** Tags are never in the pool twice, nor there while their slot is in use, whatever was cancelled. */
  lemma SlotsAndTags(n: nat, ts: seq<Module>, es: seq<Event>, tag: nat)
    requires IsRun(ts, es) && ts[0] == Init(n)
    ensures var t := ts[|es|];
      |t.slots| == n && Count(t.free, tag) == if tag < n && !t.slots[tag].valid then 1 else 0
  {
    EveryRun(n, ts, es, 0);
  }

  /**
   A timer of some delay whose deadline a sweep has reached is no longer pending: it fired,
   was cancelled, or was dropped, one of the three and once only.  Its routine may have been
   called once without right, if it was cancelled.
   */
  lemma ExactlyOneFate(n: nat, ts: seq<Module>, es: seq<Event>, k: nat)
    requires IsRun(ts, es) && ts[0] == Init(n) && k < |ts[|es|].armed|
    requires ts[|es|].armed[k].delay > 0 && Deadline(ts[|es|].armed[k]) <= ts[|es|].now
    ensures var t := ts[|es|];
      && Sum(t.fired, Calls, k) + Count(t.cancelled, k) + Count(t.lost, k) == 1
      && Count(t.stale, k) <= Count(t.cancelled, k)
  {
    EveryRun(n, ts, es, k);
    NotPending(ts[|es|], k);
  }

  lemma NotPending(t: Module, k: nat)
    requires Pending(t, |t.slots|) && k < |t.armed| && t.armed[k].delay > 0 && Deadline(t.armed[k]) <= t.now
    ensures Sum(t.slots, Owes, k) == 0
  {
    forall i | 0 <= i < |t.slots| ensures Owes(t.slots[i], k) == 0 {
      OwedCount(t.slots[i].serial, k);
    }
    AllZero(t.slots, k);
  }

  lemma {:induction false} AllZero(s: seq<Slot>, k: nat)
    requires forall i :: 0 <= i < |s| ==> Owes(s[i], k) == 0
    ensures Sum(s, Owes, k) == 0
  {
    if s != [] {
      AllZero(s[..|s| - 1], k);
    }
  }

  /**
   Exact condition over every run: a timer fires early if and only if it fires at the stamp at
   which it was added, with some delay to go; otherwise less than one interval late, and later than
   the call that added it.
   */
  lemma FiredOnTime(n: nat, ts: seq<Module>, es: seq<Event>, j: nat)
    requires IsRun(ts, es) && ts[0] == Init(n) && j < |ts[|es|].fired|
    ensures var t := ts[|es|]; var f := t.fired[j];
      && f.serial < |t.armed|
      && var a := t.armed[f.serial];
      && (f.at < Deadline(a) <==> a.at == f.at && a.delay > 0)
      && f.at <= Deadline(a) + INTERVAL_OS
      && (f.at >= Deadline(a) && a.delay > 0 ==> a.at < f.at < Deadline(a) + INTERVAL_OS)
  {
    EveryRun(n, ts, es, 0);
    hide Partition, Pending, ValidOwe, OneFate, IsRun;
  }

  // ---------------------------------------------------------------- one call of one slot

  /** Between sweeps, cancelling a handle cancels the timer pending in its slot, and touches nothing if there is none. */
  lemma CancelsExactly(n: nat, ts: seq<Module>, es: seq<Event>, i: nat)
    requires IsRun(ts, es) && ts[0] == Init(n)
    ensures |ts[|es|].slots| == n
    ensures var t := ts[|es|]; var u := CancelAt(t, i);
      if i < n && t.slots[i].valid then
        && t.slots[i].serial.Some? && u.cancelled == t.cancelled + [t.slots[i].serial.value]
        && !u.slots[i].valid && u.free == [i] + t.free && u.armed == t.armed && u.fired == t.fired
      else u == t
  {
    EveryRun(n, ts, es, 0);
    hide Partition, OnTime, OneFate, IsRun;
  }

  /** A timer is accepted exactly when some slot is not in use; its handle is such a slot, now due at the deadline. */
  lemma AcceptedExactly(n: nat, ts: seq<Module>, es: seq<Event>, delay: nat)
    requires IsRun(ts, es) && ts[0] == Init(n) && n <= NO_CURRENT_TIMER
    ensures |ts[|es|].slots| == n
    ensures var t := ts[|es|]; var (u, handle) := Add(t, delay);
      && (handle != NO_CURRENT_TIMER <==> exists k :: 0 <= k < n && !t.slots[k].valid)
      && (handle == NO_CURRENT_TIMER ==> u == t)
      && (handle != NO_CURRENT_TIMER ==>
            && handle < n && !t.slots[handle].valid
            && u.armed == t.armed + [Armed(t.now, delay)]
            && u.slots == t.slots[handle := Slot(true, t.now + delay, Some(|t.armed|), |t.armed|)])
  {
    EveryRun(n, ts, es, 0);
    var t := ts[|es|];
    hide OnTime, OneFate, IsRun, Pending, ValidOwe;
    if t.free != [] {
      FirstFree(t);
    } else {
      forall k | 0 <= k < n ensures t.slots[k].valid {
        assert Count(t.free, k) == 0;
      }
    }
  }

  /** The handle an action returns; a cancellation returns none. */
  function Handle(t: Module, a: Action): nat
  {
    if a.Cancel? then NO_CURRENT_TIMER else Add(t, 0).1
  }

  /** Of the dealings with handle `i`, the last was an add that returned it. */
  function Rearmed(t: Module, acts: seq<Action>, i: nat, armed: bool): bool
    decreases |acts|
  {
    if acts == [] then armed
    else
      Rearmed(Perform(t, acts[0]), acts[1..], i,
              if acts[0] == Cancel(i) then false else armed || Handle(t, acts[0]) == i)
  }

  lemma {:induction false} RearmedOwes(t: Module, acts: seq<Action>, i: nat, armed: bool)
    requires Partition(t) && i < |t.slots| <= NO_CURRENT_TIMER
    requires armed <==> t.slots[i].serial.Some?
    requires armed ==> t.slots[i].valid && t.slots[i].stamp >= t.now
    ensures var s := PerformAll(t, acts).slots[i];
      && (s.serial.Some? <==> Rearmed(t, acts, i, armed))
      && (s.serial.Some? ==> s.valid)
    decreases |acts|
  {
    hide Sum;
    if acts != [] {
      PerformKeepsPartition(t, acts[0]);
      if t.free != [] {
        FirstFree(t);
      }
      RearmedOwes(Perform(t, acts[0]), acts[1..], i,
                  if acts[0] == Cancel(i) then false else armed || Handle(t, acts[0]) == i);
    }
  }

  /** A slot in use keeps its timer as long as its handle is not cancelled. */
  lemma {:induction false} NotRearmed(t: Module, acts: seq<Action>, i: nat)
    requires Partition(t) && i < |t.slots| <= NO_CURRENT_TIMER
    requires t.slots[i].valid && Cancel(i) !in acts
    ensures !Rearmed(t, acts, i, false) && PerformAll(t, acts).slots[i] == t.slots[i]
    decreases |acts|
  {
    hide Sum;
    if acts != [] {
      PerformKeepsPartition(t, acts[0]);
      if t.free != [] {
        FirstFree(t);
      }
      NotRearmed(Perform(t, acts[0]), acts[1..], i);
    }
  }

  /** A slot past its deadline keeps its timer whatever is called: it cannot be cancelled any more. */
  lemma {:induction false} LateIsNotRearmed(t: Module, acts: seq<Action>, i: nat)
    requires Partition(t) && i < |t.slots| <= NO_CURRENT_TIMER && t.slots[i].valid && t.slots[i].stamp < t.now
    ensures !Rearmed(t, acts, i, false) && PerformAll(t, acts).slots[i] == t.slots[i]
    decreases |acts|
  {
    hide Sum;
    if acts != [] {
      PerformKeepsPartition(t, acts[0]);
      if t.free != [] {
        FirstFree(t);
      }
      LateIsNotRearmed(Perform(t, acts[0]), acts[1..], i);
    }
  }

  /** A timer not past its deadline whose handle is cancelled is cancelled. */
  lemma {:induction false} CancelledIn(t: Module, acts: seq<Action>, i: nat)
    requires Partition(t) && Holds(t, i) && t.slots[i].stamp >= t.now && Cancel(i) in acts
    ensures Count(PerformAll(t, acts).cancelled, t.slots[i].routine) > 0
    decreases |acts|
  {
    hide Sum;
    var k := t.slots[i].routine;
    var u := Perform(t, acts[0]);
    SameNow(t, acts[0]);
    if acts[0] == Cancel(i) {
      CountSnoc(t.cancelled, k, k);
      SameNowAll(u, acts[1..]);
      CountPrefix(u.cancelled, PerformAll(u, acts[1..]).cancelled, k);
    } else {
      PerformKeepsPartition(t, acts[0]);
      if t.free != [] {
        FirstFree(t);
      }
      CancelledIn(u, acts[1..], i);
    }
  }

  // ---------------------------------------------------------------- what a visit calls

  /** The handle of a timer due at this very stamp is cancelled between the check and the read of the routine. */
  predicate CancelledInGap(t: Module, i: nat, gap: seq<Action>)
    requires i < |t.slots|
  {
    t.slots[i].stamp == t.now && Cancel(i) in gap
  }

  lemma GapKeeps(t: Module, i: nat, gap: seq<Action>)
    requires Partition(t) && i < |t.slots| <= NO_CURRENT_TIMER && Due(t, i) && !CancelledInGap(t, i, gap)
    ensures PerformAll(t, gap).slots[i] == t.slots[i]
  {
    hide Partition, PerformAll, Rearmed;
    if t.slots[i].stamp < t.now {
      LateIsNotRearmed(t, gap, i);
    } else {
      NotRearmed(t, gap, i);
    }
  }

  /** The timer cancelled in the gap does not come back to its slot. */
  lemma GapReplaces(t: Module, i: nat, gap: seq<Action>)
    requires i < |t.slots| <= NO_CURRENT_TIMER && Due(t, i) && CancelledInGap(t, i, gap)
    requires Timely(t, i, -1) && OneFate(t, t.slots[i].routine)
    ensures var u := PerformAll(t, gap);
      && (u.slots[i].serial.Some? <==> Rearmed(t, gap, i, true))
      && (u.slots[i].serial.Some? ==>
            Holds(u, i) && u.slots[i].routine >= |t.armed| && u.armed[u.slots[i].routine].at == t.now)
      && (u.slots[i].serial.None? ==> u.slots[i].routine in u.cancelled && u.slots[i].routine < |u.armed|)
  {
    assert Holds(t, i);
    var k := t.slots[i].routine;
    var u := PerformAll(t, gap);
    RearmedOwes(t, gap, i, true);
    CancelledIn(t, gap, i);
    SinceItself(t, i);
    PerformAllSince(t, t, gap, i);
    PerformAllFates(t, gap, k);
    hide Partition, PerformAll, Rearmed;
    if u.slots[i] == t.slots[i] {
      SumDrop(u.slots, i, Owes, k);
      OwedCount(u.slots[i].serial, k);
      assert false;
    }
    CountMember(u.cancelled, u.slots[i].routine);
    NamesArmed(t, gap, i);
    hide Sum;
  }

  /** The routine a slot names is that of a timer there has been. */
  lemma {:induction false} NamesArmed(t: Module, acts: seq<Action>, i: nat)
    requires i < |t.slots| && t.slots[i].routine < |t.armed|
    ensures PerformAll(t, acts).slots[i].routine < |PerformAll(t, acts).armed|
    decreases |acts|
  {
    if acts != [] {
      NamesArmed(Perform(t, acts[0]), acts[1..], i);
    }
  }

  /**
   Exact condition for a visit: the routine called is that of the timer found due, unless its
   handle was cancelled in the gap.  Then, if the slot was armed anew in the gap, it is that of the
   new timer, which so fires at the stamp at which it was added; and if not, it is that of a
   cancelled timer.
   */
  lemma CallsExactly(t: Module, i: nat, gap: seq<Action>, acts: seq<Action>)
    requires i < |t.slots| <= NO_CURRENT_TIMER && Due(t, i)
    requires Timely(t, i, -1) && OneFate(t, t.slots[i].routine)
    ensures var r := Visit(t, i, gap, acts);
      if !CancelledInGap(t, i, gap) then
        t.slots[i].serial.Some? && r.fired == t.fired + [Fired(t.slots[i].serial.value, t.now)] && r.stale == t.stale
      else if Rearmed(t, gap, i, true) then
        && |r.fired| == |t.fired| + 1 && r.stale == t.stale
        && var f := r.fired[|t.fired|];
        && |t.armed| <= f.serial < |r.armed| && f.at == t.now == r.armed[f.serial].at
      else
        && r.fired == t.fired && |r.stale| == |t.stale| + 1 && r.stale[|t.stale|] in r.cancelled
  {
    assert Holds(t, i);
    var u := PerformAll(t, gap);
    var c := Calling(u, i);
    SameNowAll(t, gap);
    SameNowAll(c, acts);
    if CancelledInGap(t, i, gap) {
      GapReplaces(t, i, gap);
    } else {
      GapKeeps(t, i, gap);
    }
    hide Timely, OneFate, PerformAll, Rearmed, Finish;
  }

  // ---------------------------------------------------------------- dropped timers

  /** The sweep drops a timer exactly when its slot is armed anew after the routine was read from it. */
  lemma DroppedExactly(t: Module, i: nat, gap: seq<Action>, acts: seq<Action>)
    requires Partition(t) && i < |t.slots| <= NO_CURRENT_TIMER
    ensures |Visit(t, i, gap, acts).lost|
         == |t.lost| + if Due(t, i) && Rearmed(Calling(PerformAll(t, gap), i), acts, i, false) then 1 else 0
  {
    hide Sum;
    if Due(t, i) {
      var u := PerformAll(t, gap);
      PerformAllKeepsPartition(t, gap);
      CallingKeepsPartition(u, i);
      RearmedOwes(Calling(u, i), acts, i, false);
      SameNowAll(t, gap);
      SameNowAll(Calling(u, i), acts);
    }
    hide PerformAll, Rearmed, Partition;
  }

  /** So a timer is dropped only by a sweep whose stamp is the very deadline of the timer it finds due. */
  lemma DropNeedsTheDeadline(t: Module, i: nat, gap: seq<Action>, acts: seq<Action>)
    requires Partition(t) && i < |t.slots| <= NO_CURRENT_TIMER && Due(t, i)
    ensures |Visit(t, i, gap, acts).lost| > |t.lost| ==> t.slots[i].stamp == t.now
  {
    DroppedExactly(t, i, gap, acts);
    PerformAllKeepsPartition(t, gap);
    SameNowAll(t, gap);
    var u := PerformAll(t, gap);
    CallingKeepsPartition(u, i);
    hide Partition, PerformAll, Rearmed, Visit;
    if t.slots[i].stamp < t.now {
      LateIsNotRearmed(t, gap, i);
      LateIsNotRearmed(Calling(u, i), acts, i);
    }
  }

  // ---------------------------------------------------------------- an overdue timer

  /** Whether a cancellation takes effect on a pending timer. */
  lemma CancelTakesEffectExactly(t: Module, i: nat)
    requires i < |t.slots| && t.slots[i].valid && t.slots[i].serial.Some?
    ensures CancelAt(t, i).cancelled == t.cancelled + [t.slots[i].serial.value] <==> t.slots[i].stamp >= t.now
    ensures t.slots[i].stamp < t.now ==> CancelAt(t, i) == t
  {
    if t.slots[i].stamp < t.now {
      assert |t.cancelled| < |t.cancelled + [t.slots[i].serial.value]|;
    }
  }

  /** An overdue timer at a slot still to be visited fires in this sweep, whatever anybody does. */
  lemma {:induction false} OverdueFires(t: Module, pos: nat, script: seq<Turn>, i: nat)
    requires Partition(t) && pos <= i < |t.slots| == |script| && |script| <= NO_CURRENT_TIMER
    requires Holds(t, i) && t.slots[i].stamp < t.now
    ensures Fired(t.slots[i].routine, t.now) in SweepFrom(t, pos, script).fired
    decreases |script| - pos
  {
    hide Sum, Partition, Rearmed, PerformAll, Visit;
    var turn := script[pos];
    var u := PerformAll(t, turn.others);
    PerformAllKeepsPartition(t, turn.others);
    LateIsNotRearmed(t, turn.others, i);
    SameNowAll(t, turn.others);
    var w := Visit(u, pos, turn.gap, turn.routine);
    VisitKeepsPartition(u, pos, turn.gap, turn.routine);
    if pos < i {
      LateStays(u, pos, turn.gap, turn.routine, i);
      OverdueFires(w, pos + 1, script, i);
    } else {
      FiresNow(u, i, turn.gap, turn.routine);
      FiredStays(w, pos + 1, script, Fired(t.slots[i].routine, t.now));
    }
  }

  lemma FiresNow(t: Module, i: nat, gap: seq<Action>, acts: seq<Action>)
    requires Partition(t) && |t.slots| <= NO_CURRENT_TIMER && Holds(t, i) && t.slots[i].stamp < t.now
    ensures Fired(t.slots[i].routine, t.now) in Visit(t, i, gap, acts).fired
  {
    var u := PerformAll(t, gap);
    LateIsNotRearmed(t, gap, i);
    SameNowAll(t, gap);
    SameNowAll(Calling(u, i), acts);
    hide PerformAll, Partition, Rearmed;
    assert Calling(u, i).fired[|u.fired|] == Fired(t.slots[i].routine, t.now);
  }

  /** The visit of another slot leaves an overdue timer alone. */
  lemma LateStays(t: Module, pos: nat, gap: seq<Action>, acts: seq<Action>, i: nat)
    requires Partition(t) && pos < |t.slots| <= NO_CURRENT_TIMER && Holds(t, i) && i != pos && t.slots[i].stamp < t.now
    ensures var r := Visit(t, pos, gap, acts);
      Holds(r, i) && r.slots[i] == t.slots[i] && r.now == t.now
  {
    if Due(t, pos) {
      var u := PerformAll(t, gap);
      PerformAllKeepsPartition(t, gap);
      LateIsNotRearmed(t, gap, i);
      SameNowAll(t, gap);
      CallingKeepsPartition(u, pos);
      LateIsNotRearmed(Calling(u, pos), acts, i);
      SameNowAll(Calling(u, pos), acts);
    }
    hide Partition, PerformAll, Rearmed;
  }

  lemma {:induction false} FiredStays(t: Module, pos: nat, script: seq<Turn>, f: Fired)
    requires pos <= |t.slots| == |script| && f in t.fired
    ensures f in SweepFrom(t, pos, script).fired
    decreases |script| - pos
  {
    hide PerformAll;
    if pos < |script| {
      var u := PerformAll(t, script[pos].others);
      SameNowAll(t, script[pos].others);
      if Due(u, pos) {
        var g := PerformAll(u, script[pos].gap);
        SameNowAll(u, script[pos].gap);
        SameNowAll(Calling(g, pos), script[pos].routine);
      }
      FiredStays(TurnOf(t, pos, script[pos]), pos + 1, script, f);
    }
  }

  // ---------------------------------------------------------------- nothing goes wrong otherwise

  /** Nobody cancels a timer from the moment its slot is found due until its routine has returned. */
  predicate Polite(e: Event) {
    e.Tick? ==> forall i :: 0 <= i < |e.script| ==> Cancel(i) !in e.script[i].gap && Cancel(i) !in e.script[i].routine
  }

  /** No timer was dropped, called without right, or fired early. */
  ghost predicate Clean(t: Module) {
    && t.lost == [] && t.stale == []
    && forall j :: 0 <= j < |t.fired| ==> t.fired[j].serial < |t.armed| && Deadline(t.armed[t.fired[j].serial]) <= t.fired[j].at
  }

  lemma PerformAllClean(t: Module, acts: seq<Action>)
    requires Clean(t)
    ensures Clean(PerformAll(t, acts))
  {
    SameNowAll(t, acts);
    hide PerformAll;
  }

  lemma VisitClean(t: Module, i: nat, gap: seq<Action>, acts: seq<Action>)
    requires Timely(t, i, -1) && Clean(t) && i < |t.slots| <= NO_CURRENT_TIMER
    requires Cancel(i) !in gap && Cancel(i) !in acts
    ensures Clean(Visit(t, i, gap, acts))
  {
    if Due(t, i) {
      var u := PerformAll(t, gap);
      var c := Calling(u, i);
      GapKeeps(t, i, gap);
      PerformAllKeepsPartition(t, gap);
      CallingKeepsPartition(u, i);
      NotRearmed(c, acts, i);
      DroppedExactly(t, i, gap, acts);
      PerformAllClean(t, gap);
      SameNowAll(t, gap);
      PerformAllClean(c, acts);
    }
    hide Partition, PerformAll, Rearmed, Finish, Calling;
  }

  lemma {:induction false} PoliteSweep(t: Module, i: nat, script: seq<Turn>)
    requires Timely(t, i, -1) && Clean(t) && i <= |t.slots| == |script| <= NO_CURRENT_TIMER && Polite(Tick(script))
    ensures Clean(SweepFrom(t, i, script))
    decreases |script| - i
  {
    hide Timely, Clean, Visit;
    if i < |script| {
      var turn := script[i];
      TurnTimely(t, i, turn);
      PerformAllClean(t, turn.others);
      VisitClean(PerformAll(t, turn.others), i, turn.gap, turn.routine);
      PoliteSweep(TurnOf(t, i, turn), i + 1, script);
    }
  }

  lemma {:induction false} NothingDropped(n: nat, ts: seq<Module>, es: seq<Event>)
    requires IsRun(ts, es) && ts[0] == Init(n) && n <= NO_CURRENT_TIMER
    requires forall e <- es :: Polite(e)
    ensures Clean(ts[|es|])
    decreases |es|
  {
    hide Timely, SweepFrom, Perform, OneFate, Polite;
    if es != [] {
      var m := |es| - 1;
      EveryRun(n, ts[..|es|], es[..m], 0);
      NothingDropped(n, ts[..|es|], es[..m]);
      match es[m] {
        case Do(a) => PerformAllClean(ts[m], [a]); assert PerformAll(ts[m], [a]) == PerformAll(Perform(ts[m], a), []);
        case Tick(script) => TickTimely(ts[m]); PoliteSweep(ts[m].(now := ts[m].now + INTERVAL_OS), 0, script);
      }
    }
  }

  /** Unless cancelled, a timer of some delay has then fired exactly once, and not early, when a sweep has reached its deadline. */
  lemma FiresExactlyOnce(n: nat, ts: seq<Module>, es: seq<Event>, k: nat)
    requires IsRun(ts, es) && ts[0] == Init(n) && n <= NO_CURRENT_TIMER
    requires forall e <- es :: Polite(e)
    requires k < |ts[|es|].armed| && ts[|es|].armed[k].delay > 0 && Deadline(ts[|es|].armed[k]) <= ts[|es|].now
    ensures Sum(ts[|es|].fired, Calls, k) + Count(ts[|es|].cancelled, k) == 1 && Count(ts[|es|].stale, k) == 0
    ensures forall j :: 0 <= j < |ts[|es|].fired| && ts[|es|].fired[j].serial == k ==> Deadline(ts[|es|].armed[k]) <= ts[|es|].fired[j].at
  {
    ExactlyOneFate(n, ts, es, k);
    NothingDropped(n, ts, es);
    assert Count(ts[|es|].lost, k) == 0;
  }
}
