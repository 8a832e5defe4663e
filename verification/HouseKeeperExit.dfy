/** The house-keeper after hba_house_keeper_exit, what free messages hold, and what a refusal leaves. */
module HouseKeeperExit {
  import opened Common
  import opened MsgQueue

  /** The handler has passed its look at the state and has not yet put it back to idle. */
  predicate PastTheDoor(s: State) { s.worker.Starting? || InLoop(s.worker) }

  /** Stopped, with nobody past the door. */
  predicate Shut(s: State) { s.queue.NotStarted? && !PastTheDoor(s) }

  lemma StaysShut(s: State, e: Step)
    requires Shut(s) && Enabled(s, e) && !e.HouseKeeperRun?
    ensures Shut(Next(s, e)) && Next(s, e).processed == s.processed
  {
  }

  lemma {:induction false} RunStaysShut(ss: seq<State>, es: seq<Step>)
    requires IsRun(ss, es) && Shut(ss[0]) && HouseKeeperRun !in es
    ensures Shut(ss[|es|]) && ss[|es|].processed == ss[0].processed
    decreases |es|
  {
    hide Next, Enabled;
    if es != [] {
      RunStaysShut(ss[..|es|], es[..|es| - 1]);
      StaysShut(ss[|es| - 1], es[|es| - 1]);
    }
  }

  /** A handler past the door, left alone, ends by putting the state back to idle. */
  lemma {:induction false} LeavesIdle(s: State) returns (ss: seq<State>, es: seq<Step>)
    requires Inv(s) && PastTheDoor(s)
    ensures IsRun(ss, es) && ss[0] == s && HouseKeeperRun !in es && ss[|es|].queue.Idle?
    decreases 5 * |s.tasks| + Rank(s.worker)
  {
    WorkKeeps(s);
    WorkDecreases(s);
    hide Inv;
    var t := WorkStep(s);
    if PastTheDoor(t) {
      ss, es := LeavesIdle(t);
      hide WorkStep;
      Prepended(s, ss, es);
      ss, es := [s] + ss, [Work] + es;
    } else {
      ss, es := [s, t], [Work];
    }
  }

  lemma Prepended(s: State, ss: seq<State>, es: seq<Step>)
    requires WorkDefined(s) && IsRun(ss, es) && ss[0] == WorkStep(s)
    ensures IsRun([s] + ss, [Work] + es)
  {
    hide Enabled, WorkStep;
    var ts, fs := [s] + ss, [Work] + es;
    forall i | 0 <= i < |fs| ensures Enabled(ts[i], fs[i]) && ts[i + 1] == Next(ts[i], fs[i]) {
      FirstWork(s);
      if i > 0 {
        assert ts[i] == ss[i - 1] && fs[i] == es[i - 1] && ts[i + 1] == ss[i];
      }
    }
  }

  lemma FirstWork(s: State)
    requires WorkDefined(s)
    ensures Enabled(s, Work) && Next(s, Work) == WorkStep(s)
  {
  }

  ghost predicate Reopens(s: State, ss: seq<State>, es: seq<Step>) {
    IsRun(ss, es) && ss[0] == Next(s, HouseKeeperExit) && HouseKeeperRun !in es && !ss[|es|].queue.NotStarted?
  }

  /**
   Exact condition: without a new start the house-keeper stays stopped after hba_house_keeper_exit if
   and only if no handler was past the door at the call; and then nothing more is processed.
   */
  lemma ExitHoldsExactly(s: State)
    requires Inv(s)
    ensures (exists ss: seq<State>, es: seq<Step> :: Reopens(s, ss, es)) <==> PastTheDoor(s)
    ensures !PastTheDoor(s) ==>
      forall ss: seq<State>, es: seq<Step> :: IsRun(ss, es) && ss[0] == Next(s, HouseKeeperExit) && HouseKeeperRun !in es ==>
        ss[|es|].processed == s.processed
  {
    NextKeeps(s, HouseKeeperExit);
    hide Inv, IsRun;
    var t := Next(s, HouseKeeperExit);
    if PastTheDoor(s) {
      var ss, es := LeavesIdle(t);
      assert Reopens(s, ss, es);
    } else {
      forall ss: seq<State>, es: seq<Step> | IsRun(ss, es) && ss[0] == t && HouseKeeperRun !in es
        ensures ss[|es|].processed == s.processed && ss[|es|].queue.NotStarted? {
        RunStaysShut(ss, es);
      }
    }
  }

  // ---------------------------------------------------------------- free messages

  /** A free message holds no adapter, unless it is being filled; nor does the one about to be freed. */
  ghost predicate FreeAreClear(s: State) {
    && (forall k :: 0 <= k < |s.free| && s.free[k] < |s.msgs| && !(s.inserter.Filled? && s.inserter.m == s.free[k]) ==>
          s.msgs[s.free[k]].data == 0)
    && (s.worker.Cleared? && s.worker.m < |s.msgs| ==> s.msgs[s.worker.m].data == 0)
  }

  lemma FreeInQueue(s: State)
    requires Inv(s)
    ensures InRange(s) && Undisturbed(s)
  {
  }

  lemma WorkClears(s: State)
    requires InRange(s) && Undisturbed(s) && WorkDefined(s) && FreeAreClear(s)
    ensures FreeAreClear(WorkStep(s))
  {
    hide Distinct, DueScan;
    if s.worker.Cleared? {
      var t := WorkStep(s);
      assert forall k :: 0 <= k < |s.free| ==> t.free[k] == s.free[k];
    }
  }

  lemma LinkClears(s: State)
    requires InRange(s) && Undisturbed(s) && Enabled(s, Link) && FreeAreClear(s)
    ensures FreeAreClear(InsertLink(s))
  {
    var t := InsertLink(s);
    forall k | 0 <= k < |t.free| ensures t.free[k] == s.free[k + 1] && t.free[k] != s.inserter.m {
      assert s.free[0] != s.free[k + 1];
    }
  }

  lemma StepClears(s: State, e: Step)
    requires InRange(s) && Undisturbed(s) && Enabled(s, e) && FreeAreClear(s)
    ensures FreeAreClear(Next(s, e))
  {
    match e
    case Work => WorkClears(s);
    case Link => LinkClears(s);
    case _ => hide WorkStep, InsertLink, Distinct;
  }

  /** In every run. */
  lemma {:induction false} ClearOverRuns(depth: nat, ss: seq<State>, es: seq<Step>)
    requires IsRun(ss, es) && ss[0] == Init(depth, ss[0].nonRaid)
    ensures FreeAreClear(ss[|es|])
    decreases |es|
  {
    if es != [] {
      var n := |es| - 1;
      ClearOverRuns(depth, ss[..|es|], es[..n]);
      Started(depth, ss[0].nonRaid);
      RunKeepsInv(ss[..|es|], es[..n]);
      FreeInQueue(ss[n]);
      hide Inv, InRange, Undisturbed, Next, FreeAreClear;
      StepClears(ss[n], es[n]);
    }
  }

  // ---------------------------------------------------------------- refusals

  /** An insertion is refused exactly if no message is free; its adapter is then the one to be scanned, and no list changes. */
  lemma RefusedExactly(s: State, p: Payload)
    requires Enabled(s, Insert(p))
    ensures var t := Next(s, Insert(p));
      && (t.inserter.Away? <==> s.free == [])
      && (s.free == [] ==>
            t.needRescan && t.rescanHba == p.data && t.refused == s.refused + [p.data]
            && t.free == s.free && t.tasks == s.tasks && t.msgs == s.msgs && t.pending == s.pending)
      && (s.free != [] ==>
            t.inserter == Peeked(s.free[0], p) && t.needRescan == s.needRescan && t.rescanHba == s.rescanHba && t.refused == s.refused)
  {
  }
}
