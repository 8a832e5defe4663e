/**
 The house-keeper message queue of linux/hba_timer.c as two threads that interleave at every
 point where the queue lock is taken or released: whoever inserts (one at a time) and the
 work item's handler (one at a time).
 */
module MsgQueue {
  import opened Common

  /** A device event; `data` 0 is the null pointer. */
  datatype Payload = Payload(data: nat, msg: nat, param: nat)

  datatype QueueState = Idle | Processing | NotStarted

  /** Where an insertion stands. */
  datatype Inserter =
    | Away
    | Peeked(m: nat, payload: Payload)   // free entry chosen, lock released, entry being filled
    | Filled(m: nat, payload: Payload)
    | Linked                             // moved to the tasks, work not yet scheduled

  /** Where the work item's handler stands. */
  datatype Worker =
    | Resting
    | Entered | SeenWork | Starting      // mv_wq_handler, up to the call of mv_proc_queue
    | Looping | Took(m: nat) | Handled(m: nat) | Cleared(m: nat)
    | BeforeScan | Scanning

  datatype State = State(
    free: seq<nat>, tasks: seq<nat>, msgs: seq<Payload>,
    queue: QueueState, needRescan: bool, rescanHba: nat, pending: bool,
    inserter: Inserter, worker: Worker,
    nonRaid: set<nat>,   // the adapters that run without RAID
    // history; `refused` since the last scan was due
    accepted: seq<Payload>, processed: seq<Payload>, refused: seq<nat>, scanned: seq<nat>)

  datatype Step =
    | Insert(payload: Payload) | Fill | Link | Schedule
    | Work                               // the handler's next step, or its start when the work item is pending
    | HouseKeeperRun | HouseKeeperExit

  /** hba_msg_queue_init and hba_house_keeper_init. */
  function Init(depth: nat, nonRaid: set<nat>): State {
    State(Upto(depth), [], seq(depth, i => Payload(0, 0, 0)), NotStarted, false, 0, false, Away, Resting, nonRaid,
          [], [], [], [])
  }

  /** hba_msg_insert, up to the first unlock. */
  function InsertPeek(s: State, p: Payload): State
    requires s.inserter.Away?
  {
    if s.free == [] then
      s.(needRescan := true, rescanHba := p.data, refused := s.refused + [p.data])
    else
      s.(inserter := Peeked(s.free[0], p))
  }

  function InsertFill(s: State): State
    requires s.inserter.Peeked? && s.inserter.m < |s.msgs|
  {
    s.(msgs := s.msgs[s.inserter.m := s.inserter.payload], inserter := Filled(s.inserter.m, s.inserter.payload))
  }

  /** List_MoveTail of the entry just filled, which is still the first free one. */
  function InsertLink(s: State): State
    requires s.inserter.Filled? && s.inserter.m < |s.msgs| && s.free != []
  {
    s.(free := s.free[1..], tasks := s.tasks + [s.inserter.m],
       accepted := s.accepted + [s.msgs[s.inserter.m]], inserter := Linked)
  }

  function InsertSchedule(s: State): State
    requires s.inserter.Linked?
  {
    s.(pending := true, inserter := Away)
  }

  /** The entry in hand is one of the array's, and the list it came from is not empty. */
  predicate WorkDefined(s: State) {
    && (s.worker.Took? || s.worker.Handled? ==> s.worker.m < |s.msgs|)
    && (s.worker.Cleared? ==> s.tasks != [])
  }

  /** The adapter hba_scan_host scans: the one remembered, unless it runs RAID. */
  function DueScan(s: State): seq<nat> {
    if s.needRescan && s.rescanHba != 0 && s.rescanHba in s.nonRaid then [s.rescanHba] else []
  }

  /** The handler's steps: mv_wq_handler, mv_proc_queue, and the start of hba_scan_host. */
  function WorkStep(s: State): State
    requires WorkDefined(s)
  {
    match s.worker
    case Resting => if s.pending then s.(pending := false, worker := Entered) else s
    case Entered => s.(worker := if s.tasks == [] then Resting else SeenWork)
    case SeenWork => s.(worker := if s.tasks != [] && s.queue.Idle? then Starting else Resting)
    case Starting => s.(queue := Processing, worker := Looping)
    case Looping =>
      if s.tasks == [] then s.(queue := Idle, worker := BeforeScan) else s.(worker := Took(s.tasks[0]))
    case Took(m) => s.(processed := s.processed + [s.msgs[m]], worker := Handled(m))
    case Handled(m) => s.(msgs := s.msgs[m := s.msgs[m].(data := 0)], worker := Cleared(m))
    case Cleared(m) => s.(tasks := s.tasks[1..], free := s.free + [m], worker := Looping)
    case BeforeScan =>
      if !s.needRescan || s.rescanHba == 0 then s.(worker := Resting)
      else s.(needRescan := false, rescanHba := 0, refused := [], scanned := s.scanned + DueScan(s),
              worker := if DueScan(s) != [] then Scanning else Resting)
    case Scanning => s.(worker := Resting)
  }

  predicate Enabled(s: State, e: Step) {
    match e
    case Insert(_) => s.inserter.Away?
    case Fill => s.inserter.Peeked? && s.inserter.m < |s.msgs|
    case Link => s.inserter.Filled? && s.inserter.m < |s.msgs| && s.free != []
    case Schedule => s.inserter.Linked?
    case Work => WorkDefined(s)
    case HouseKeeperRun => true
    case HouseKeeperExit => true
  }

  function Next(s: State, e: Step): State
    requires Enabled(s, e)
  {
    match e
    case Insert(p) => InsertPeek(s, p)
    case Fill => InsertFill(s)
    case Link => InsertLink(s)
    case Schedule => InsertSchedule(s)
    case Work => WorkStep(s)
    case HouseKeeperRun => s.(queue := Idle)
    case HouseKeeperExit => s.(queue := NotStarted)
  }

  // ---------------------------------------------------------------- invariant

  function Contents(tasks: seq<nat>, msgs: seq<Payload>): seq<Payload>
    requires forall i :: 0 <= i < |tasks| ==> tasks[i] < |msgs|
  {
    seq(|tasks|, i requires 0 <= i < |tasks| => msgs[tasks[i]])
  }

  /** Every message is in one of the two lists, once. */
  ghost predicate Partition(s: State) {
    forall k: nat :: Count(s.free, k) + Count(s.tasks, k) == if k < |s.msgs| then 1 else 0
  }

  ghost predicate InRange(s: State) {
    && (forall i :: 0 <= i < |s.free| ==> s.free[i] < |s.msgs|)
    && (forall i :: 0 <= i < |s.tasks| ==> s.tasks[i] < |s.msgs|)
    && (forall i :: 0 <= i < |s.free| ==> s.free[i] !in s.tasks)
    && Distinct(s.free) && Distinct(s.tasks)
  }

  /** Nobody moves what another is working on. */
  ghost predicate Undisturbed(s: State) {
    && (s.inserter.Peeked? || s.inserter.Filled? ==>
          s.free != [] && s.free[0] == s.inserter.m && s.inserter.m < |s.msgs| && s.inserter.m !in s.tasks)
    && (s.inserter.Filled? ==> s.msgs[s.inserter.m] == s.inserter.payload)
    && (s.worker.Took? || s.worker.Handled? || s.worker.Cleared? ==>
          s.tasks != [] && s.tasks[0] == s.worker.m && s.worker.m < |s.msgs| && s.worker.m !in s.free)
  }

  /** Accepted messages not yet processed, in order. */
  function Waiting(s: State): seq<nat> {
    if (s.worker.Handled? || s.worker.Cleared?) && s.tasks != [] then s.tasks[1..] else s.tasks
  }

  ghost predicate InSequence(s: State)
    requires InRange(s)
  {
    s.accepted == s.processed + Contents(Waiting(s), s.msgs)
  }

  predicate InLoop(w: Worker) { w.Looping? || w.Took? || w.Handled? || w.Cleared? }

  /** What was refused since the last scan; only the latest adapter is remembered. */
  ghost predicate RescanKnown(s: State) {
    && (s.needRescan <==> s.refused != [])
    && (s.refused != [] ==> s.rescanHba == s.refused[|s.refused| - 1])
    && (s.needRescan && s.rescanHba != 0 && |s.msgs| > 0 ==> s.tasks != [] || InLoop(s.worker) || s.worker.BeforeScan?)
    && (s.queue.Processing? ==> InLoop(s.worker))
  }

  ghost predicate Inv(s: State) {
    Partition(s) && InRange(s) && Undisturbed(s) && InSequence(s) && RescanKnown(s)
  }

  lemma PartitionInRange(s: State)
    requires Partition(s)
    ensures InRange(s)
  {
    forall i | 0 <= i < |s.free| ensures s.free[i] < |s.msgs| && s.free[i] !in s.tasks {
      CountMember(s.free, s.free[i]);
      CountMember(s.tasks, s.free[i]);
    }
    forall i | 0 <= i < |s.tasks| ensures s.tasks[i] < |s.msgs| {
      CountMember(s.tasks, s.tasks[i]);
    }
    forall k: nat ensures Count(s.free, k) <= 1 && Count(s.tasks, k) <= 1 {
    }
    CountsDistinct(s.free);
    CountsDistinct(s.tasks);
  }

  lemma CountsDistinct(s: seq<nat>)
    requires forall k: nat :: Count(s, k) <= 1
    ensures Distinct(s)
  {
    forall i, j | 0 <= i < j < |s| ensures s[i] != s[j] {
      SumDrop(s, j, Same, s[j]);
      CountMember(DropAt(s, j), s[j]);
      assert DropAt(s, j)[i] == s[i];
      assert s[i] in DropAt(s, j);
      assert Count(s, s[j]) <= 1;
    }
  }

  /** Moving the head of one list to the tail of the other. */
  lemma MoveCounts(from: seq<nat>, to: seq<nat>, k: nat)
    requires from != []
    ensures Count(from[1..], k) + Count(to + [from[0]], k) == Count(from, k) + Count(to, k)
  {
    SumHead(from, Same, k);
    CountSnoc(to, from[0], k);
  }

  lemma LinkKeeps(s: State)
    requires Inv(s) && s.inserter.Filled?
    ensures Inv(InsertLink(s))
  {
    var t := InsertLink(s);
    assert Partition(t) by {
      forall k: nat ensures Count(t.free, k) + Count(t.tasks, k) == Count(s.free, k) + Count(s.tasks, k) {
        MoveCounts(s.free, s.tasks, k);
      }
    }
    hide Sum;
    PartitionInRange(t);
    assert Contents(Waiting(t), t.msgs) == Contents(Waiting(s), s.msgs) + [s.msgs[s.inserter.m]];
  }

  lemma MoveBackKeepsLists(s: State)
    requires Inv(s) && s.worker.Cleared?
    ensures Partition(WorkStep(s)) && InRange(WorkStep(s))
  {
    var t := WorkStep(s);
    forall k: nat ensures Count(t.free, k) + Count(t.tasks, k) == Count(s.free, k) + Count(s.tasks, k) {
      MoveCounts(s.tasks, s.free, k);
    }
    hide Sum;
    PartitionInRange(t);
  }

  /** With messages to go round, an empty free list means tasks to do. */
  lemma FullMeansTasks(s: State)
    requires Partition(s) && |s.msgs| > 0 && s.free == []
    ensures s.tasks != []
  {
    assert Count(s.free, 0) + Count(s.tasks, 0) == 1;
  }

  lemma TookKeepsSequence(s: State)
    requires InRange(s) && InSequence(s) && Undisturbed(s) && s.worker.Took?
    ensures InRange(WorkStep(s)) && InSequence(WorkStep(s))
  {
    hide Distinct;
    assert Contents(s.tasks, s.msgs) == [s.msgs[s.worker.m]] + Contents(s.tasks[1..], s.msgs);
    assert s.processed + ([s.msgs[s.worker.m]] + Contents(s.tasks[1..], s.msgs)) == WorkStep(s).processed + Contents(s.tasks[1..], s.msgs);
  }

  lemma HandledKeepsSequence(s: State)
    requires InRange(s) && InSequence(s) && Undisturbed(s) && s.worker.Handled?
    ensures InRange(WorkStep(s)) && InSequence(WorkStep(s))
  {
    assert Contents(s.tasks[1..], WorkStep(s).msgs) == Contents(s.tasks[1..], s.msgs);
  }

  lemma ClearedKeepsSequence(s: State)
    requires InRange(s) && InSequence(s) && Undisturbed(s) && s.worker.Cleared? && InRange(WorkStep(s))
    ensures InSequence(WorkStep(s))
  {
    hide Distinct;
    assert Waiting(WorkStep(s)) == Waiting(s);
  }

  lemma WorkInSequence(s: State)
    requires Inv(s)
    ensures InRange(WorkStep(s)) && InSequence(WorkStep(s))
  {
    hide Partition, RescanKnown, Distinct, InRange, InSequence, Contents;
    if s.worker.Cleared? {
      MoveBackKeepsLists(s);
      ClearedKeepsSequence(s);
    } else if s.worker.Took? {
      TookKeepsSequence(s);
    } else if s.worker.Handled? {
      HandledKeepsSequence(s);
    } else {
      OthersKeepSequence(s);
    }
  }

  lemma OthersKeepSequence(s: State)
    requires InRange(s) && InSequence(s) && WorkDefined(s)
    requires !s.worker.Cleared? && !s.worker.Took? && !s.worker.Handled?
    ensures InRange(WorkStep(s)) && InSequence(WorkStep(s))
  {
    hide Distinct, DueScan, Contents;
    var t := WorkStep(s);
    assert t.tasks == s.tasks && t.free == s.free && t.msgs == s.msgs && Waiting(t) == Waiting(s);
  }

  lemma ClearedUndisturbed(s: State)
    requires InRange(s) && Undisturbed(s) && s.worker.Cleared?
    ensures Undisturbed(WorkStep(s))
  {
    hide Distinct;
    assert forall x :: x in s.tasks[1..] ==> x in s.tasks;
  }

  lemma LoopingUndisturbed(s: State)
    requires InRange(s) && Undisturbed(s) && s.worker.Looping?
    ensures Undisturbed(WorkStep(s))
  {
    hide Distinct;
    if s.tasks != [] {
      assert s.tasks[0] in s.tasks;
    }
  }

  lemma WorkUndisturbed(s: State)
    requires Inv(s)
    ensures Undisturbed(WorkStep(s))
  {
    hide Partition, InSequence, InRange, RescanKnown;
    if s.worker.Cleared? {
      ClearedUndisturbed(s);
    } else if s.worker.Looping? {
      LoopingUndisturbed(s);
    }
  }

  lemma WorkRescan(s: State)
    requires Inv(s)
    ensures RescanKnown(WorkStep(s))
  {
    hide Partition, InSequence, InRange;
  }

  lemma SameLists(s: State, t: State)
    requires Partition(s) && t.free == s.free && t.tasks == s.tasks && |t.msgs| == |s.msgs|
    ensures Partition(t)
  {
  }

  lemma WorkPartition(s: State)
    requires Inv(s)
    ensures Partition(WorkStep(s))
  {
    hide Partition, InRange, InSequence, RescanKnown;
    if s.worker.Cleared? {
      MoveBackKeepsLists(s);
    } else {
      SameLists(s, WorkStep(s));
    }
  }

  lemma WorkKeeps(s: State)
    requires Inv(s)
    ensures Inv(WorkStep(s)) && |WorkStep(s).msgs| == |s.msgs|
  {
    WorkPartition(s);
    WorkInSequence(s);
    WorkUndisturbed(s);
    WorkRescan(s);
    hide Partition, InRange, InSequence, RescanKnown;
  }

  lemma FillKeeps(s: State)
    requires Inv(s) && Enabled(s, Fill)
    ensures Inv(InsertFill(s))
  {
    var t := InsertFill(s);
    assert Partition(t);
    hide Partition;
    assert Contents(Waiting(s), t.msgs) == Contents(Waiting(s), s.msgs);
  }

  lemma InsertKeeps(s: State, p: Payload)
    requires Inv(s) && Enabled(s, Insert(p))
    ensures Inv(InsertPeek(s, p))
  {
    if s.free == [] && |s.msgs| > 0 {
      FullMeansTasks(s);
    }
    hide Sum;
  }

  lemma NextKeeps(s: State, e: Step)
    requires Inv(s) && Enabled(s, e)
    ensures Inv(Next(s, e)) && |Next(s, e).msgs| == |s.msgs|
  {
    hide Sum, InRange, InSequence;
    match e
    case Insert(p) => InsertKeeps(s, p);
    case Fill => FillKeeps(s);
    case Link => LinkKeeps(s);
    case Work => WorkKeeps(s);
    case _ => OtherKeeps(s, e);
  }

  lemma OtherKeeps(s: State, e: Step)
    requires Inv(s) && Enabled(s, e) && (e.Schedule? || e.HouseKeeperRun? || e.HouseKeeperExit?)
    ensures Inv(Next(s, e))
  {
    hide Sum;
  }

  // ---------------------------------------------------------------- runs

  ghost predicate IsRun(ss: seq<State>, es: seq<Step>) {
    && |ss| == |es| + 1
    && forall i :: 0 <= i < |es| ==> Enabled(ss[i], es[i]) && ss[i + 1] == Next(ss[i], es[i])
  }

  lemma Started(depth: nat, nonRaid: set<nat>)
    ensures Inv(Init(depth, nonRaid))
  {
    forall k: nat ensures Count(Upto(depth), k) == if k < depth then 1 else 0 {
      CountUpto(depth, k);
    }
    hide Sum;
    PartitionInRange(Init(depth, nonRaid));
  }

  lemma {:induction false} RunKeepsInv(ss: seq<State>, es: seq<Step>)
    requires IsRun(ss, es) && Inv(ss[0])
    ensures Inv(ss[|es|]) && |ss[|es|].msgs| == |ss[0].msgs|
    decreases |es|
  {
    hide Inv, Next;
    if es != [] {
      RunKeepsInv(ss[..|es|], es[..|es| - 1]);
      NextKeeps(ss[|es| - 1], es[|es| - 1]);
    }
  }

  /** The insertions that found a free entry, in the order they were made. */
  ghost function Admitted(ss: seq<State>, es: seq<Step>): seq<Payload>
    requires |ss| == |es| + 1
    decreases |es|
  {
    if es == [] then []
    else
      var n := |es| - 1;
      Admitted(ss[..|es|], es[..n]) + if es[n].Insert? && ss[n].free != [] then [es[n].payload] else []
  }

  function BeingInserted(s: State): seq<Payload> {
    if s.inserter.Peeked? || s.inserter.Filled? then [s.inserter.payload] else []
  }

  lemma StepAdmits(s: State, e: Step)
    requires Undisturbed(s) && Enabled(s, e)
    ensures Next(s, e).accepted + BeingInserted(Next(s, e))
         == s.accepted + BeingInserted(s) + if e.Insert? && s.free != [] then [e.payload] else []
  {
  }

  lemma {:induction false} AdmittedAccepted(ss: seq<State>, es: seq<Step>)
    requires IsRun(ss, es) && Inv(ss[0]) && ss[0].inserter.Away? && ss[0].accepted == []
    ensures Admitted(ss, es) == ss[|es|].accepted + BeingInserted(ss[|es|])
    decreases |es|
  {
    if es != [] {
      AdmittedAccepted(ss[..|es|], es[..|es| - 1]);
      RunKeepsInv(ss[..|es|], es[..|es| - 1]);
      StepAdmits(ss[|es| - 1], es[|es| - 1]);
      hide Partition, InRange, InSequence, RescanKnown, Undisturbed, Next, Enabled, BeingInserted;
    }
  }

  /**
   The messages the handler has processed, then those still to do, then the one being inserted
   are the insertions that were not refused, in insertion order; no entry is lost or in two
   lists, and one being filled is not among the tasks.
   */
  lemma ProcessedInOrder(depth: nat, ss: seq<State>, es: seq<Step>, k: nat)
    requires IsRun(ss, es) && ss[0] == Init(depth, ss[0].nonRaid)
    ensures var s := ss[|es|];
      && InRange(s)
      && s.processed + Contents(Waiting(s), s.msgs) + BeingInserted(s) == Admitted(ss, es)
      && Count(s.free, k) + Count(s.tasks, k) == (if k < depth then 1 else 0)
      && (s.inserter.Peeked? || s.inserter.Filled? ==> s.inserter.m !in s.tasks)
  {
    Started(depth, ss[0].nonRaid);
    RunKeepsInv(ss, es);
    AdmittedAccepted(ss, es);
  }

  // ---------------------------------------------------------------- wake-ups

  /** Tasks are being worked on, or somebody is about to see to it. */
  predicate Awake(s: State) {
    || s.tasks == []
    || s.pending
    || s.inserter.Linked?
    || s.worker.Entered? || s.worker.SeenWork? || s.worker.Starting? || InLoop(s.worker)
  }

  lemma StaysAwake(s: State, e: Step)
    requires Inv(s) && Enabled(s, e) && !e.HouseKeeperExit?
    requires Awake(s) && !s.queue.NotStarted?
    ensures Awake(Next(s, e)) && !Next(s, e).queue.NotStarted?
  {
    hide Partition, InRange, InSequence, Undisturbed;
  }

  lemma {:induction false} RunStaysAwake(ss: seq<State>, es: seq<Step>)
    requires IsRun(ss, es) && Inv(ss[0]) && Awake(ss[0]) && !ss[0].queue.NotStarted?
    requires HouseKeeperExit !in es
    ensures Awake(ss[|es|]) && !ss[|es|].queue.NotStarted?
    decreases |es|
  {
    hide Inv, Next, Awake;
    if es != [] {
      RunStaysAwake(ss[..|es|], es[..|es| - 1]);
      RunKeepsInv(ss[..|es|], es[..|es| - 1]);
      StaysAwake(ss[|es| - 1], es[|es| - 1]);
    }
  }

  /** The handler found work and declines it, with no other wake-up in sight. */
  predicate Declines(s: State, e: Step) {
    e.Work? && s.worker.SeenWork? && s.queue.NotStarted? && s.tasks != [] && !s.pending && !s.inserter.Linked?
  }

  /** Exact conditions for one step: declining loses the last wake-up, and only an insertion brings a new one. */
  lemma StepLosesExactly(s: State, e: Step)
    requires Inv(s) && Enabled(s, e)
    ensures Awake(s) ==> (Awake(Next(s, e)) <==> !Declines(s, e))
    ensures !Awake(s) ==> (Awake(Next(s, e)) <==> e.Link?)
  {
    hide Partition, InRange, InSequence;
  }

  /** Step `i` declines, and nothing is inserted after it. */
  ghost predicate LostAt(ss: seq<State>, es: seq<Step>, i: nat)
    requires |ss| == |es| + 1
  {
    i < |es| && Declines(ss[i], es[i]) && forall j :: i < j < |es| ==> !es[j].Link?
  }

  /** Exact condition over every run: the last wake-up is gone if and only if the handler declined and nothing was inserted since. */
  lemma {:induction false} WakeUpLostExactly(ss: seq<State>, es: seq<Step>)
    requires IsRun(ss, es) && Inv(ss[0]) && Awake(ss[0])
    ensures !Awake(ss[|es|]) <==> exists i: nat :: LostAt(ss, es, i)
    decreases |es|
  {
    hide Inv, Next, Awake, Declines, Enabled;
    if es != [] {
      var n := |es| - 1;
      var ts, fs := ss[..|es|], es[..n];
      assert forall i :: 0 <= i < n ==> fs[i] == es[i] && ts[i] == ss[i];
      WakeUpLostExactly(ts, fs);
      RunKeepsInv(ts, fs);
      StepLosesExactly(ss[n], es[n]);
      DecliningIsAwake(ss[n], es[n]);
      if i: nat :| LostAt(ts, fs, i) && !es[n].Link? {
        assert LostAt(ss, es, i);
      }
      if Declines(ss[n], es[n]) {
        assert LostAt(ss, es, n);
      }
      if i: nat :| LostAt(ss, es, i) && i < n {
        assert LostAt(ts, fs, i);
        assert !es[n].Link?;
      }
    }
  }

  lemma DecliningIsAwake(s: State, e: Step)
    ensures Declines(s, e) ==> Awake(s) && !e.Link?
  {
  }

  lemma {:induction false} StaysStarted(ss: seq<State>, es: seq<Step>, m: nat, i: nat)
    requires IsRun(ss, es) && m < i <= |es| && es[m].HouseKeeperRun?
    requires forall j :: m < j < |es| ==> !es[j].HouseKeeperExit?
    ensures !ss[i].queue.NotStarted?
    decreases i
  {
    assert ss[i] == Next(ss[i - 1], es[i - 1]);
    if m < i - 1 {
      StaysStarted(ss, es, m, i - 1);
    }
  }

  /**
   So after hba_house_keeper_run, called as step `m` and not followed by an exit, a message is
   stuck if and only if the handler declined before that call and nothing was inserted since.
   */
  lemma WakeUpsAfterRun(depth: nat, ss: seq<State>, es: seq<Step>, m: nat)
    requires IsRun(ss, es) && ss[0] == Init(depth, ss[0].nonRaid)
    requires m < |es| && es[m].HouseKeeperRun? && forall j :: m < j < |es| ==> !es[j].HouseKeeperExit?
    ensures !Awake(ss[|es|]) <==> exists i: nat :: i < m && LostAt(ss, es, i)
  {
    Started(depth, ss[0].nonRaid);
    hide Inv, IsRun;
    WakeUpLostExactly(ss, es);
    if i: nat :| LostAt(ss, es, i) && m <= i {
      assert es[m].HouseKeeperRun? && es[i].Work?;
      StaysStarted(ss, es, m, i);
    }
  }

  lemma {:induction false} NothingInserted(depth: nat, ss: seq<State>, es: seq<Step>)
    requires IsRun(ss, es) && ss[0] == Init(depth, ss[0].nonRaid) && forall e <- es :: !e.Insert?
    ensures ss[|es|].tasks == [] && ss[|es|].inserter.Away? && ss[|es|].worker.Resting? && !ss[|es|].pending
    decreases |es|
  {
    if es != [] {
      NothingInserted(depth, ss[..|es|], es[..|es| - 1]);
    }
  }

  /** In particular when nothing is inserted before the house-keeper is started. */
  lemma NoInsertBeforeStart(depth: nat, ss: seq<State>, es: seq<Step>, ts: seq<State>, fs: seq<Step>)
    requires IsRun(ss, es) && ss[0] == Init(depth, ss[0].nonRaid) && forall e <- es :: !e.Insert?
    requires IsRun(ts, fs) && ts[0] == Next(ss[|es|], HouseKeeperRun) && HouseKeeperExit !in fs
    ensures Awake(ts[|fs|])
  {
    NothingInserted(depth, ss, es);
    Started(depth, ss[0].nonRaid);
    RunKeepsInv(ss, es);
    NextKeeps(ss[|es|], HouseKeeperRun);
    hide Inv;
    RunStaysAwake(ts, fs);
  }

  /** Not started, with `k` messages queued and nobody at work. */
  ghost predicate Queued(s: State, depth: nat, k: nat) {
    && Inv(s) && |s.msgs| == depth && |s.tasks| == k <= depth && |s.free| == depth - k
    && s.queue.NotStarted? && s.inserter.Away? && s.worker.Resting? && (s.pending <==> k > 0)
    && !s.needRescan && s.refused == []
  }

  lemma NoneQueued(depth: nat, nonRaid: set<nat>)
    ensures Queued(Init(depth, nonRaid), depth, 0)
  {
    Started(depth, nonRaid);
    hide Partition, InRange, InSequence;
  }

  /** The states an insertion goes through. */
  lemma InsertionSteps(s: State, depth: nat, k: nat, p: Payload)
    requires Queued(s, depth, k) && k < depth
    ensures Enabled(s, Insert(p))
    ensures var s1 := InsertPeek(s, p);
      && Enabled(s1, Fill)
      && var s2 := InsertFill(s1);
      && Enabled(s2, Link)
      && var s3 := InsertLink(s2);
      && Enabled(s3, Schedule) && Queued(InsertSchedule(s3), depth, k + 1)
  {
    InsertKeeps(s, p);
    var s1 := InsertPeek(s, p);
    FillKeeps(s1);
    var s2 := InsertFill(s1);
    LinkKeeps(s2);
    var s3 := InsertLink(s2);
    OtherKeeps(s3, Schedule);
    hide Inv;
  }

  lemma QueueOne(ss: seq<State>, es: seq<Step>, depth: nat, k: nat, p: Payload) returns (ts: seq<State>, fs: seq<Step>)
    requires IsRun(ss, es) && Queued(ss[|es|], depth, k) && k < depth
    ensures IsRun(ts, fs) && ts[0] == ss[0] && fs == es + [Insert(p), Fill, Link, Schedule] && Queued(ts[|fs|], depth, k + 1)
  {
    InsertionSteps(ss[|es|], depth, k, p);
    hide IsRun, Queued, Enabled;
    ts, fs := Extended(ss, es, Insert(p));
    ts, fs := Extended(ts, fs, Fill);
    ts, fs := Extended(ts, fs, Link);
    ts, fs := Extended(ts, fs, Schedule);
  }

  lemma Extended(ss: seq<State>, es: seq<Step>, e: Step) returns (ts: seq<State>, fs: seq<Step>)
    requires IsRun(ss, es) && Enabled(ss[|es|], e)
    ensures |ss| == |es| + 1 && |ts| == |fs| + 1
    ensures IsRun(ts, fs) && ts[0] == ss[0] && fs == es + [e] && ts[|fs|] == Next(ss[|es|], e)
  {
    hide Next, Enabled;
    ts, fs := ss + [Next(ss[|es|], e)], es + [e];
  }

  /** With any number of messages to go round, one queued before the start is found by a handler that then declines: its wake-up is lost. */
  lemma EarlyMessageIsStuck(depth: nat, nonRaid: set<nat>, p: Payload) returns (ss: seq<State>, es: seq<Step>)
    requires depth > 0
    ensures IsRun(ss, es) && ss[0] == Init(depth, nonRaid)
    ensures es == [Insert(p), Fill, Link, Schedule] + [Work, Work, Work] + [HouseKeeperRun]
    ensures |ss[|es|].tasks| == 1 && ss[|es|].queue.Idle? && !Awake(ss[|es|])
  {
    NoneQueued(depth, nonRaid);
    assert IsRun([Init(depth, nonRaid)], []);
    ss, es := QueueOne([Init(depth, nonRaid)], [], depth, 0, p);
    hide IsRun, Inv;
    ss, es := Extended(ss, es, Work);
    ss, es := Extended(ss, es, Work);
    ss, es := Extended(ss, es, Work);
    ss, es := Extended(ss, es, HouseKeeperRun);
  }

  /** All messages of the queue in use. */
  lemma {:induction false} QueueMany(depth: nat, nonRaid: set<nat>, p: Payload, k: nat) returns (ss: seq<State>, es: seq<Step>)
    requires k <= depth
    ensures IsRun(ss, es) && ss[0] == Init(depth, nonRaid) && Queued(ss[|es|], depth, k)
    decreases k
  {
    if k == 0 {
      NoneQueued(depth, nonRaid);
      ss, es := [Init(depth, nonRaid)], [];
    } else {
      ss, es := QueueMany(depth, nonRaid, p, k - 1);
      ss, es := QueueOne(ss, es, depth, k - 1, p);
    }
  }

  // ---------------------------------------------------------------- refusals and rescans

  /** Somebody is at work in the handler before its scan, or about to start it. */
  predicate OnTheWay(s: State) {
    s.pending || s.inserter.Linked? || !(s.worker.Resting? || s.worker.Scanning?)
  }

  /** After a wake-up was lost everybody rests. */
  lemma {:induction false} LostMeansRest(ss: seq<State>, es: seq<Step>, i: nat)
    requires IsRun(ss, es) && LostAt(ss, es, i)
    ensures !OnTheWay(ss[|es|])
    decreases |es|
  {
    var n := |es| - 1;
    assert ss[n + 1] == Next(ss[n], es[n]);
    if i < n {
      var ts, fs := ss[..|es|], es[..n];
      assert forall j :: 0 <= j < n ==> fs[j] == es[j] && ts[j] == ss[j];
      assert LostAt(ts, fs, i);
      LostMeansRest(ts, fs, i);
      hide LostAt;
    }
  }

  /**
   A refusal is remembered, for the last adapter refused, until a scan is due.  As long as one is
   remembered there is work left for a handler that will scan after it; exact condition: such a
   handler is on its way if and only if none has declined since the last insertion.
   */
  lemma RefusalsLeadToScan(depth: nat, ss: seq<State>, es: seq<Step>)
    requires IsRun(ss, es) && ss[0] == Init(depth, ss[0].nonRaid) && depth > 0
    ensures var s := ss[|es|];
      && (s.needRescan <==> s.refused != [])
      && (s.refused != [] ==> s.rescanHba == s.refused[|s.refused| - 1])
      && (s.needRescan && s.rescanHba != 0 ==> s.tasks != [] || InLoop(s.worker) || s.worker.BeforeScan?)
      && (s.needRescan && s.rescanHba != 0 ==> (OnTheWay(s) <==> !exists i: nat :: LostAt(ss, es, i)))
  {
    Started(depth, ss[0].nonRaid);
    RunKeepsInv(ss, es);
    WakeUpLostExactly(ss, es);
    var s := ss[|es|];
    hide Partition, InRange, InSequence, Undisturbed, IsRun;
    if s.needRescan && s.rescanHba != 0 {
      if i: nat :| LostAt(ss, es, i) {
        LostMeansRest(ss, es, i);
      }
    }
  }

  lemma ScansLast(s: State)
    requires RescanKnown(s) && s.worker.BeforeScan?
    ensures var t := WorkStep(s);
      if s.refused == [] || s.refused[|s.refused| - 1] == 0 then t.scanned == s.scanned
      else t.refused == [] && t.scanned == s.scanned +
             if s.refused[|s.refused| - 1] in s.nonRaid then [s.refused[|s.refused| - 1]] else []
  {
  }

  /** Whatever was refused, it is the last adapter that is scanned, and none if that one runs RAID. */
  lemma OnlyLastIsScanned(depth: nat, ss: seq<State>, es: seq<Step>)
    requires IsRun(ss, es) && ss[0] == Init(depth, ss[0].nonRaid) && ss[|es|].worker.BeforeScan?
    ensures var s := ss[|es|]; var t := WorkStep(s);
      if s.refused == [] || s.refused[|s.refused| - 1] == 0 then t.scanned == s.scanned
      else t.refused == [] && t.scanned == s.scanned +
             if s.refused[|s.refused| - 1] in s.nonRaid then [s.refused[|s.refused| - 1]] else []
  {
    hide Partition, InRange, InSequence, Undisturbed, RescanKnown, WorkStep;
    Started(depth, ss[0].nonRaid);
    RunKeepsInv(ss, es);
    ScansLast(ss[|es|]);
  }

  /** With the queue full messages of two adapters are refused; only the second is remembered. */
  lemma TwoRefused(depth: nat, nonRaid: set<nat>, p: Payload, a: Payload, b: Payload) returns (ss: seq<State>, es: seq<Step>)
    ensures IsRun(ss, es) && ss[0] == Init(depth, nonRaid)
    ensures ss[|es|].needRescan && ss[|es|].refused == [a.data, b.data] && ss[|es|].rescanHba == b.data
  {
    ss, es := QueueMany(depth, nonRaid, p, depth);
    hide IsRun, Inv;
    ss, es := Extended(ss, es, Insert(a));
    ss, es := Extended(ss, es, Insert(b));
  }

  // ---------------------------------------------------------------- the handler, left alone

  function Rank(w: Worker): nat {
    match w
    case Resting => 0
    case Scanning => 1
    case BeforeScan => 2
    case Cleared(_) => 1
    case Handled(_) => 2
    case Took(_) => 3
    case Looping => 4
    case Starting => 5
    case SeenWork => 6
    case Entered => 7
  }

  lemma WorkDecreases(s: State)
    requires WorkDefined(s) && !s.worker.Resting?
    ensures 5 * |WorkStep(s).tasks| + Rank(WorkStep(s).worker) < 5 * |s.tasks| + Rank(s.worker)
  {
  }

  /** The handler runs to its end, nobody interfering. */
  ghost function Handler(s: State): (t: State)
    requires Inv(s)
    ensures Inv(t) && t.worker.Resting?
    decreases 5 * |s.tasks| + Rank(s.worker)
  {
    if s.worker.Resting? then s
    else
      WorkKeeps(s);
      WorkDecreases(s);
      hide Inv, WorkStep;
      Handler(WorkStep(s))
  }

  /** The handler is between its start and its look at an empty list, or there is nothing to do. */
  predicate Serving(s: State) {
    s.tasks == [] || s.worker.Entered? || s.worker.SeenWork? || s.worker.Starting? || InLoop(s.worker)
  }

  lemma WorkKeepsServing(s: State)
    requires WorkDefined(s) && !s.worker.Resting? && !s.queue.NotStarted?
    requires s.queue.Processing? ==> InLoop(s.worker)
    ensures var t := WorkStep(s);
      && !t.queue.NotStarted? && t.accepted == s.accepted && t.pending == s.pending
      && (Serving(s) ==> Serving(t))
  {
    hide DueScan;
  }

  lemma WorkScans(s: State)
    requires WorkDefined(s)
    ensures WorkStep(s).scanned + DueScan(WorkStep(s)) == s.scanned + DueScan(s)
  {
  }

  lemma {:induction false} HandlerServes(s: State)
    requires Inv(s) && !s.queue.NotStarted?
    ensures var t := Handler(s);
      && !t.queue.NotStarted? && t.accepted == s.accepted && t.pending == s.pending
      && t.scanned + DueScan(t) == s.scanned + DueScan(s) && |t.msgs| == |s.msgs|
      && (Serving(s) ==> t.tasks == [])
    decreases 5 * |s.tasks| + Rank(s.worker)
  {
    assert WorkDefined(s);
    hide Inv, WorkStep, DueScan;
    if !s.worker.Resting? {
      WorkKeeps(s);
      WorkDecreases(s);
      WorkKeepsServing(s);
      WorkScans(s);
      HandlerServes(WorkStep(s));
    }
  }

  /** A pending work item starts the handler once more. */
  ghost function HandlerAgain(t: State): (u: State)
    requires Inv(t) && t.worker.Resting?
    ensures Inv(u) && u.worker.Resting?
  {
    WorkKeeps(t);
    if t.pending then Handler(WorkStep(t)) else t
  }

  /**
   Let alone, at most one more start of the handler does everything asked for so far; of a
   rescan that is the one of the last adapter refused, unless it runs RAID.
   */
  lemma AwakeIsServed(s: State)
    requires Inv(s) && Awake(s) && !s.inserter.Linked? && !s.queue.NotStarted? && |s.msgs| > 0
    ensures var u := HandlerAgain(Handler(s));
      && u.tasks == [] && u.processed == s.accepted
      && u.scanned == s.scanned + DueScan(s)
      && !(u.needRescan && u.rescanHba != 0)
  {
    HandlerServes(s);
    var t := Handler(s);
    hide Handler, Partition, InRange, Undisturbed;
    if t.pending {
      WorkKeeps(t);
      HandlerServes(WorkStep(t));
    }
  }

}
