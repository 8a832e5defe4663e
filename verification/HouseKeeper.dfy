/**
 The house-keeper as one thread sees its own code: each routine, run without interference,
 takes the queue through the steps of the interleaved model in MsgQueue.
 */
module HouseKeeper {
  import opened Common
  import opened MsgQueue

  /** All four steps of an insertion, or the refusal. */
  ghost function Inserted(s: State, p: Payload): State
    requires Inv(s) && s.inserter.Away?
  {
    if s.free == [] then InsertPeek(s, p)
    else InsertSchedule(InsertLink(InsertFill(InsertPeek(s, p))))
  }

  class MessageQueue {
    var free: seq<nat>
    var tasks: seq<nat>
    const msgs: array<Payload>
    var queueState: QueueState
    var needRescan: bool
    var rescanHba: nat
    var workPending: bool
    var accepted: seq<Payload>
    var processed: seq<Payload>
    var refused: seq<nat>
    var scanned: seq<nat>
    const nonRaid: set<nat>

    /** The state of the interleaved model when the inserter is away and the handler at `w`. */
    ghost function View(w: Worker): State
      reads this, msgs
    {
      State(free, tasks, msgs[..], queueState, needRescan, rescanHba, workPending, Away, w, nonRaid,
            accepted, processed, refused, scanned)
    }

    constructor QueueInit(depth: nat, nonRaid: set<nat>)
      ensures fresh(msgs)
      ensures View(Resting) == Init(depth, nonRaid)
    {
      this.nonRaid := nonRaid;
      msgs := new Payload[depth](i => Payload(0, 0, 0));
      free, tasks := [], [];
      queueState, needRescan, rescanHba, workPending := NotStarted, false, 0, false;
      accepted, processed, refused, scanned := [], [], [], [];
      new;
      var i := 0;
      while i < depth
        invariant i <= depth && free == Upto(i)
        invariant View(Resting).(free := []) == Init(depth, nonRaid).(free := [])
        modifies this`free
      {
        free := free + [i];
        i := i + 1;
      }
    }

    /** hba_msg_insert: the first free entry is filled and moved to the tail of the tasks, and work is scheduled. */
    method Insert(p: Payload, ghost w: Worker)
      requires Inv(View(w))
      modifies this, msgs
      ensures View(w) == Inserted(old(View(w)), p)
    {
      hide Partition, InSequence, RescanKnown, Distinct;
      if free == [] {
        needRescan := true;
        rescanHba := p.data;
        refused := refused + [p.data];
        return;
      }
      var m := free[0];
      msgs[m] := p;
      free := free[1..];
      tasks := tasks + [m];
      accepted := accepted + [msgs[m]];
      workPending := true;
    }

    /** The loop body of mv_proc_queue. */
    method ProcessFirst()
      requires Inv(View(Looping)) && tasks != []
      modifies this, msgs
      ensures Inv(View(Looping)) && Handler(View(Looping)) == Handler(old(View(Looping)))
      ensures |tasks| == |old(tasks)| - 1
    {
      ghost var before := View(Looping);
      FourSteps(before);
      hide Inv, Handler;
      var m := tasks[0];
      processed := processed + [msgs[m]];
      msgs[m] := msgs[m].(data := 0);
      tasks := tasks[1..];
      free := free + [m];
      assert View(Looping) == Turn(before);
    }

    /** hba_scan_host, up to the scan itself. */
    method ScanHost()
      requires Inv(View(BeforeScan))
      modifies this
      ensures View(Resting) == Handler(old(View(BeforeScan)))
    {
      ScanMeans(View(BeforeScan));
      hide Inv, Handler;
      if !needRescan || rescanHba == 0 {
        return;
      }
      var phba := rescanHba;
      needRescan := false;
      rescanHba := 0;
      refused := [];
      if phba !in nonRaid {
        return;
      }
      scanned := scanned + [phba];
    }

    /** mv_proc_queue, with hba_scan_host at its end up to the scan itself. */
    method ProcQueue()
      requires Inv(View(Starting))
      modifies this, msgs
      ensures View(Resting) == Handler(old(View(Starting)))
    {
      hide Inv, Handler;
      OneStep(View(Starting));
      queueState := Processing;
      while tasks != []
        invariant Inv(View(Looping))
        invariant Handler(View(Looping)) == Handler(old(View(Starting)))
        decreases |tasks|
      {
        ProcessFirst();
      }
      OneStep(View(Looping));
      queueState := Idle;
      ScanHost();
    }

    /** mv_wq_handler. */
    method WorkHandler()
      requires Inv(View(Entered))
      modifies this, msgs
      ensures View(Resting) == Handler(old(View(Entered)))
    {
      hide Inv, Handler;
      OneStep(View(Entered));
      if tasks == [] {
        return;
      }
      OneStep(View(SeenWork));
      if tasks != [] && queueState.Idle? {
        ProcQueue();
      }
    }
  }

  lemma ScanMeans(s: State)
    requires Inv(s) && s.worker.BeforeScan?
    ensures Handler(s)
         == if !s.needRescan || s.rescanHba == 0 then s.(worker := Resting)
            else s.(needRescan := false, rescanHba := 0, refused := [], worker := Resting,
                    scanned := if s.rescanHba in s.nonRaid then s.scanned + [s.rescanHba] else s.scanned)
  {
    hide Partition, InRange, InSequence, Undisturbed, RescanKnown;
    OneStep(s);
    if !WorkStep(s).worker.Resting? {
      OneStep(WorkStep(s));
    }
    hide Handler;
  }

  lemma OneStep(s: State)
    requires Inv(s) && !s.worker.Resting?
    ensures WorkDefined(s) && Inv(WorkStep(s)) && Handler(s) == Handler(WorkStep(s))
    ensures WorkStep(s).worker.Resting? ==> Handler(s) == WorkStep(s)
  {
    WorkKeeps(s);
    hide Inv, WorkStep;
  }

  /** One turn of the loop: the first task is processed, cleared and put back among the free entries. */
  function Turn(s: State): State
    requires s.tasks != [] && s.tasks[0] < |s.msgs|
  {
    var m := s.tasks[0];
    s.(processed := s.processed + [s.msgs[m]], msgs := s.msgs[m := s.msgs[m].(data := 0)],
       tasks := s.tasks[1..], free := s.free + [m])
  }

  lemma FourSteps(s: State)
    requires Inv(s) && s.worker.Looping? && s.tasks != []
    ensures s.tasks[0] < |s.msgs| && Inv(Turn(s)) && Handler(Turn(s)) == Handler(s)
  {
    hide Handler, Partition, InSequence, RescanKnown, Undisturbed, InRange;
    OneStep(s);
    var m := s.tasks[0];
    var took := s.(worker := Took(m));
    hide Inv;
    OneStep(took);
    var handled := took.(processed := s.processed + [s.msgs[m]], worker := Handled(m));
    OneStep(handled);
    var cleared := handled.(msgs := s.msgs[m := s.msgs[m].(data := 0)], worker := Cleared(m));
    OneStep(cleared);
  }
}
