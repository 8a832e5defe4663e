/**
 Whole runs of the consolidator: any number of devices sharing one pool of internal requests,
 any order of submissions, completions and setting changes, and requests that are completed
 without ever being submitted.
 */
module ConsolidatorRuns {
  import opened Common
  import opened Consolidator
  import opened ConsolidatorInvariant
  import opened ConsolidatorCounter
  import opened ConsolidatorShape

  /** `unknown` are the requests passed on for devices without a record. */
  datatype System = System(devs: seq<Device>, free: seq<nat>, moduleEnabled: bool, unknown: seq<Request>)

  datatype Event =
    | Submission(r: Request)
    | SingleDone(d: nat, j: nat)
    | MergedDone(d: nat, j: nat, ok: bool)
    | Unsubmitted(r: Request)   // completed without a submission
    | SetDevice(d: nat, cached: bool)
    | ChangeSetting(enable: bool, caches: seq<bool>)

  const NO_REQUEST := Request(0, 0, 0, 0, 0, 0, 0, false)
  const NEW_DEVICE := Device(0, None, 0, false, 0, false, 0, 0, [], [], [])

  /** ModConsolid_InitializeExtension. */
  function Init(reqCount: nat, devCount: nat): System {
    System(seq(devCount, i => NEW_DEVICE), Upto(reqCount), false, [])
  }

  /** ModConsolid_SetDevice for one device. */
  function Configured(v: Device, cached: bool): Device {
    v.(enabled := !cached, sgLimit := MAX_SG_ENTRY)
  }

  /** ModConsolid_ChangeConsSetting for one device. */
  function Reconfigured(v: Device, enable: bool, cached: bool): Device {
    if enable then Configured(v, cached) else v.(enabled := false)
  }

  /**
   Events the environment may raise: only work that is below completes, a read or write that is
   submitted names an existing device, one that is completed at once is of no sectors (whatever
   is no read or write may be), and a setting change knows every device.
   */
  predicate Legal(s: System, e: Event) {
    match e
    case Submission(r) => IsReadWrite(r.op) ==> r.device < |s.devs|
    case SingleDone(d, j) => d < |s.devs| && j < |s.devs[d].flight| && s.devs[d].flight[j].Single?
    case MergedDone(d, j, _) => d < |s.devs| && j < |s.devs[d].flight| && s.devs[d].flight[j].Merged?
    case Unsubmitted(r) => IsReadWrite(r.op) ==> r.sectors == 0
    case SetDevice(d, _) => d < |s.devs|
    case ChangeSetting(_, caches) => |caches| == |s.devs|
  }

  function Step(s: System, e: Event): (t: System)
    requires Legal(s, e)
    ensures |t.devs| == |s.devs|
  {
    match e
    case Submission(r) =>
      if r.device >= |s.devs| then s.(unknown := s.unknown + [r])
      else
        var (w, free1) := Submit(s.devs[r.device], s.free, r);
        s.(devs := s.devs[r.device := w], free := free1)
    case SingleDone(d, j) => s.(devs := s.devs[d := CompleteSingle(s.devs[d], j)])
    case MergedDone(d, j, ok) =>
      var (w, free1) := CompleteMerged(s.devs[d], s.free, j, ok);
      s.(devs := s.devs[d := w], free := free1)
    case Unsubmitted(r) =>
      if r.device >= |s.devs| then s else s.(devs := s.devs[r.device := Return(s.devs[r.device], r)])
    case SetDevice(d, cached) =>
      if s.moduleEnabled then s.(devs := s.devs[d := Configured(s.devs[d], cached)]) else s
    case ChangeSetting(enable, caches) =>
      s.(moduleEnabled := enable,
         devs := seq(|s.devs|, i requires 0 <= i < |s.devs| => Reconfigured(s.devs[i], enable, caches[i])))
  }

  /** Each state but the first is what a legal event makes of the one before. */
  ghost predicate Chain(ss: seq<System>, es: seq<Event>) {
    && |ss| == |es| + 1
    && forall i :: 0 <= i < |es| ==> Legal(ss[i], es[i]) && ss[i + 1] == Step(ss[i], es[i])
  }

  /** A run from the initial state. */
  ghost predicate IsRun(reqCount: nat, devCount: nat, ss: seq<System>, es: seq<Event>) {
    Chain(ss, es) && ss[0] == Init(reqCount, devCount)
  }

  lemma {:induction false} SameDevices(ss: seq<System>, es: seq<Event>)
    requires Chain(ss, es)
    ensures |ss[|es|].devs| == |ss[0].devs|
    decreases |es|
  {
    if es != [] {
      SameDevices(ss[..|es|], es[..|es| - 1]);
    }
  }

  /** One step back. */
  lemma Shorter(reqCount: nat, devCount: nat, ss: seq<System>, es: seq<Event>)
    requires IsRun(reqCount, devCount, ss, es)
    ensures |ss| == |es| + 1 && forall m <- ss :: |m.devs| == devCount
    ensures es != [] ==>
      && IsRun(reqCount, devCount, ss[..|es|], es[..|es| - 1])
      && Legal(ss[|es| - 1], es[|es| - 1]) && ss[|es|] == Step(ss[|es| - 1], es[|es| - 1])
  {
    forall i | 0 <= i < |ss| ensures |ss[i].devs| == devCount {
      SameDevices(ss[..i + 1], es[..i]);
    }
  }

  /** The submissions to device `d`, in order: the reference every run is compared with. */
  function SubmittedTo(es: seq<Event>, d: nat): seq<Request> {
    if es == [] then [] else SubmittedTo(es[..|es| - 1], d) + SubmissionTo(es[|es| - 1], d)
  }

  function SubmissionTo(e: Event, d: nat): seq<Request> {
    if e.Submission? && e.r.device == d then [e.r] else []
  }

  /** The requests for device `d` from the OS, submitted or completed at once. */
  function Arrivals(es: seq<Event>, d: nat): seq<Request> {
    if es == [] then [] else Arrivals(es[..|es| - 1], d) + ArrivalAt(es[|es| - 1], d)
  }

  function ArrivalAt(e: Event, d: nat): seq<Request> {
    if (e.Submission? || e.Unsubmitted?) && e.r.device == d then [e.r] else []
  }

  /** How many reads and writes for device `d` were completed without a submission. */
  function ZeroSector(es: seq<Event>, d: nat): nat {
    if es == [] then 0 else ZeroSector(es[..|es| - 1], d) + ZeroSectorAt(es[|es| - 1], d)
  }

  function ZeroSectorAt(e: Event, d: nat): nat {
    if e.Unsubmitted? && e.r.device == d && IsReadWrite(e.r.op) then 1 else 0
  }

  /** The held requests that were overwritten in the course of the run. */
  function Forgotten(ss: seq<System>, es: seq<Event>, d: nat): seq<Request>
    requires |ss| == |es| + 1 && forall m <- ss :: d < |m.devs|
    decreases |es|
  {
    if es == [] then []
    else
      var n := |es| - 1;
      Forgotten(ss[..|es|], es[..n], d) + if SubmissionTo(es[n], d) != [] then Lost(ss[n].devs[d], es[n].r) else []
  }

  /** How often slot `k` is in the free queue or in use by a device. */
  ghost function SlotCount(s: System, k: nat): nat { Count(s.free, k) + Sum(s.devs, SlotUse, k) }

  predicate FailedMerge(e: Event) { e.MergedDone? && !e.ok }

  // ---------------------------------------------------------------- one step

  function LostAt(v: Device, e: Event, d: nat): seq<Request> {
    if SubmissionTo(e, d) != [] then Lost(v, e.r) else []
  }

  /** One step adds exactly the request it carries, to the line and to the places, less what it overwrites. */
  lemma StepMoves(s: System, e: Event, d: nat, q: Request)
    requires Legal(s, e) && d < |s.devs|
    ensures var v, w := s.devs[d], Step(s, e).devs[d];
      && Line(w) == (if SubmissionTo(e, d) != [] then LineWithout(v, LostAt(v, e, d), e.r) else Line(v))
      && Places(w, q) == Places(v, q) + Count(ArrivalAt(e, d), q) - Count(LostAt(v, e, d), q)
      && Slack(w, q) >= Slack(v, q)
      && (!FailedMerge(e) ==> SentTwice(w, q) == SentTwice(v, q))
  {
    hide Sum, InOrder, Submit, CompleteSingle, CompleteMerged, Return, Lost;
    CountSmall(if e.Submission? || e.Unsubmitted? then e.r else q, q);
    match e
    case Submission(r) => if r.device == d { SubmitMoves(s.devs[d], s.free, r, q, 0); }
    case SingleDone(c, j) => CompleteSingleMoves(s.devs[c], j, q, 0);
    case MergedDone(c, j, ok) => CompleteMergedMoves(s.devs[c], s.free, j, ok, q, 0);
    case Unsubmitted(r) => if r.device == d { ReturnMoves(s.devs[d], r, q, 0); }
    case SetDevice(c, cached) =>
    case ChangeSetting(enable, caches) =>
  }

  /** Nothing the counts see changes when a device's settings do. */
  ghost predicate SameWork(v: Device, w: Device) {
    w.flight == v.flight && w.handed == v.handed && w.holding == v.holding && w.done == v.done
  }

  lemma StepCounts(s: System, e: Event, d: nat, z: nat)
    requires Legal(s, e) && d < |s.devs| && Counted(s.devs[d], z)
    ensures Counted(Step(s, e).devs[d], z + ZeroSectorAt(e, d))
  {
    hide Sum, Submit, CompleteSingle, CompleteMerged, Return, RwBelow, RwRing;
    match e
    case Submission(r) => if r.device == d { SubmitCounts(s.devs[d], s.free, r, z); }
    case SingleDone(c, j) => if c == d { CompleteSingleCounts(s.devs[d], j, z); }
    case MergedDone(c, j, ok) => if c == d { CompleteMergedCounts(s.devs[d], s.free, j, ok, z); }
    case Unsubmitted(r) => if r.device == d { UnsubmittedCounts(s.devs[d], r, z); }
    case SetDevice(c, cached) =>
    case ChangeSetting(enable, caches) =>
  }

  predicate Proper(e: Event) { e.Submission? ==> WellFormed(e.r) }

  lemma SettingsShape(v: Device, w: Device)
    requires Shaped(v) && SameWork(v, w)
    requires w.sequential == v.sequential && w.lastLba == v.lastLba && w.reqCount == v.reqCount
    requires w.sgLimit == MAX_SG_ENTRY || (w.sgLimit == v.sgLimit && (w.enabled ==> v.enabled))
    ensures Shaped(w)
  {
    hide GoodRing, GoodFlight;
  }

  lemma StepShape(s: System, e: Event, d: nat)
    requires Legal(s, e) && d < |s.devs| && Shaped(s.devs[d]) && Proper(e)
    ensures Shaped(Step(s, e).devs[d])
  {
    hide Sum, Shaped, Submit, CompleteSingle, CompleteMerged, Return, WellFormed;
    match e
    case Submission(r) => if r.device == d { SubmitShape(s.devs[d], s.free, r); }
    case SingleDone(c, j) => if c == d { CompleteSingleShape(s.devs[d], j); }
    case MergedDone(c, j, ok) => if c == d { CompleteMergedShape(s.devs[d], s.free, j, ok); }
    case Unsubmitted(r) => if r.device == d { ReturnShape(s.devs[d], r); }
    case SetDevice(c, cached) => if c == d { SettingsShape(s.devs[d], Configured(s.devs[d], cached)); }
    case ChangeSetting(enable, caches) => SettingsShape(s.devs[d], Reconfigured(s.devs[d], enable, caches[d]));
  }

  lemma {:induction false} SameSlotUse(a: seq<Device>, b: seq<Device>, k: nat)
    requires |a| == |b| && forall i :: 0 <= i < |a| ==> SameWork(a[i], b[i])
    ensures Sum(a, SlotUse, k) == Sum(b, SlotUse, k)
  {
    if a != [] {
      SameSlotUse(a[..|a| - 1], b[..|b| - 1], k);
    }
  }

  lemma StepKeepsSlots(s: System, e: Event, k: nat)
    requires Legal(s, e)
    ensures SlotCount(Step(s, e), k) == SlotCount(s, k)
  {
    hide Sum, SlotUse, Submit, CompleteSingle, CompleteMerged, Return;
    var t := Step(s, e);
    match e
    case Submission(r) =>
      if r.device < |s.devs| {
        SubmitMoves(s.devs[r.device], s.free, r, NO_REQUEST, k);
        SumUpdate(s.devs, r.device, t.devs[r.device], SlotUse, k);
      }
    case SingleDone(d, j) =>
      CompleteSingleMoves(s.devs[d], j, NO_REQUEST, k);
      SumUpdate(s.devs, d, t.devs[d], SlotUse, k);
    case MergedDone(d, j, ok) =>
      CompleteMergedMoves(s.devs[d], s.free, j, ok, NO_REQUEST, k);
      SumUpdate(s.devs, d, t.devs[d], SlotUse, k);
    case Unsubmitted(r) =>
      if r.device < |s.devs| {
        ReturnMoves(s.devs[r.device], r, NO_REQUEST, k);
        SumUpdate(s.devs, r.device, t.devs[r.device], SlotUse, k);
      }
    case SetDevice(d, cached) => SameSlotUse(s.devs, t.devs, k);
    case ChangeSetting(enable, caches) => SameSlotUse(s.devs, t.devs, k);
  }

  // ---------------------------------------------------------------- every run

  /** Over every run: where the requests for device `d` are, and what is left of their order. */
  lemma {:induction false} EveryRun(reqCount: nat, devCount: nat, ss: seq<System>, es: seq<Event>, d: nat, q: Request)
    requires IsRun(reqCount, devCount, ss, es) && d < devCount
    ensures forall m <- ss :: d < |m.devs|
    ensures var v, lost := ss[|es|].devs[d], Forgotten(ss, es, d);
      && |Line(v)| + |lost| == |SubmittedTo(es, d)|
      && (lost == [] ==> Line(v) == SubmittedTo(es, d))
      && Count(Line(v), q) + Count(lost, q) == Count(SubmittedTo(es, d), q)
      && Places(v, q) + Count(lost, q) == Count(Arrivals(es, d), q)
      && Slack(v, q) >= 0
      && ((forall e <- es :: !FailedMerge(e)) ==> SentTwice(v, q) == 0)
    decreases |es|
  {
    hide IsRun, Sum, InOrder, Step, Legal, Lost;
    Shorter(reqCount, devCount, ss, es);
    if es == [] {
      InitialState(reqCount, devCount, ss, es, d, q);
    } else {
      var n := |es| - 1;
      EveryRun(reqCount, devCount, ss[..|es|], es[..n], d, q);
      StepMoves(ss[n], es[n], d, q);
      var lost, more := Forgotten(ss[..|es|], es[..n], d), LostAt(ss[n].devs[d], es[n], d);
      assert Forgotten(ss, es, d) == lost + more;
      SumConcat(lost, more, Same, q);
      SumConcat(Arrivals(es[..n], d), ArrivalAt(es[n], d), Same, q);
      SumConcat(SubmittedTo(es[..n], d), SubmissionTo(es[n], d), Same, q);
      LineCount(ss[n].devs[d], more, es[n], d, q);
    }
  }

  lemma LineCount(v: Device, lost: seq<Request>, e: Event, d: nat, q: Request)
    requires lost == LostAt(v, e, d)
    ensures var line := if SubmissionTo(e, d) != [] then LineWithout(v, lost, e.r) else Line(v);
      && |line| + |lost| == |Line(v)| + |SubmissionTo(e, d)|
      && Count(line, q) + Count(lost, q) == Count(Line(v), q) + Count(SubmissionTo(e, d), q)
  {
    hide InOrder, Sum;
    CountSmall(if e.Submission? then e.r else q, q);
    if SubmissionTo(e, d) != [] {
      CountSnoc(Line(v), e.r, q);
      CountSnoc(InOrder(v.handed), e.r, q);
      SumConcat(InOrder(v.handed), Held(v), Same, q);
    }
  }

  lemma InitialState(reqCount: nat, devCount: nat, ss: seq<System>, es: seq<Event>, d: nat, q: Request)
    requires IsRun(reqCount, devCount, ss, es) && d < devCount && es == []
    ensures var v := ss[0].devs[d];
      && Line(v) == [] && Places(v, q) == 0 && Slack(v, q) == 0 && SentTwice(v, q) == 0
      && Count(Line(v), q) == 0 && Count(SubmittedTo(es, d), q) == 0 && Count(Arrivals(es, d), q) == 0
      && Counted(v, 0) && Shaped(v)
  {
  }

  /** Over every run the counter is what is below less the reads and writes never submitted. */
  lemma {:induction false} EveryRunCounts(reqCount: nat, devCount: nat, ss: seq<System>, es: seq<Event>, d: nat)
    requires IsRun(reqCount, devCount, ss, es) && d < devCount
    ensures |ss[|es|].devs| == devCount && Counted(ss[|es|].devs[d], ZeroSector(es, d))
    decreases |es|
  {
    hide IsRun, Counted, Step, Legal;
    Shorter(reqCount, devCount, ss, es);
    if es == [] {
      InitialState(reqCount, devCount, ss, es, d, NO_REQUEST);
    } else {
      var n := |es| - 1;
      EveryRunCounts(reqCount, devCount, ss[..|es|], es[..n], d);
      StepCounts(ss[n], es[n], d, ZeroSector(es[..n], d));
    }
  }

  /** Over every run of well-formed submissions what is held and below is in shape, and nothing is forgotten. */
  lemma {:induction false} EveryRunShape(reqCount: nat, devCount: nat, ss: seq<System>, es: seq<Event>, d: nat)
    requires IsRun(reqCount, devCount, ss, es) && d < devCount
    requires forall e <- es :: Proper(e)
    ensures forall m <- ss :: d < |m.devs|
    ensures Shaped(ss[|es|].devs[d]) && Forgotten(ss, es, d) == []
    decreases |es|
  {
    hide IsRun, Step, Legal, Settings, GoodFlight, GoodHeld, Lost, Proper;
    Shorter(reqCount, devCount, ss, es);
    if es == [] {
      InitialState(reqCount, devCount, ss, es, d, NO_REQUEST);
    } else {
      var n := |es| - 1;
      EveryRunShape(reqCount, devCount, ss[..|es|], es[..n], d);
      StepShape(ss[n], es[n], d);
      if SubmissionTo(es[n], d) != [] {
        NothingForgotten(ss[n].devs[d], es[n].r);
      }
    }
  }

  /**
   Order: for every device, first hand-overs (merged ones in ring order) followed by the held
   requests are the submissions to it, exactly when no submission took a held request of zero
   length for an unused one.
   */
  lemma OrderExactly(reqCount: nat, devCount: nat, ss: seq<System>, es: seq<Event>, d: nat)
    requires IsRun(reqCount, devCount, ss, es) && d < devCount
    ensures forall m <- ss :: d < |m.devs|
    ensures var v := ss[|es|].devs[d];
      InOrder(v.handed) + Held(v) == SubmittedTo(es, d)
      <==> forall i :: 0 <= i < |es| && SubmissionTo(es[i], d) != [] ==> !Forgets(ss[i].devs[d], es[i].r)
  {
    EveryRun(reqCount, devCount, ss, es, d, NO_REQUEST);
    ForgottenExactly(ss, es, d);
    hide IsRun;
  }

  lemma {:induction false} ForgottenExactly(ss: seq<System>, es: seq<Event>, d: nat)
    requires |ss| == |es| + 1 && forall m <- ss :: d < |m.devs|
    ensures Forgotten(ss, es, d) == []
       <==> forall i :: 0 <= i < |es| && SubmissionTo(es[i], d) != [] ==> !Forgets(ss[i].devs[d], es[i].r)
    decreases |es|
  {
    hide Forgets, Lost;
    if es != [] {
      var n := |es| - 1;
      var ts, fs := ss[..|es|], es[..n];
      ForgottenExactly(ts, fs, d);
      assert forall i :: 0 <= i < n ==> ts[i] == ss[i] && fs[i] == es[i];
      if es[n].Submission? {
        LostExactly(ss[n].devs[d], es[n].r);
      }
    }
  }

  lemma LostExactly(v: Device, r: Request)
    ensures Lost(v, r) == [] <==> !Forgets(v, r)
  {
  }

  lemma {:induction false} MergedIsInOrder(h: seq<HandOver>, q: Request)
    ensures Sum(h, FirstMerged, q) <= Count(InOrder(h), q)
  {
    if h == [] {
    } else {
      var n := |h| - 1;
      MergedIsInOrder(h[..n], q);
      SumConcat(InOrder(h[..n]), if h[n].First? then MembersOf(h[n].down) else [], Same, q);
    }
  }

  /**
   Exactly once, in every run: a request that came once is in one place only (completed, below,
   held, or forgotten), goes below for the first time at most once, and is handed over again at
   most once.
   */
  lemma ExactlyOnce(reqCount: nat, devCount: nat, ss: seq<System>, es: seq<Event>, d: nat, q: Request)
    requires IsRun(reqCount, devCount, ss, es) && d < devCount && Distinct(Arrivals(es, d))
    ensures forall m <- ss :: d < |m.devs|
    ensures var v, lost := ss[|es|].devs[d], Forgotten(ss, es, d);
      && Places(v, q) + Count(lost, q) == (if q in Arrivals(es, d) then 1 else 0)
      && Count(InOrder(v.handed), q) + Count(Held(v), q) + Count(lost, q) == Count(SubmittedTo(es, d), q) <= 1
      && SentTwice(v, q) <= Count(InOrder(v.handed), q)
  {
    EveryRun(reqCount, devCount, ss, es, d, q);
    hide IsRun, Sum, Forgotten, InOrder, Places, SubmittedTo, Arrivals;
    var v := ss[|es|].devs[d];
    DistinctCount(Arrivals(es, d), q);
    SubmittedArrive(es, d, q);
    MergedIsInOrder(v.handed, q);
    SumConcat(InOrder(v.handed), Held(v), Same, q);
  }

  lemma {:induction false} SubmittedArrive(es: seq<Event>, d: nat, q: Request)
    ensures Count(SubmittedTo(es, d), q) <= Count(Arrivals(es, d), q)
  {
    hide Sum;
    if es != [] {
      var n := |es| - 1;
      SubmittedArrive(es[..n], d, q);
      SumConcat(SubmittedTo(es[..n], d), SubmissionTo(es[n], d), Same, q);
      SumConcat(Arrivals(es[..n], d), ArrivalAt(es[n], d), Same, q);
      CountSmall(q, q);
    }
  }

  /**
   The counter over every run, 16 bits wide and `z` short; as long as `z` is a multiple of 2^16,
   nothing is held while nothing runs, and at rest all that came is completed or was forgotten.
   */
  lemma NothingStranded(reqCount: nat, devCount: nat, ss: seq<System>, es: seq<Event>, d: nat)
    requires IsRun(reqCount, devCount, ss, es) && d < devCount
    ensures forall m <- ss :: d < |m.devs|
    ensures var v, z := ss[|es|].devs[d], ZeroSector(es, d);
      && v.ioCount == (Outstanding(v) - z) % U16
      && (v.holding.Some? ==> Outstanding(v) > 0 || v.ioCount != 0)
      && (z % U16 == 0 ==> !Stranded(v))
      && (z % U16 == 0 && v.flight == [] ==>
            v.holding.None? && forall q :: Count(v.done, q) + Count(Forgotten(ss, es, d), q) == Count(Arrivals(es, d), q))
  {
    EveryRunCounts(reqCount, devCount, ss, es, d);
    Shorter(reqCount, devCount, ss, es);
    hide IsRun, Forgotten, Arrivals, RwBelow, RwHeld, Sum;
    var v, z := ss[|es|].devs[d], ZeroSector(es, d);
    if z % U16 == 0 {
      CountedNotStranded(v, z);
      if v.flight == [] {
        NothingBelow(v);
        forall q ensures Count(v.done, q) + Count(Forgotten(ss, es, d), q) == Count(Arrivals(es, d), q) {
          EveryRun(reqCount, devCount, ss, es, d, q);
          AtRest(v, q);
        }
      }
    }
  }

  lemma NothingBelow(v: Device)
    requires v.flight == []
    ensures Outstanding(v) == 0
  {
  }

  lemma AtRest(v: Device, q: Request)
    requires v.flight == [] && v.holding.None?
    ensures Places(v, q) == Count(v.done, q)
  {
  }

  lemma {:induction false} SubmittedToDevice(es: seq<Event>, d: nat)
    ensures forall r <- Arrivals(es, d) :: r.device == d
  {
    if es != [] {
      SubmittedToDevice(es[..|es| - 1], d);
    }
  }

  /** The members of a merged request belong to the device it was sent for, and there is one. */
  lemma MembersAtHome(reqCount: nat, devCount: nat, ss: seq<System>, es: seq<Event>, d: nat, j: nat)
    requires IsRun(reqCount, devCount, ss, es) && d < devCount == |ss[|es|].devs|
    requires j < |ss[|es|].devs[d].flight| && ss[|es|].devs[d].flight[j].Merged?
    ensures var ms := ss[|es|].devs[d].flight[j].internal.members;
      ms != [] && forall m <- ms :: m.device == d
  {
    var v := ss[|es|].devs[d];
    EveryRunCounts(reqCount, devCount, ss, es, d);
    assert RwRing(v.flight[j].internal);
    SubmittedToDevice(es, d);
    hide IsRun, Counted, Sum;
    forall m | m in v.flight[j].internal.members ensures m.device == d {
      EveryRun(reqCount, devCount, ss, es, d, m);
      CountMember(v.flight[j].internal.members, m);
      SumDrop(v.flight, j, Carries, m);
      CountMember(Arrivals(es, d), m);
    }
  }

  /** A merged request below asks for its members' blocks, within the limits of the hardware and its table. */
  lemma MergedRequestsCover(reqCount: nat, devCount: nat, ss: seq<System>, es: seq<Event>, d: nat, j: nat)
    requires IsRun(reqCount, devCount, ss, es) && d < devCount == |ss[|es|].devs| && forall e <- es :: Proper(e)
    requires j < |ss[|es|].devs[d].flight| && ss[|es|].devs[d].flight[j].Merged?
    ensures var i := ss[|es|].devs[d].flight[j].internal;
      && Blocks(i.lba, i.sectors) == BlocksOf(i.members)
      && (forall m <- i.members :: m.op == i.op)
      && 0 < 512 * i.sectors == i.len <= MAX_INTERNAL_REQUEST_SIZE
      && 0 < 2 * |i.members| <= MAX_SG_ENTRY
  {
    EveryRunShape(reqCount, devCount, ss, es, d);
    hide IsRun;
    SentCoversMembers(ss[|es|].devs[d].flight[j].internal);
  }

  /** Every slot of the pool is in one place: free, or with one request of one device. */
  lemma {:induction false} PoolConserved(reqCount: nat, devCount: nat, ss: seq<System>, es: seq<Event>, k: nat)
    requires IsRun(reqCount, devCount, ss, es)
    ensures Count(ss[|es|].free, k) + Sum(ss[|es|].devs, SlotUse, k) == if k < reqCount then 1 else 0
    decreases |es|
  {
    hide Sum, Step, Legal;
    if es == [] {
      CountUpto(reqCount, k);
      NoSlotUse(devCount, k);
    } else {
      Shorter(reqCount, devCount, ss, es);
      hide IsRun;
      PoolConserved(reqCount, devCount, ss[..|es|], es[..|es| - 1], k);
      StepKeepsSlots(ss[|es| - 1], es[|es| - 1], k);
    }
  }

  lemma {:induction false} NoSlotUse(devCount: nat, k: nat)
    ensures Sum(seq(devCount, i => NEW_DEVICE), SlotUse, k) == 0
  {
    if devCount > 0 {
      NoSlotUse(devCount - 1, k);
      assert seq(devCount, i => NEW_DEVICE)[..devCount - 1] == seq(devCount - 1, i => NEW_DEVICE);
    }
  }

  /** What is submitted for devices without a record goes below, in order, and nothing else does there. */
  function SubmittedElsewhere(es: seq<Event>, devCount: nat): seq<Request> {
    if es == [] then []
    else
      var e := es[|es| - 1];
      SubmittedElsewhere(es[..|es| - 1], devCount) + if e.Submission? && e.r.device >= devCount then [e.r] else []
  }

  lemma {:induction false} UnknownPassedOn(reqCount: nat, devCount: nat, ss: seq<System>, es: seq<Event>)
    requires IsRun(reqCount, devCount, ss, es)
    ensures ss[|es|].unknown == SubmittedElsewhere(es, devCount)
    decreases |es|
  {
    hide Submit, CompleteSingle, CompleteMerged, Return;
    if es != [] {
      Shorter(reqCount, devCount, ss, es);
      UnknownPassedOn(reqCount, devCount, ss[..|es|], es[..|es| - 1]);
    }
  }
}
