/**
 Completions come to an end: every one uses up work that a submission brought, and while anything
 is below there is a completion to come.
 */
module ConsolidatorDrain {
  import opened Common
  import opened Consolidator
  import opened ConsolidatorInvariant
  import opened ConsolidatorCounter
  import opened ConsolidatorRuns

  /** The completions a request below can still cause: a merged one may fail, and its members are sent again. */
  ghost function Effort(d: Down, u: ()): nat { if d.Merged? then |d.internal.members| + 1 else 1 }

  ghost function Work(v: Device, u: ()): nat {
    Sum(v.flight, Effort, ()) + if v.holding.Some? then |v.holding.value.members| + 1 else 0
  }

  lemma SendSingleWork(v: Device, r: Request, again: bool)
    ensures Work(SendSingle(v, r, again), ()) == Work(v, ()) + 1
  {
    SumSnoc(v.flight, Single(r), Effort, ());
    hide Sum;
  }

  lemma CloseIfHoldingWork(v: Device)
    ensures Work(CloseIfHolding(v), ()) == Work(v, ())
  {
    if v.holding.Some? {
      SumSnoc(v.flight, Merged(Closed(v.holding.value)), Effort, ());
    }
    hide Sum;
  }

  lemma BypassWork(v: Device, r: Request)
    ensures Work(Bypass(v, r), ()) == Work(v, ()) + 1
  {
    hide Work;
    CloseIfHoldingWork(v);
    SendSingleWork(CloseIfHolding(v), r, false);
  }

  lemma MergeWork(v: Device, free: seq<nat>, r: Request)
    ensures Work(Merge(v, free, r).0, ()) <= Work(v, ()) + 2
  {
    hide Sum;
    var v1 := if v.holding.Some? && TooBig(v.holding.value, r) then CloseAndSend(v) else v;
    CloseIfHoldingWork(v);
    if v1.holding.None? && free == [] {
      SendSingleWork(v1, r, false);
    } else {
      var v2 := if v1.holding.Some? then v1 else v1.(holding := Some(FreshInternal(free[0], r.lba)));
      CloseIfHoldingWork(Attach(v2, r));
    }
  }

  /** A submission brings at most two. */
  lemma SubmitWork(v: Device, free: seq<nat>, r: Request)
    ensures Work(Submit(v, free, r).0, ()) <= Work(v, ()) + 2
  {
    hide Sum, Merge;
    BypassWork(v, r);
    BypassWork(v.(isRead := IsRead(r.op)), r);
    BypassWork(Track(v, r), r);
    MergeWork(Track(v, r), free, r);
  }

  lemma ReturnWork(v: Device, r: Request)
    ensures Work(Return(v, r), ()) == Work(v, ())
  {
    hide Sum;
    var v1 := v.(done := v.done + [r]);
    CloseIfHoldingWork(if IsReadWrite(r.op) then v1.(ioCount := Dec16(v1.ioCount)) else v1);
  }

  lemma {:induction false} FanOutWork(v: Device, ms: seq<Request>)
    ensures Work(FanOut(v, ms), ()) == Work(v, ())
    decreases |ms|
  {
    hide Sum;
    if ms != [] {
      var v1 := if |ms| == 1 then v else v.(ioCount := Inc16(v.ioCount));
      ReturnWork(v1, ms[0]);
      FanOutWork(Return(v1, ms[0]), ms[1..]);
    }
  }

  lemma {:induction false} ResendAllWork(v: Device, ms: seq<Request>)
    ensures Work(ResendAll(v, ms), ()) == Work(v, ()) + |ms|
    decreases |ms|
  {
    hide Work;
    if ms != [] {
      SendSingleWork(v, ms[0], true);
      ResendAllWork(SendSingle(v, ms[0], true), ms[1..]);
    }
  }

  lemma CompleteSingleWork(v: Device, j: nat)
    requires j < |v.flight| && v.flight[j].Single?
    ensures Work(CompleteSingle(v, j), ()) == Work(v, ()) - 1
  {
    SumDrop(v.flight, j, Effort, ());
    ReturnWork(v.(flight := DropAt(v.flight, j)), v.flight[j].request);
    hide Sum;
  }

  lemma CompleteMergedWork(v: Device, free: seq<nat>, j: nat, ok: bool)
    requires j < |v.flight| && v.flight[j].Merged?
    ensures Work(CompleteMerged(v, free, j, ok).0, ()) < Work(v, ())
  {
    SumDrop(v.flight, j, Effort, ());
    hide Sum;
    var w := v.(flight := DropAt(v.flight, j));
    FanOutWork(w, v.flight[j].internal.members);
    ResendAllWork(w.(ioCount := Dec16(w.ioCount), sequential := 0), v.flight[j].internal.members);
  }

  // ---------------------------------------------------------------- runs

  ghost function TotalWork(s: System): nat { Sum(s.devs, Work, ()) }

  predicate IsCompletion(e: Event) { e.SingleDone? || e.MergedDone? }

  /** The steps a run takes that complete what is below, and those that submit. */
  function Completions(es: seq<Event>): nat {
    if es == [] then 0 else Completions(es[..|es| - 1]) + if IsCompletion(es[|es| - 1]) then 1 else 0
  }

  function Submissions(es: seq<Event>): nat {
    if es == [] then 0 else Submissions(es[..|es| - 1]) + if es[|es| - 1].Submission? then 1 else 0
  }

  lemma {:induction false} SameTotal(a: seq<Device>, b: seq<Device>)
    requires |a| == |b| && forall i :: 0 <= i < |a| ==> SameWork(a[i], b[i])
    ensures Sum(a, Work, ()) == Sum(b, Work, ())
  {
    if a != [] {
      SameTotal(a[..|a| - 1], b[..|b| - 1]);
    }
  }

  lemma StepWork(s: System, e: Event)
    requires Legal(s, e)
    ensures TotalWork(Step(s, e)) + (if IsCompletion(e) then 1 else 0) <= TotalWork(s) + if e.Submission? then 2 else 0
  {
    hide Sum, Work, Submit, CompleteSingle, CompleteMerged, Return;
    var t := Step(s, e);
    match e
    case Submission(r) =>
      if r.device < |s.devs| {
        SubmitWork(s.devs[r.device], s.free, r);
        SumUpdate(s.devs, r.device, t.devs[r.device], Work, ());
      }
    case SingleDone(d, j) =>
      CompleteSingleWork(s.devs[d], j);
      SumUpdate(s.devs, d, t.devs[d], Work, ());
    case MergedDone(d, j, ok) =>
      CompleteMergedWork(s.devs[d], s.free, j, ok);
      SumUpdate(s.devs, d, t.devs[d], Work, ());
    case Unsubmitted(r) =>
      if r.device < |s.devs| {
        ReturnWork(s.devs[r.device], r);
        SumUpdate(s.devs, r.device, t.devs[r.device], Work, ());
      }
    case SetDevice(d, cached) => SameTotal(s.devs, t.devs);
    case ChangeSetting(enable, caches) => SameTotal(s.devs, t.devs);
  }

  /**
   From any state: the completions of a run are at most the work there was, and two for each
   submission since; without submissions they are bounded whatever fails.
   */
  lemma {:induction false} CompletionsBounded(ss: seq<System>, es: seq<Event>)
    requires Chain(ss, es)
    ensures Completions(es) + TotalWork(ss[|es|]) <= TotalWork(ss[0]) + 2 * Submissions(es)
    decreases |es|
  {
    hide TotalWork, Step, Legal;
    if es != [] {
      CompletionsBounded(ss[..|es|], es[..|es| - 1]);
      StepWork(ss[|es| - 1], es[|es| - 1]);
    }
  }

  predicate NothingBelow(s: System) { forall d :: 0 <= d < |s.devs| ==> s.devs[d].flight == [] }

  /** Exact condition: a completion is to come if and only if something is below. */
  lemma CompletionToCome(s: System)
    ensures (exists e :: IsCompletion(e) && Legal(s, e)) <==> !NothingBelow(s)
  {
    if !NothingBelow(s) {
      var d :| 0 <= d < |s.devs| && s.devs[d].flight != [];
      var e := if s.devs[d].flight[0].Single? then SingleDone(d, 0) else MergedDone(d, 0, true);
      assert IsCompletion(e) && Legal(s, e);
    }
  }

  /** So completions alone bring any system to rest, within its work. */
  lemma {:induction false} Drains(s: System) returns (ss: seq<System>, es: seq<Event>)
    ensures Chain(ss, es) && ss[0] == s && (forall e <- es :: IsCompletion(e))
    ensures NothingBelow(ss[|es|]) && |es| <= TotalWork(s)
    decreases TotalWork(s)
  {
    if NothingBelow(s) {
      ss, es := [s], [];
    } else {
      CompletionToCome(s);
      var e :| IsCompletion(e) && Legal(s, e);
      StepWork(s, e);
      hide TotalWork, Step, Legal, NothingBelow;
      ss, es := Drains(Step(s, e));
      ss, es := [s] + ss, [e] + es;
    }
  }

  lemma Join(reqCount: nat, devCount: nat, ss: seq<System>, es: seq<Event>, ts: seq<System>, fs: seq<Event>)
    requires IsRun(reqCount, devCount, ss, es) && Chain(ts, fs) && ts[0] == ss[|es|]
    ensures IsRun(reqCount, devCount, ss[..|es|] + ts, es + fs) && (ss[..|es|] + ts)[|es + fs|] == ts[|fs|]
  {
    hide Step, Legal;
    var us, gs := ss[..|es|] + ts, es + fs;
    forall i | 0 <= i < |gs| ensures Legal(us[i], gs[i]) && us[i + 1] == Step(us[i], gs[i]) {
      if i < |es| {
        assert us[i] == ss[i] && gs[i] == es[i] && us[i + 1] == ss[i + 1];
      } else {
        assert us[i] == ts[i - |es|] && gs[i] == fs[i - |es|] && us[i + 1] == ts[i - |es| + 1];
      }
    }
  }

  lemma {:induction false} CompletionsBringNothing(es: seq<Event>, fs: seq<Event>, d: nat)
    requires forall e <- fs :: IsCompletion(e)
    ensures Arrivals(es + fs, d) == Arrivals(es, d) && ZeroSector(es + fs, d) == ZeroSector(es, d)
  {
    if fs == [] {
      assert es + fs == es;
    } else {
      CompletionsBringNothing(es, fs[..|fs| - 1], d);
      assert (es + fs)[..|es + fs| - 1] == es + fs[..|fs| - 1];
      assert IsCompletion((es + fs)[|es + fs| - 1]);
    }
  }

  /**
   Every run can be brought to an end by completions alone; what has arrived at a device is then
   completed or was forgotten, unless reads and writes never submitted have put its counter out.
   */
  lemma EverythingCompletes(reqCount: nat, devCount: nat, ss: seq<System>, es: seq<Event>)
    returns (us: seq<System>, fs: seq<Event>)
    requires IsRun(reqCount, devCount, ss, es)
    ensures IsRun(reqCount, devCount, us, es + fs) && (forall e <- fs :: IsCompletion(e)) && |fs| <= TotalWork(ss[|es|])
    ensures NothingBelow(us[|es + fs|]) && forall m <- us :: |m.devs| == devCount
    ensures forall d :: 0 <= d < devCount && ZeroSector(es, d) % U16 == 0 ==> AllDone(us, es + fs, es, d)
  {
    var ts;
    ts, fs := Drains(ss[|es|]);
    us := ss[..|es|] + ts;
    Join(reqCount, devCount, ss, es, ts, fs);
    Shorter(reqCount, devCount, us, es + fs);
    hide IsRun, Chain;
    forall d | 0 <= d < devCount && ZeroSector(es, d) % U16 == 0 ensures AllDone(us, es + fs, es, d) {
      NothingStranded(reqCount, devCount, us, es + fs, d);
      CompletionsBringNothing(es, fs, d);
    }
  }

  /** Device `d` has nothing left of what came to it in `es`. */
  ghost predicate AllDone(us: seq<System>, gs: seq<Event>, es: seq<Event>, d: nat)
    requires |us| == |gs| + 1 && forall m <- us :: d < |m.devs|
  {
    && us[|gs|].devs[d].holding.None?
    && forall q :: Count(us[|gs|].devs[d].done, q) + Count(Forgotten(us, gs, d), q) == Count(Arrivals(es, d), q)
  }
}
