/**
 What is held and sent when reads and writes are only asked not to be empty, as transfers with
 protection information are: their length is that of the data and of the protection together.
 */
module ConsolidatorCoverage {
  import opened Common
  import opened Consolidator
  import opened ConsolidatorInvariant
  import opened ConsolidatorShape
  import opened ConsolidatorRuns

  /** The transfer has a length. */
  predicate NotEmpty(r: Request) { IsReadWrite(r.op) ==> r.len > 0 }

  ghost function Sectors(r: Request, u: ()): nat { r.sectors }

  /** One opcode, each member starting where the one before it ends. */
  ghost predicate Linked(ms: seq<Request>, op: nat, lba: nat) {
    && |ms| > 0 && ms[0].lba == lba
    && (forall t :: 0 <= t < |ms| ==> ms[t].op == op)
    && (forall t :: 0 < t < |ms| ==> ms[t].lba == NextLba(ms[t - 1]))
  }

  ghost predicate LinkedRing(i: Internal) {
    Linked(i.members, i.op, i.lba) && i.len == Sum(i.members, Length, ())
  }

  ghost predicate LinkedHeld(v: Device, next: nat) {
    v.holding.Some? ==>
      && LinkedRing(v.holding.value) && v.holding.value.len > 0
      && next == NextLba(v.holding.value.members[|v.holding.value.members| - 1])
  }

  /** A merged request sent has its sectors from its length. */
  ghost predicate LinkedFlight(f: seq<Down>) {
    forall j :: 0 <= j < |f| && f[j].Merged? ==> LinkedRing(f[j].internal) && f[j].internal.sectors == f[j].internal.len / 512
  }

  ghost predicate Ordered(v: Device) { LinkedFlight(v.flight) && LinkedHeld(v, v.lastLba) && v.sequential <= SEQUENTIAL_MAX }

  lemma CloseIfHoldingOrdered(v: Device, next: nat)
    requires LinkedFlight(v.flight) && LinkedHeld(v, next) && v.sequential <= SEQUENTIAL_MAX
    ensures Ordered(CloseIfHolding(v))
  {
    hide Linked;
  }

  lemma SendSingleOrdered(v: Device, r: Request, again: bool)
    requires Ordered(v)
    ensures Ordered(SendSingle(v, r, again))
  {
    hide LinkedRing;
  }

  lemma BypassOrdered(v: Device, r: Request, next: nat)
    requires LinkedFlight(v.flight) && LinkedHeld(v, next) && v.sequential <= SEQUENTIAL_MAX
    ensures Ordered(Bypass(v, r))
  {
    hide LinkedRing, LinkedFlight;
    CloseIfHoldingOrdered(v, next);
    SendSingleOrdered(CloseIfHolding(v), r, false);
  }

  lemma AttachedLinked(i: Internal, r: Request)
    requires r.len > 0
    requires i == FreshInternal(i.slot, r.lba)
          || (LinkedRing(i) && i.len > 0 && r.lba == NextLba(i.members[|i.members| - 1]) && r.op == i.op)
    ensures LinkedRing(Attached(i, r)) && Attached(i, r).len > 0
    ensures Attached(i, r).members == i.members + [r]
  {
    SumSnoc(i.members, r, Length, ());
    var ms := Attached(i, r).members;
    assert ms == i.members + [r];
    assert Linked(ms, r.op, i.lba) by {
      hide Sum;
      forall t | 0 < t < |ms| ensures ms[t].lba == NextLba(ms[t - 1]) {
        assert ms[t - 1] == i.members[t - 1];
      }
    }
  }

  lemma MergeOrdered(v: Device, free: seq<nat>, r: Request)
    requires LinkedFlight(v.flight) && LinkedHeld(v, r.lba) && v.sequential <= SEQUENTIAL_MAX
    requires v.lastLba == NextLba(r) && r.len > 0
    ensures Ordered(Merge(v, free, r).0)
  {
    hide Linked, LinkedFlight, Sum;
    var v1 := if v.holding.Some? && TooBig(v.holding.value, r) then CloseAndSend(v) else v;
    CloseIfHoldingOrdered(v, r.lba);
    if v1.holding.None? && free == [] {
      SendSingleOrdered(v1, r, false);
    } else {
      var v2 := if v1.holding.Some? then v1 else v1.(holding := Some(FreshInternal(free[0], r.lba)));
      AttachedLinked(v2.holding.value, r);
      CloseIfHoldingOrdered(Attach(v2, r), v.lastLba);
    }
  }

  lemma SubmitOrdered(v: Device, free: seq<nat>, r: Request)
    requires Ordered(v) && NotEmpty(r)
    ensures Ordered(Submit(v, free, r).0)
  {
    hide LinkedRing, LinkedFlight, Merge;
    StreamMeans(v, r);
    BypassOrdered(v, r, v.lastLba);
    BypassOrdered(v.(isRead := IsRead(r.op)), r, v.lastLba);
    BypassOrdered(Track(v, r), r, v.lastLba);
    if InStream(v, r) {
      MergeOrdered(Track(v, r), free, r);
    }
  }

  lemma ReturnOrdered(v: Device, r: Request)
    requires Ordered(v)
    ensures Ordered(Return(v, r))
  {
    hide LinkedRing, LinkedFlight;
    var v1 := v.(done := v.done + [r]);
    CloseIfHoldingOrdered(if IsReadWrite(r.op) then v1.(ioCount := Dec16(v1.ioCount)) else v1, v.lastLba);
  }

  lemma {:induction false} FanOutOrdered(v: Device, ms: seq<Request>)
    requires Ordered(v)
    ensures Ordered(FanOut(v, ms))
    decreases |ms|
  {
    hide LinkedRing, LinkedFlight;
    if ms != [] {
      var v1 := if |ms| == 1 then v else v.(ioCount := Inc16(v.ioCount));
      ReturnOrdered(v1, ms[0]);
      FanOutOrdered(Return(v1, ms[0]), ms[1..]);
    }
  }

  lemma {:induction false} ResendAllOrdered(v: Device, ms: seq<Request>)
    requires Ordered(v)
    ensures Ordered(ResendAll(v, ms))
    decreases |ms|
  {
    hide Ordered;
    if ms != [] {
      SendSingleOrdered(v, ms[0], true);
      ResendAllOrdered(SendSingle(v, ms[0], true), ms[1..]);
    }
  }

  lemma TakenOffOrdered(v: Device, j: nat)
    requires j < |v.flight| && Ordered(v)
    ensures Ordered(v.(flight := DropAt(v.flight, j)))
  {
    hide LinkedRing;
    var f := DropAt(v.flight, j);
    forall k | 0 <= k < |f| && f[k].Merged? ensures LinkedRing(f[k].internal) && f[k].internal.sectors == f[k].internal.len / 512 {
      assert f[k] == v.flight[if k < j then k else k + 1];
    }
  }

  lemma CompleteMergedOrdered(v: Device, free: seq<nat>, j: nat, ok: bool)
    requires Ordered(v) && j < |v.flight| && v.flight[j].Merged?
    ensures Ordered(CompleteMerged(v, free, j, ok).0)
  {
    hide LinkedFlight, LinkedRing;
    TakenOffOrdered(v, j);
    var ms := v.flight[j].internal.members;
    var w := v.(flight := DropAt(v.flight, j));
    FanOutOrdered(w, ms);
    ResendAllOrdered(w.(ioCount := Dec16(w.ioCount), sequential := 0), ms);
  }

  lemma StepOrdered(s: System, e: Event, d: nat)
    requires Legal(s, e) && d < |s.devs| && Ordered(s.devs[d]) && (e.Submission? ==> NotEmpty(e.r))
    ensures Ordered(Step(s, e).devs[d])
  {
    hide Submit, CompleteSingle, CompleteMerged, Return, LinkedFlight, LinkedRing;
    match e
    case Submission(r) => if r.device == d { SubmitOrdered(s.devs[d], s.free, r); }
    case SingleDone(c, j) => if c == d { CompleteSingleOrdered(s.devs[d], j); }
    case MergedDone(c, j, ok) => if c == d { CompleteMergedOrdered(s.devs[d], s.free, j, ok); }
    case Unsubmitted(r) => if r.device == d { ReturnOrdered(s.devs[d], r); }
    case SetDevice(c, cached) =>
    case ChangeSetting(enable, caches) =>
  }

  lemma CompleteSingleOrdered(v: Device, j: nat)
    requires Ordered(v) && j < |v.flight| && v.flight[j].Single?
    ensures Ordered(CompleteSingle(v, j))
  {
    hide Ordered;
    TakenOffOrdered(v, j);
    ReturnOrdered(v.(flight := DropAt(v.flight, j)), v.flight[j].request);
  }

  lemma NothingLost(v: Device, r: Request)
    requires Ordered(v)
    ensures Lost(v, r) == []
  {
  }

  /** In every run in which no read or write submitted is empty, rings are linked and nothing is forgotten. */
  lemma {:induction false} EveryRunOrdered(reqCount: nat, devCount: nat, ss: seq<System>, es: seq<Event>, d: nat)
    requires IsRun(reqCount, devCount, ss, es) && d < devCount
    requires forall e <- es :: e.Submission? ==> NotEmpty(e.r)
    ensures forall m <- ss :: d < |m.devs|
    ensures Ordered(ss[|es|].devs[d]) && Forgotten(ss, es, d) == []
    decreases |es|
  {
    hide IsRun, Step, Legal, Ordered, Lost, NotEmpty;
    Shorter(reqCount, devCount, ss, es);
    if es == [] {
      InitiallyOrdered(reqCount, devCount, ss, es, d);
    } else {
      var n := |es| - 1;
      EveryRunOrdered(reqCount, devCount, ss[..|es|], es[..n], d);
      StepOrdered(ss[n], es[n], d);
      if SubmissionTo(es[n], d) != [] {
        NothingLost(ss[n].devs[d], es[n].r);
      }
    }
  }

  lemma InitiallyOrdered(reqCount: nat, devCount: nat, ss: seq<System>, es: seq<Event>, d: nat)
    requires IsRun(reqCount, devCount, ss, es) && d < devCount && es == []
    ensures Ordered(ss[0].devs[d])
  {
  }

  /**
   So the order is kept in every such run: first hand-overs followed by the held requests are the
   submissions; without a failed merge these are all hand-overs.
   */
  lemma OrderOverRuns(reqCount: nat, devCount: nat, ss: seq<System>, es: seq<Event>, d: nat)
    requires IsRun(reqCount, devCount, ss, es) && d < devCount
    requires forall e <- es :: e.Submission? ==> NotEmpty(e.r)
    ensures |ss[|es|].devs| == devCount
    ensures InOrder(ss[|es|].devs[d].handed) + Held(ss[|es|].devs[d]) == SubmittedTo(es, d)
    ensures (forall e <- es :: !FailedMerge(e)) ==>
      forall i :: 0 <= i < |ss[|es|].devs[d].handed| ==> ss[|es|].devs[d].handed[i].First?
  {
    EveryRun(reqCount, devCount, ss, es, d, NO_REQUEST);
    EveryRunOrdered(reqCount, devCount, ss, es, d);
    Shorter(reqCount, devCount, ss, es);
    hide IsRun, Ordered, Places, Slack;
    var v := ss[|es|].devs[d];
    if forall e <- es :: !FailedMerge(e) {
      forall i | 0 <= i < |v.handed| ensures v.handed[i].First? {
        if v.handed[i].Again? {
          EveryRun(reqCount, devCount, ss, es, d, v.handed[i].request);
          SumDrop(v.handed, i, SentAgain, v.handed[i].request);
          assert false;
        }
      }
    }
  }

  // ---------------------------------------------------------------- what a merged request asks for

  /** The members' blocks are those from the first on, as many as the members have sectors. */
  lemma {:induction false} LinkedBlocks(ms: seq<Request>, op: nat, lba: nat)
    requires Linked(ms, op, lba)
    ensures BlocksOf(ms) == Blocks(lba, Sum(ms, Sectors, ()))
    ensures (lba + Sum(ms, Sectors, ())) % LBA_SPACE == NextLba(ms[|ms| - 1])
  {
    var n := |ms| - 1;
    var before := Sum(ms[..n], Sectors, ());
    assert Sum(ms, Sectors, ()) == before + ms[n].sectors;
    hide Sum;
    if n == 0 {
      assert before == 0;
      assert BlocksOf(ms) == [] + Blocks(ms[n].lba, ms[n].sectors);
    } else {
      LinkedBlocks(ms[..n], op, lba);
      assert ms[n].lba == NextLba(ms[..n][n - 1]);
      AddBlocks(lba + before, ms[n].sectors);
      BlocksJoin(lba, before, ms[n].lba, ms[n].sectors);
    }
  }

  /**
   Exact condition in every run in which no read or write submitted is empty: a merged request below
   asks for exactly its members' blocks if and only if its length holds as many sectors as they have.
   */
  lemma CoversExactly(reqCount: nat, devCount: nat, ss: seq<System>, es: seq<Event>, d: nat, j: nat)
    requires IsRun(reqCount, devCount, ss, es) && d < devCount == |ss[|es|].devs|
    requires forall e <- es :: e.Submission? ==> NotEmpty(e.r)
    requires j < |ss[|es|].devs[d].flight| && ss[|es|].devs[d].flight[j].Merged?
    ensures var i := ss[|es|].devs[d].flight[j].internal;
      && i.len == Sum(i.members, Length, ()) && i.sectors == i.len / 512
      && (Blocks(i.lba, i.sectors) == BlocksOf(i.members) <==> i.len / 512 == Sum(i.members, Sectors, ()))
  {
    EveryRunOrdered(reqCount, devCount, ss, es, d);
    hide IsRun;
    var i := ss[|es|].devs[d].flight[j].internal;
    LinkedBlocks(i.members, i.op, i.lba);
    assert |Blocks(i.lba, i.sectors)| == i.sectors;
  }

  /** With 8 bytes of protection for each sector the length is 520 times the sectors. */
  lemma {:induction false} ProtectedLength(ms: seq<Request>)
    requires forall m <- ms :: m.len == 520 * m.sectors
    ensures Sum(ms, Length, ()) == 520 * Sum(ms, Sectors, ())
  {
    if ms != [] {
      var n := |ms| - 1;
      ProtectedLength(ms[..n]);
    }
  }

  /** So a merged request of such transfers asks for too many blocks if and only if they have 64 sectors or more. */
  lemma ProtectedCoverage(reqCount: nat, devCount: nat, ss: seq<System>, es: seq<Event>, d: nat, j: nat)
    requires IsRun(reqCount, devCount, ss, es) && d < devCount == |ss[|es|].devs|
    requires forall e <- es :: e.Submission? ==> NotEmpty(e.r)
    requires j < |ss[|es|].devs[d].flight| && ss[|es|].devs[d].flight[j].Merged?
    requires forall m <- ss[|es|].devs[d].flight[j].internal.members :: m.len == 520 * m.sectors
    ensures var i := ss[|es|].devs[d].flight[j].internal; var n := Sum(i.members, Sectors, ());
      && i.sectors == n + n / 64
      && (Blocks(i.lba, i.sectors) == BlocksOf(i.members) <==> n < 64)
  {
    CoversExactly(reqCount, devCount, ss, es, d, j);
    ProtectedLength(ss[|es|].devs[d].flight[j].internal.members);
    hide IsRun, Sum;
  }
}
