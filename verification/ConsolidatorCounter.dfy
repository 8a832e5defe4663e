/**
 The counter of requests running on a device, and what it is for: a held request is pushed when
 it falls to zero.  All of this holds whatever is submitted.  A read or write of no sectors is
 completed without ever being submitted; its push lowers the counter all the same.
 */
module ConsolidatorCounter {
  import opened Common
  import opened Consolidator
  import opened ConsolidatorInvariant

  /** The ring of an internal request has members, reads or writes like itself. */
  ghost predicate RwRing(i: Internal) {
    IsReadWrite(i.op) && i.members != [] && forall t :: 0 <= t < |i.members| ==> IsReadWrite(i.members[t].op)
  }

  ghost predicate RwBelow(f: seq<Down>) {
    forall j :: 0 <= j < |f| && f[j].Merged? ==> RwRing(f[j].internal)
  }

  ghost predicate RwHeld(v: Device) { v.holding.Some? ==> RwRing(v.holding.value) }

  /** The 16-bit counter is `x` more than the reads and writes below. */
  ghost predicate Running(v: Device, x: int) {
    v.ioCount == (Outstanding(v) + x) % U16 && RwBelow(v.flight) && RwHeld(v)
  }

  /** The device seems busy. */
  ghost predicate Busy(v: Device) { Outstanding(v) > 0 || v.ioCount != 0 }

  /** Between two operations, when `z` reads and writes were completed without being submitted. */
  ghost predicate Counted(v: Device, z: nat) {
    Running(v, 0 - z) && (v.holding.Some? ==> Busy(v))
  }

  /** Held, with nothing below whose completion could push it. */
  ghost predicate Stranded(v: Device) { v.holding.Some? && Outstanding(v) == 0 }

  lemma CountedNotStranded(v: Device, z: nat)
    requires Counted(v, z) && z % U16 == 0
    ensures !Stranded(v)
  {
    hide Sum, RwBelow;
  }

  lemma SendSingleRuns(v: Device, r: Request, again: bool, x: int)
    requires Running(v, x)
    ensures Running(SendSingle(v, r, again), x)
    ensures Outstanding(SendSingle(v, r, again)) == Outstanding(v) + Load(Single(r), ())
  {
    SumSnoc(v.flight, Single(r), Load, ());
    hide Sum, RwRing;
  }

  lemma CloseIfHoldingRuns(v: Device, x: int)
    requires Running(v, x)
    ensures Running(CloseIfHolding(v), x) && CloseIfHolding(v).holding.None?
    ensures Outstanding(CloseIfHolding(v)) == Outstanding(v) + if v.holding.Some? then 1 else 0
  {
    if v.holding.Some? {
      var d := Merged(Closed(v.holding.value));
      assert RwRing(d.internal);
      SumSnoc(v.flight, d, Load, ());
      hide Sum, RwRing;
    }
  }

  lemma BypassCounts(v: Device, r: Request, z: nat)
    requires Running(v, 0 - z)
    ensures Counted(Bypass(v, r), z)
  {
    hide Sum, RwRing, RwBelow;
    CloseIfHoldingRuns(v, 0 - z);
    SendSingleRuns(CloseIfHolding(v), r, false, 0 - z);
  }

  lemma AttachRing(v: Device, r: Request)
    requires v.holding.Some? && IsReadWrite(r.op) && (v.holding.value.len == 0 || RwRing(v.holding.value))
    ensures RwHeld(Attach(v, r))
  {
  }

  lemma MergeCounts(v: Device, free: seq<nat>, r: Request, z: nat)
    requires Running(v, 0 - z) && Busy(v) && IsReadWrite(r.op)
    ensures Counted(Merge(v, free, r).0, z)
  {
    hide Sum, RwRing, RwBelow;
    var v1 := if v.holding.Some? && TooBig(v.holding.value, r) then CloseAndSend(v) else v;
    CloseIfHoldingRuns(v, 0 - z);
    if v1.holding.None? && free == [] {
      SendSingleRuns(v1, r, false, 0 - z);
    } else {
      var v2 := if v1.holding.Some? then v1 else v1.(holding := Some(FreshInternal(free[0], r.lba)));
      AttachRing(v2, r);
      CloseIfHoldingRuns(Attach(v2, r), 0 - z);
    }
  }

  lemma SubmitCounts(v: Device, free: seq<nat>, r: Request, z: nat)
    requires Counted(v, z)
    ensures Counted(Submit(v, free, r).0, z)
  {
    hide Sum, RwBelow, RwHeld, Merge;
    BypassCounts(v, r, z);
    SameRunning(v, v.(isRead := IsRead(r.op)), 0 - z);
    BypassCounts(v.(isRead := IsRead(r.op)), r, z);
    SameRunning(v, Track(v, r), 0 - z);
    BypassCounts(Track(v, r), r, z);
    if InStream(v, r) {
      MergeCounts(Track(v, r), free, r, z);
    }
  }

  lemma SameRunning(v: Device, w: Device, x: int)
    requires v.flight == w.flight && v.holding == w.holding && v.ioCount == w.ioCount
    ensures Running(v, x) ==> Running(w, x)
    ensures Busy(v) ==> Busy(w)
  {
  }

  /** A completed request was counted once more than it is below. */
  lemma ReturnRuns(v: Device, r: Request, x: int)
    requires Running(v, x + Load(Single(r), ()))
    ensures Running(Return(v, r), x)
    ensures Return(v, r).holding.Some? ==> Return(v, r).ioCount != 0
  {
    hide Sum, RwRing, RwBelow;
    var v1 := v.(done := v.done + [r]);
    var v2 := if IsReadWrite(r.op) then v1.(ioCount := Dec16(v1.ioCount)) else v1;
    CloseIfHoldingRuns(v2, x);
  }

  lemma {:induction false} FanOutCounts(v: Device, ms: seq<Request>, z: nat)
    requires ms != [] && forall t :: 0 <= t < |ms| ==> IsReadWrite(ms[t].op)
    requires Running(v, 1 - z)
    ensures Counted(FanOut(v, ms), z)
    decreases |ms|
  {
    hide Sum, RwRing, RwBelow;
    if |ms| == 1 {
      ReturnRuns(v, ms[0], 0 - z);
    } else {
      var v1 := v.(ioCount := Inc16(v.ioCount));
      ReturnRuns(v1, ms[0], 1 - z);
      FanOutCounts(Return(v1, ms[0]), ms[1..], z);
    }
  }

  lemma {:induction false} ResendAllCounts(v: Device, ms: seq<Request>, z: nat)
    requires forall t :: 0 <= t < |ms| ==> IsReadWrite(ms[t].op)
    requires Running(v, 0 - z) && (ms != [] || Counted(v, z))
    ensures Counted(ResendAll(v, ms), z)
    decreases |ms|
  {
    hide Sum, RwRing, RwBelow;
    if ms != [] {
      SendSingleRuns(v, ms[0], true, 0 - z);
      ResendAllCounts(SendSingle(v, ms[0], true), ms[1..], z);
    }
  }

  lemma TakenOffRuns(v: Device, j: nat, x: int)
    requires j < |v.flight| && Running(v, x)
    ensures Running(v.(flight := DropAt(v.flight, j)), x + Load(v.flight[j], ()))
    ensures Outstanding(v.(flight := DropAt(v.flight, j))) == Outstanding(v) - Load(v.flight[j], ())
  {
    SumDrop(v.flight, j, Load, ());
    hide Sum, RwRing;
    var f := DropAt(v.flight, j);
    forall k | 0 <= k < |f| && f[k].Merged? ensures RwRing(f[k].internal) {
      assert f[k] == v.flight[if k < j then k else k + 1];
    }
  }

  lemma CompleteSingleCounts(v: Device, j: nat, z: nat)
    requires Counted(v, z) && j < |v.flight| && v.flight[j].Single?
    ensures Counted(CompleteSingle(v, j), z)
  {
    hide Sum, RwRing, RwBelow;
    TakenOffRuns(v, j, 0 - z);
    ReturnRuns(v.(flight := DropAt(v.flight, j)), v.flight[j].request, 0 - z);
  }

  lemma CompleteMergedCounts(v: Device, free: seq<nat>, j: nat, ok: bool, z: nat)
    requires Counted(v, z) && j < |v.flight| && v.flight[j].Merged?
    ensures Counted(CompleteMerged(v, free, j, ok).0, z)
  {
    hide Sum;
    TakenOffRuns(v, j, 0 - z);
    var i := v.flight[j].internal;
    assert RwRing(i);
    var w := v.(flight := DropAt(v.flight, j));
    hide RwRing, RwBelow;
    if ok {
      FanOutCounts(w, i.members, z);
    } else {
      ResendAllCounts(w.(ioCount := Dec16(w.ioCount), sequential := 0), i.members, z);
    }
  }

  /** A read or write completed without having been submitted takes one from the counter for ever. */
  lemma UnsubmittedCounts(v: Device, r: Request, z: nat)
    requires Counted(v, z)
    ensures Counted(Return(v, r), z + Load(Single(r), ()))
  {
    hide Sum, RwRing, RwBelow;
    ReturnRuns(v, r, 0 - z - Load(Single(r), ()));
  }

  /** Exact condition: a completion fires the held request when the counter, 16 bits of it and `z` short, says nothing is left. */
  lemma FiredExactlyAtRest(v: Device, j: nat, z: nat)
    requires Counted(v, z) && j < |v.flight| && v.flight[j].Single?
    ensures CompleteSingle(v, j).holding.Some?
       <==> v.holding.Some? && (Outstanding(v) - Load(v.flight[j], ()) - z) % U16 != 0
  {
    TakenOffRuns(v, j, 0 - z);
    hide Sum, RwRing, RwBelow;
  }
}
