/**
 What the consolidator's operations conserve, one device at a time and whatever its state:
 order, the places of every request, and the slots of the pool; and when it merges.
 */
module ConsolidatorInvariant {
  import opened Common
  import opened Consolidator

  // ---------------------------------------------------------------- conservation, whatever the state

  /** How one step moves the counts of a request `q` and of a pool slot `k`. */
  ghost predicate Moves(v: Device, w: Device, q: Request, k: nat, places: int, again: int, slack: int, slots: int) {
    && Places(w, q) == Places(v, q) + places
    && SentTwice(w, q) == SentTwice(v, q) + again
    && Slack(w, q) == Slack(v, q) + slack
    && SlotUse(w, k) == SlotUse(v, k) + slots
  }

  /** What one more request below and one more hand-over add to every sum. */
  lemma HandOverSums(f: seq<Down>, d: Down, h: seq<HandOver>, o: HandOver, q: Request, k: nat)
    ensures Sum(f + [d], Carries, q) == Sum(f, Carries, q) + Carries(d, q)
    ensures Sum(f + [d], CarriesMerged, q) == Sum(f, CarriesMerged, q) + CarriesMerged(d, q)
    ensures Sum(f + [d], Occupies, k) == Sum(f, Occupies, k) + Occupies(d, k)
    ensures Sum(h + [o], SentAgain, q) == Sum(h, SentAgain, q) + SentAgain(o, q)
    ensures Sum(h + [o], FirstMerged, q) == Sum(h, FirstMerged, q) + FirstMerged(o, q)
  {
    SumSnoc(f, d, Carries, q);
    SumSnoc(f, d, CarriesMerged, q);
    SumSnoc(f, d, Occupies, k);
    SumSnoc(h, o, SentAgain, q);
    SumSnoc(h, o, FirstMerged, q);
  }

  lemma SendSingleLine(v: Device, r: Request, again: bool)
    ensures Line(SendSingle(v, r, again)) == if again then Line(v) else InOrder(v.handed) + [r] + Held(v)
  {
  }

  lemma SendSingleMoves(v: Device, r: Request, again: bool, q: Request, k: nat)
    ensures Moves(v, SendSingle(v, r, again), q, k, Same(r, q), if again then Same(r, q) else 0, if again then 0 - Same(r, q) else 0, 0)
  {
    hide Sum, InOrder;
    HandOverSums(v.flight, Single(r), v.handed, if again then Again(r) else First(Single(r)), q, k);
    CountSmall(r, q);
  }

  lemma CloseIfHoldingLine(v: Device)
    ensures Line(CloseIfHolding(v)) == Line(v)
  {
  }

  lemma CloseIfHoldingMoves(v: Device, q: Request, k: nat)
    ensures Moves(v, CloseIfHolding(v), q, k, 0, 0, 0, 0)
  {
    hide Sum, InOrder;
    if v.holding.Some? {
      var d := Merged(Closed(v.holding.value));
      HandOverSums(v.flight, d, v.handed, First(d), q, k);
      CountSmall(q, q);
    }
  }

  lemma BypassMoves(v: Device, r: Request, q: Request, k: nat)
    ensures Moves(v, Bypass(v, r), q, k, Same(r, q), 0, 0, 0)
    ensures Line(Bypass(v, r)) == Line(v) + [r]
  {
    hide Sum, InOrder;
    CloseIfHoldingMoves(v, q, k);
    CloseIfHoldingLine(v);
    SendSingleMoves(CloseIfHolding(v), r, false, q, k);
    SendSingleLine(CloseIfHolding(v), r, false);
  }

  // ---------------------------------------------------------------- streams

  /** A submission the stream statistics let through to the merging step. */
  predicate InStream(v: Device, r: Request) {
    MayMerge(v, r) && IsRead(r.op) == v.isRead && v.ioCount > 0 && Track(v, r).sequential >= SEQUENTIAL_THRESHOLD
  }

  /** It continues the last block, as the 65th request or later in a row. */
  lemma StreamMeans(v: Device, r: Request)
    requires v.sequential <= SEQUENTIAL_MAX
    ensures Track(v, r).sequential >= SEQUENTIAL_THRESHOLD
       <==> r.lba == v.lastLba && v.sequential >= SEQUENTIAL_THRESHOLD - 1
    ensures Track(v, r).sequential <= SEQUENTIAL_MAX
  {
  }

  predicate Fits(v: Device, r: Request) { v.holding.Some? && !TooBig(v.holding.value, r) }

  /** The attaching step takes a held request of zero length for an unused one. */
  predicate TakenForUnused(v: Device) { v.holding.Some? && v.holding.value.len == 0 }

  /** Then the members it has are overwritten. */
  function Overwritten(v: Device): seq<Request> { if TakenForUnused(v) then Held(v) else [] }

  /** The submission joins a held request of zero length that has members. */
  predicate Forgets(v: Device, r: Request) {
    InStream(v, r) && Fits(v, r) && TakenForUnused(v) && Held(v) != []
  }

  function Lost(v: Device, r: Request): seq<Request> { if Forgets(v, r) then Held(v) else [] }

  /** The line when the held members in `lost` go out of it and `r` comes in. */
  function LineWithout(v: Device, lost: seq<Request>, r: Request): seq<Request> {
    if lost == [] then Line(v) + [r] else InOrder(v.handed) + [r]
  }

  lemma AttachMoves(v: Device, r: Request, q: Request, k: nat)
    requires v.holding.Some?
    ensures Moves(v, Attach(v, r), q, k, Same(r, q) - Count(Overwritten(v), q), 0, 0, 0)
    ensures Line(Attach(v, r)) == LineWithout(v, Overwritten(v), r)
  {
    hide Sum, InOrder;
    CountSnoc(Held(v), r, q);
    CountSmall(r, q);
    if !TakenForUnused(v) {
      assert Held(Attach(v, r)) == Held(v) + [r];
    }
  }

  /** Exact condition: attaching keeps the members already held unless they are taken for an unused request's. */
  lemma AttachKeepsHeld(v: Device, r: Request)
    requires v.holding.Some?
    ensures Line(Attach(v, r)) == Line(v) + [r] <==> Overwritten(v) == []
  {
    AttachMoves(v, r, r, 0);
    if Overwritten(v) != [] {
      assert |Line(Attach(v, r))| < |Line(v) + [r]|;
    }
  }

  /** The ring that a merge extends: the one held, or a new one of the pool. */
  lemma OpenMoves(v: Device, free: seq<nat>, lba: nat, q: Request, k: nat)
    requires v.holding.None? && free != []
    ensures var w := v.(holding := Some(FreshInternal(free[0], lba)));
      && Moves(v, w, q, k, 0, 0, 0, Count(free, k) - Count(free[1..], k)) && Line(w) == Line(v)
      && Overwritten(w) == []
  {
    hide Sum, InOrder;
    SumHead(free, Same, k);
    CountSmall(q, q);
    assert Held(v.(holding := Some(FreshInternal(free[0], lba)))) == [];
  }

  lemma AttachAndFireMoves(v: Device, r: Request, q: Request, k: nat)
    requires v.holding.Some?
    ensures var a := Attach(v, r); var w := if Full(a) then CloseAndSend(a) else a;
      && Moves(v, w, q, k, Same(r, q) - Count(Overwritten(v), q), 0, 0, 0)
      && Line(w) == LineWithout(v, Overwritten(v), r)
  {
    hide Sum, InOrder, Overwritten, LineWithout, Places, SentTwice, Slack, SlotUse, Line;
    AttachMoves(v, r, q, k);
    CloseIfHoldingMoves(Attach(v, r), q, k);
    CloseIfHoldingLine(Attach(v, r));
  }

  lemma MergeMoves(v: Device, free: seq<nat>, r: Request, q: Request, k: nat)
    ensures var (w, free1) := Merge(v, free, r);
      var lost := if Fits(v, r) then Overwritten(v) else [];
      && Moves(v, w, q, k, Same(r, q) - Count(lost, q), 0, 0, Count(free, k) - Count(free1, k))
      && Line(w) == LineWithout(v, lost, r)
  {
    hide Sum, InOrder, Places, SentTwice, Slack, SlotUse;
    CountSmall(r, q);
    var v1 := if v.holding.Some? && TooBig(v.holding.value, r) then CloseAndSend(v) else v;
    CloseIfHoldingMoves(v, q, k);
    CloseIfHoldingLine(v);
    if v1.holding.None? && free == [] {
      SendSingleMoves(v1, r, false, q, k);
      SendSingleLine(v1, r, false);
    } else {
      var v2 := if v1.holding.Some? then v1 else v1.(holding := Some(FreshInternal(free[0], r.lba)));
      if v1.holding.None? {
        OpenMoves(v1, free, r.lba, q, k);
      }
      hide Attach, Full;
      AttachAndFireMoves(v2, r, q, k);
    }
  }

  /** Whatever the state: what a submission does to the line, the places of `q` and the uses of slot `k`. */
  lemma SubmitMoves(v: Device, free: seq<nat>, r: Request, q: Request, k: nat)
    ensures var (w, free1) := Submit(v, free, r);
      && Moves(v, w, q, k, Same(r, q) - Count(Lost(v, r), q), 0, 0, Count(free, k) - Count(free1, k))
      && Line(w) == LineWithout(v, Lost(v, r), r)
  {
    hide Sum, InOrder;
    CountSmall(r, q);
    BypassMoves(v, r, q, k);
    BypassMoves(v.(isRead := IsRead(r.op)), r, q, k);
    BypassMoves(Track(v, r), r, q, k);
    MergeMoves(Track(v, r), free, r, q, k);
  }

  /** Exact condition: a submission goes to the end of the line unless it is taken for the first of an unused request. */
  lemma KeepsLineExactly(v: Device, free: seq<nat>, r: Request)
    ensures Line(Submit(v, free, r).0) == Line(v) + [r] <==> !Forgets(v, r)
    ensures |Line(Submit(v, free, r).0)| == |Line(v)| + 1 - |Lost(v, r)|
  {
    SubmitMoves(v, free, r, r, 0);
    hide InOrder, Submit;
  }

  lemma ReturnMoves(v: Device, r: Request, q: Request, k: nat)
    ensures Moves(v, Return(v, r), q, k, Same(r, q), 0, 0, 0)
    ensures Line(Return(v, r)) == Line(v)
  {
    hide Sum, InOrder;
    var v1 := v.(done := v.done + [r]);
    CountSnoc(v.done, r, q);
    var v2 := if IsReadWrite(r.op) then v1.(ioCount := Dec16(v1.ioCount)) else v1;
    CloseIfHoldingMoves(v2, q, k);
    CloseIfHoldingLine(v2);
  }

  lemma {:induction false} FanOutMoves(v: Device, ms: seq<Request>, q: Request, k: nat)
    ensures Moves(v, FanOut(v, ms), q, k, Count(ms, q), 0, 0, 0)
    ensures Line(FanOut(v, ms)) == Line(v)
    decreases |ms|
  {
    hide Sum, InOrder;
    CountSmall(q, q);
    if ms != [] {
      var v1 := if |ms| == 1 then v else v.(ioCount := Inc16(v.ioCount));
      SumHead(ms, Same, q);
      ReturnMoves(v1, ms[0], q, k);
      FanOutMoves(Return(v1, ms[0]), ms[1..], q, k);
    }
  }

  lemma {:induction false} ResendAllMoves(v: Device, ms: seq<Request>, q: Request, k: nat)
    ensures Moves(v, ResendAll(v, ms), q, k, Count(ms, q), Count(ms, q), 0 - Count(ms, q), 0)
    ensures Line(ResendAll(v, ms)) == Line(v)
    decreases |ms|
  {
    hide Sum, InOrder;
    CountSmall(q, q);
    if ms != [] {
      SumHead(ms, Same, q);
      SendSingleMoves(v, ms[0], true, q, k);
      SendSingleLine(v, ms[0], true);
      ResendAllMoves(SendSingle(v, ms[0], true), ms[1..], q, k);
    }
  }

  lemma TakenOffMoves(v: Device, j: nat, q: Request, k: nat)
    requires j < |v.flight|
    ensures var d := v.flight[j];
      Moves(v, v.(flight := DropAt(v.flight, j)), q, k, 0 - Carries(d, q), 0, CarriesMerged(d, q), 0 - Occupies(d, k))
  {
    hide Sum, InOrder;
    SumDrop(v.flight, j, Carries, q);
    SumDrop(v.flight, j, CarriesMerged, q);
    SumDrop(v.flight, j, Occupies, k);
  }

  lemma CompleteSingleMoves(v: Device, j: nat, q: Request, k: nat)
    requires j < |v.flight| && v.flight[j].Single?
    ensures Moves(v, CompleteSingle(v, j), q, k, 0, 0, 0, 0)
    ensures Line(CompleteSingle(v, j)) == Line(v)
  {
    hide Sum, InOrder;
    TakenOffMoves(v, j, q, k);
    var r := v.flight[j].request;
    CountSmall(r, q);
    ReturnMoves(v.(flight := DropAt(v.flight, j)), r, q, k);
  }

  lemma CompleteMergedMoves(v: Device, free: seq<nat>, j: nat, ok: bool, q: Request, k: nat)
    requires j < |v.flight| && v.flight[j].Merged?
    ensures var (w, free1) := CompleteMerged(v, free, j, ok);
      && var n := Count(v.flight[j].internal.members, q);
      && Moves(v, w, q, k, 0, if ok then 0 else n, if ok then n else 0, Count(free, k) - Count(free1, k))
      && Line(w) == Line(v)
  {
    hide Sum, InOrder;
    var i := v.flight[j].internal;
    TakenOffMoves(v, j, q, k);
    CountSnoc(free, i.slot, k);
    var w := v.(flight := DropAt(v.flight, j));
    if ok {
      FanOutMoves(w, i.members, q, k);
    } else {
      ResendAllMoves(w.(ioCount := Dec16(w.ioCount), sequential := 0), i.members, q, k);
    }
  }

  // ---------------------------------------------------------------- when merging is attempted

  /** The submission went below on its own, and nothing is held after it. */
  ghost predicate SentAlone(w: Device, r: Request) {
    w.holding.None? && w.handed != [] && w.handed[|w.handed| - 1] == First(Single(r))
  }

  /** The ring held, or else the one handed over last. */
  function LatestRing(w: Device): seq<Request> {
    if w.holding.Some? then w.holding.value.members
    else if w.handed != [] && w.handed[|w.handed| - 1].First? then MembersOf(w.handed[|w.handed| - 1].down)
    else []
  }

  lemma MergingNeedsAStream(v: Device, free: seq<nat>, r: Request)
    ensures SentAlone(Submit(v, free, r).0, r) || InStream(v, r)
  {
  }

  lemma MergeJoins(v: Device, free: seq<nat>, r: Request)
    ensures var w := Merge(v, free, r).0;
      if Fits(v, r) || free != [] then LatestRing(w) == (if Fits(v, r) && v.holding.value.len > 0 then Held(v) else []) + [r]
      else SentAlone(w, r)
  {
    hide InOrder;
  }

  /**
   A submission is merged exactly when it is in a stream and there is a ring it fits in or an
   internal request to be had; it is then the last of its ring.
   */
  lemma MergesExactly(v: Device, free: seq<nat>, r: Request)
    ensures var w := Submit(v, free, r).0;
      if InStream(v, r) && (Fits(v, r) || free != []) then
        LatestRing(w) == (if Fits(v, r) && v.holding.value.len > 0 then Held(v) else []) + [r]
      else SentAlone(w, r)
  {
    MergeJoins(Track(v, r), free, r);
    MergingNeedsAStream(v, free, r);
    hide Merge;
  }

  /** Fan-out completes the members in ring order. */
  lemma {:induction false} FanOutInOrder(v: Device, ms: seq<Request>)
    ensures FanOut(v, ms).done == v.done + ms
    decreases |ms|
  {
    if |ms| > 1 {
      FanOutInOrder(Return(v.(ioCount := Inc16(v.ioCount)), ms[0]), ms[1..]);
      assert v.done + [ms[0]] + ms[1..] == v.done + ms;
    }
  }

  /** The members of a failed merge are handed over again in ring order, each on its own. */
  lemma {:induction false} ResendAllInOrder(v: Device, ms: seq<Request>)
    ensures ResendAll(v, ms).handed == v.handed + seq(|ms|, k requires 0 <= k < |ms| => Again(ms[k]))
    decreases |ms|
  {
    if ms != [] {
      ResendAllInOrder(SendSingle(v, ms[0], true), ms[1..]);
    }
  }

  lemma {:induction false} ResendAllKeepsStream(v: Device, ms: seq<Request>)
    ensures ResendAll(v, ms).sequential == v.sequential
    decreases |ms|
  {
    if ms != [] {
      ResendAllKeepsStream(SendSingle(v, ms[0], true), ms[1..]);
    }
  }

  /** After a merged request failed, what is submitted next goes below on its own. */
  lemma NoMergeAfterFailure(v: Device, free: seq<nat>, j: nat, free1: seq<nat>, r: Request)
    requires j < |v.flight| && v.flight[j].Merged?
    ensures SentAlone(Submit(CompleteMerged(v, free, j, false).0, free1, r).0, r)
  {
    var v1 := v.(flight := DropAt(v.flight, j));
    ResendAllKeepsStream(v1.(ioCount := Dec16(v1.ioCount), sequential := 0), v.flight[j].internal.members);
    MergingNeedsAStream(CompleteMerged(v, free, j, false).0, free1, r);
  }
}
