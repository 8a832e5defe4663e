/**
 The shape of what is held and sent when every read and write moves whole sectors, at least one:
 one opcode, contiguous blocks, and the limits of the hardware and of the table.
 */
module ConsolidatorShape {
  import opened Common
  import opened Consolidator
  import opened ConsolidatorInvariant

  /** A transfer of whole sectors, and at least one of them. */
  predicate WellFormed(r: Request) {
    IsReadWrite(r.op) ==> r.len == 512 * r.sectors && r.sectors > 0
  }

  ghost function Length(r: Request, u: ()): nat { r.len }
  ghost function Entries(r: Request, u: ()): nat { r.sg }

  /** One opcode, whole sectors, each member starting where the one before it ends. */
  ghost predicate Contiguous(ms: seq<Request>, op: nat, lba: nat) {
    && |ms| > 0
    && ms[0].lba == lba
    && (forall t :: 0 <= t < |ms| ==> ms[t].op == op && WellFormed(ms[t]))
    && (forall t :: 0 < t < |ms| ==> ms[t].lba == NextLba(ms[t - 1]))
  }

  ghost predicate GoodRing(i: Internal) {
    && IsReadWrite(i.op)
    && Contiguous(i.members, i.op, i.lba)
    && i.len == Sum(i.members, Length, ())
    && i.occupy == Sum(i.members, Entries, ())
    && (|i.members| > 1 ==> i.occupy < MAX_SG_ENTRY)
  }

  /** A request still held has room left and ends where the next sequential request must start. */
  ghost predicate GoodHeld(v: Device, next: nat) {
    v.holding.Some? ==>
      var i := v.holding.value;
      && GoodRing(i)
      && 0 < i.len < MIN_INTERNAL_REQUEST_SIZE
      && v.sgLimit == MAX_SG_ENTRY
      && v.reqCount == |i.members|
      && 2 * v.reqCount < v.sgLimit
      && next == NextLba(i.members[|i.members| - 1])
  }

  ghost predicate GoodSent(i: Internal) {
    && GoodRing(i)
    && 512 * i.sectors == i.len
    && 0 < i.len <= MAX_INTERNAL_REQUEST_SIZE
    && 2 * |i.members| <= MAX_SG_ENTRY
  }

  ghost predicate GoodFlight(f: seq<Down>) {
    forall j :: 0 <= j < |f| && f[j].Merged? ==> GoodSent(f[j].internal)
  }

  ghost predicate Settings(v: Device) {
    v.sequential <= SEQUENTIAL_MAX && (v.enabled ==> v.sgLimit == MAX_SG_ENTRY)
  }

  ghost predicate Shaped(v: Device) {
    Settings(v) && GoodFlight(v.flight) && GoodHeld(v, v.lastLba)
  }

  lemma NothingForgotten(v: Device, r: Request)
    requires GoodHeld(v, v.lastLba)
    ensures Lost(v, r) == []
  {
  }

  lemma {:induction false} WholeSectors(ms: seq<Request>, op: nat, lba: nat)
    requires IsReadWrite(op) && Contiguous(ms, op, lba)
    ensures Sum(ms, Length, ()) % 512 == 0 && Sum(ms, Length, ()) > 0
  {
    var n := |ms| - 1;
    if n > 0 {
      WholeSectors(ms[..n], op, lba);
    }
    assert Sum(ms, Length, ()) == Sum(ms[..n], Length, ()) + 512 * ms[n].sectors;
  }

  /** Closing turns a good ring of at most the maximum size into a good request to send. */
  lemma ClosedIsGood(i: Internal)
    requires GoodRing(i) && i.len <= MAX_INTERNAL_REQUEST_SIZE && 2 * |i.members| <= MAX_SG_ENTRY
    ensures GoodSent(Closed(i))
  {
    WholeSectors(i.members, i.op, i.lba);
  }

  lemma AddedToFlight(f: seq<Down>, d: Down)
    requires GoodFlight(f) && (d.Merged? ==> GoodSent(d.internal))
    ensures GoodFlight(f + [d])
  {
    hide GoodSent;
  }

  lemma ClosedShape(v: Device)
    requires Settings(v) && GoodFlight(v.flight) && v.holding.Some? && GoodRing(v.holding.value)
    requires v.holding.value.len <= MAX_INTERNAL_REQUEST_SIZE && 2 * |v.holding.value.members| <= MAX_SG_ENTRY
    ensures Shaped(CloseAndSend(v))
  {
    hide GoodRing, GoodSent, GoodFlight;
    ClosedIsGood(v.holding.value);
    AddedToFlight(v.flight, Merged(Closed(v.holding.value)));
  }

  lemma CloseIfHoldingShape(v: Device, next: nat)
    requires Settings(v) && GoodFlight(v.flight) && GoodHeld(v, next)
    ensures Shaped(CloseIfHolding(v))
  {
    hide GoodRing, GoodFlight;
    if v.holding.Some? {
      ClosedShape(v);
    }
  }

  lemma SendSingleShape(v: Device, r: Request, again: bool)
    requires Shaped(v)
    ensures Shaped(SendSingle(v, r, again))
  {
    hide GoodRing, GoodFlight;
    AddedToFlight(v.flight, Single(r));
  }

  lemma BypassShape(v: Device, r: Request, next: nat)
    requires Settings(v) && GoodFlight(v.flight) && GoodHeld(v, next)
    ensures Shaped(Bypass(v, r))
  {
    hide GoodRing, GoodFlight;
    CloseIfHoldingShape(v, next);
    SendSingleShape(CloseIfHolding(v), r, false);
  }

  /** A ring extended at its end by a request that starts there. */
  lemma ExtendRing(i: Internal, r: Request)
    requires IsReadWrite(r.op) && WellFormed(r)
    requires i == FreshInternal(i.slot, r.lba)
          || (GoodRing(i) && i.len > 0 && r.lba == NextLba(i.members[|i.members| - 1])
              && r.op == i.op && i.occupy + r.sg < MAX_SG_ENTRY)
    ensures GoodRing(Attached(i, r)) && Attached(i, r).len == i.len + r.len
    ensures Attached(i, r).members == i.members + [r]
  {
    SumSnoc(i.members, r, Length, ());
    SumSnoc(i.members, r, Entries, ());
    var ms := Attached(i, r).members;
    assert ms == i.members + [r];
    assert Contiguous(ms, r.op, Attached(i, r).lba) by {
      hide Sum;
      forall t | 0 < t < |ms| ensures ms[t].lba == NextLba(ms[t - 1]) {
        assert ms[t - 1] == i.members[t - 1];
      }
    }
  }

  lemma AttachShape(v: Device, r: Request)
    requires v.holding.Some? && Settings(v) && GoodFlight(v.flight) && v.enabled && v.lastLba == NextLba(r)
    requires IsReadWrite(r.op) && WellFormed(r) && r.len <= MAX_EXTERNAL_REQUEST_SIZE
    requires v.holding.value == FreshInternal(v.holding.value.slot, r.lba)
          || (GoodHeld(v, r.lba) && !TooBig(v.holding.value, r))
    ensures var w := Attach(v, r); Shaped(if Full(w) then CloseAndSend(w) else w)
  {
    ExtendRing(v.holding.value, r);
    hide Sum, Contiguous, GoodFlight;
    var w := Attach(v, r);
    if Full(w) {
      ClosedShape(w);
    }
  }

  lemma MergeShape(v: Device, free: seq<nat>, r: Request)
    requires Settings(v) && GoodFlight(v.flight) && v.enabled && v.lastLba == NextLba(r) && GoodHeld(v, r.lba)
    requires IsReadWrite(r.op) && WellFormed(r) && r.len <= MAX_EXTERNAL_REQUEST_SIZE
    ensures Shaped(Merge(v, free, r).0)
  {
    hide GoodRing, GoodFlight;
    var v1 := if v.holding.Some? && TooBig(v.holding.value, r) then CloseAndSend(v) else v;
    CloseIfHoldingShape(v, r.lba);
    if v1.holding.None? && free == [] {
      SendSingleShape(v1, r, false);
    } else {
      AttachShape(if v1.holding.Some? then v1 else v1.(holding := Some(FreshInternal(free[0], r.lba))), r);
    }
  }

  lemma SubmitShape(v: Device, free: seq<nat>, r: Request)
    requires Shaped(v) && WellFormed(r)
    ensures Shaped(Submit(v, free, r).0)
  {
    hide GoodRing, GoodFlight, WellFormed, Merge;
    StreamMeans(v, r);
    BypassShape(v, r, v.lastLba);
    BypassShape(v.(isRead := IsRead(r.op)), r, v.lastLba);
    BypassShape(Track(v, r), r, v.lastLba);
    if InStream(v, r) {
      MergeShape(Track(v, r), free, r);
    }
  }

  lemma ReturnShape(v: Device, r: Request)
    requires Shaped(v)
    ensures Shaped(Return(v, r))
  {
    hide GoodRing, GoodFlight;
    var v1 := v.(done := v.done + [r]);
    CloseIfHoldingShape(if IsReadWrite(r.op) then v1.(ioCount := Dec16(v1.ioCount)) else v1, v.lastLba);
  }

  lemma {:induction false} FanOutShape(v: Device, ms: seq<Request>)
    requires Shaped(v)
    ensures Shaped(FanOut(v, ms))
    decreases |ms|
  {
    hide GoodRing, GoodFlight;
    if ms != [] {
      var v1 := if |ms| == 1 then v else v.(ioCount := Inc16(v.ioCount));
      ReturnShape(v1, ms[0]);
      FanOutShape(Return(v1, ms[0]), ms[1..]);
    }
  }

  lemma {:induction false} ResendAllShape(v: Device, ms: seq<Request>)
    requires Shaped(v)
    ensures Shaped(ResendAll(v, ms))
    decreases |ms|
  {
    hide Shaped;
    if ms != [] {
      SendSingleShape(v, ms[0], true);
      ResendAllShape(SendSingle(v, ms[0], true), ms[1..]);
    }
  }

  lemma TakenOffShape(v: Device, j: nat)
    requires j < |v.flight| && Shaped(v)
    ensures Shaped(v.(flight := DropAt(v.flight, j)))
  {
    hide GoodSent, GoodRing;
    var f := DropAt(v.flight, j);
    forall k | 0 <= k < |f| && f[k].Merged? ensures GoodSent(f[k].internal) {
      assert f[k] == v.flight[if k < j then k else k + 1];
    }
  }

  lemma CompleteSingleShape(v: Device, j: nat)
    requires Shaped(v) && j < |v.flight| && v.flight[j].Single?
    ensures Shaped(CompleteSingle(v, j))
  {
    hide Shaped;
    TakenOffShape(v, j);
    ReturnShape(v.(flight := DropAt(v.flight, j)), v.flight[j].request);
  }

  lemma CompleteMergedShape(v: Device, free: seq<nat>, j: nat, ok: bool)
    requires Shaped(v) && j < |v.flight| && v.flight[j].Merged?
    ensures Shaped(CompleteMerged(v, free, j, ok).0)
  {
    hide GoodFlight, GoodHeld;
    TakenOffShape(v, j);
    var ms := v.flight[j].internal.members;
    var w := v.(flight := DropAt(v.flight, j));
    if ok {
      FanOutShape(w, ms);
    } else {
      FailedShape(w);
      ResendAllShape(w.(ioCount := Dec16(w.ioCount), sequential := 0), ms);
    }
  }

  lemma FailedShape(w: Device)
    requires Shaped(w)
    ensures Shaped(w.(ioCount := Dec16(w.ioCount), sequential := 0))
  {
    hide GoodRing, GoodFlight;
  }

  /** Exact condition: the ring a submission has joined goes below when it is full, and is held otherwise. */
  lemma FiredExactlyWhenFull(v: Device, free: seq<nat>, r: Request)
    requires Shaped(v) && WellFormed(r) && InStream(v, r) && (Fits(v, r) || free != [])
    ensures var w := Submit(v, free, r).0;
      var ring := (if Fits(v, r) then Held(v) else []) + [r];
      && LatestRing(w) == ring
      && (w.holding.None? <==> Sum(ring, Length, ()) >= MIN_INTERNAL_REQUEST_SIZE || 2 * |ring| >= v.sgLimit)
  {
    MergesExactly(v, free, r);
    RingLength(v, r);
    hide Contiguous, GoodFlight, Sum, LatestRing;
  }

  lemma RingLength(v: Device, r: Request)
    requires GoodHeld(v, v.lastLba)
    ensures Sum((if Fits(v, r) then Held(v) else []) + [r], Length, ())
         == r.len + if Fits(v, r) then v.holding.value.len else 0
  {
    SumSnoc(if Fits(v, r) then Held(v) else [], r, Length, ());
    assert Sum<Request, ()>([], Length, ()) == 0;
  }

  // ---------------------------------------------------------------- what a merged request covers

  /** `n` blocks from `lba` on, in the 64-bit block address space. */
  function Blocks(lba: nat, n: nat): seq<nat> { seq(n, k => (lba + k) % LBA_SPACE) }

  function BlocksOf(ms: seq<Request>): seq<nat> {
    if ms == [] then [] else BlocksOf(ms[..|ms| - 1]) + Blocks(ms[|ms| - 1].lba, ms[|ms| - 1].sectors)
  }

  lemma AddBlocks(lba: nat, n: nat)
    ensures (lba % LBA_SPACE + n) % LBA_SPACE == (lba + n) % LBA_SPACE
  {
  }

  /** Blocks of adjacent extents are the blocks of the whole. */
  lemma BlocksJoin(lba: nat, n: nat, next: nat, m: nat)
    requires next % LBA_SPACE == (lba + n) % LBA_SPACE
    ensures Blocks(lba, n) + Blocks(next, m) == Blocks(lba, n + m)
  {
    forall k | 0 <= k < n + m ensures (Blocks(lba, n) + Blocks(next, m))[k] == Blocks(lba, n + m)[k] {
      if k >= n {
        AddBlocks(next, k - n);
        AddBlocks(lba + n, k - n);
      }
    }
  }

  lemma {:induction false} RingCoverage(ms: seq<Request>, op: nat, lba: nat)
    requires IsReadWrite(op) && Contiguous(ms, op, lba)
    ensures Sum(ms, Length, ()) % 512 == 0
    ensures BlocksOf(ms) == Blocks(lba, Sum(ms, Length, ()) / 512)
    ensures (lba + Sum(ms, Length, ()) / 512) % LBA_SPACE == NextLba(ms[|ms| - 1])
  {
    var n := |ms| - 1;
    var before := Sum(ms[..n], Length, ());
    assert Sum(ms, Length, ()) == before + 512 * ms[n].sectors;
    hide Sum, WellFormed, IsReadWrite;
    if n == 0 {
      assert BlocksOf(ms) == Blocks(lba, ms[0].sectors) && before == 0;
    } else {
      RingCoverage(ms[..n], op, lba);
      assert ms[n].lba == NextLba(ms[..n][n - 1]);
      AddBlocks(lba + before / 512, ms[n].sectors);
      BlocksJoin(lba, before / 512, ms[n].lba, ms[n].sectors);
    }
  }

  /** The request sent below asks for exactly the blocks of its members, in ring order. */
  lemma SentCoversMembers(i: Internal)
    requires GoodSent(i)
    ensures Blocks(i.lba, i.sectors) == BlocksOf(i.members)
  {
    RingCoverage(i.members, i.op, i.lba);
  }
}
