/**
 The command consolidator of hba_sm/cc.c, device by device: what a submission,
 a completion and a push do to one device's record and to the shared pool of
 internal requests.  `Device` is the C record together with what the next module
 below still owes this device (`flight`) and a history of the run.
 */
module Consolidator {
  import opened Common

  const MAX_EXTERNAL_REQUEST_SIZE := 128 * 1024
  const MAX_INTERNAL_REQUEST_SIZE := 128 * 1024
  const MIN_INTERNAL_REQUEST_SIZE := 128 * 1024
  const SEQUENTIAL_MAX := 0xFE
  const SEQUENTIAL_THRESHOLD := 64
  const MAX_SG_ENTRY := 130
  const U16 := 0x1_0000
  const LBA_SPACE := 0x1_0000_0000_0000_0000

  /** An external request; `id` tells submissions apart. */
  datatype Request = Request(id: nat, device: nat, op: nat, lba: nat, sectors: nat, len: nat, sg: nat, noConsolidate: bool)

  /** An internal request of the pool; `members` is the ring of its externals in attach order. */
  datatype Internal = Internal(slot: nat, op: nat, lba: nat, sectors: nat, len: nat, occupy: nat, members: seq<Request>)

  /** What the next module is working on. */
  datatype Down = Single(request: Request) | Merged(internal: Internal)

  /** One hand-over to the next module; `Again` re-sends a member of a failed internal request. */
  datatype HandOver = First(down: Down) | Again(request: Request)

  datatype Device = Device(
    // the fields of Consolidate_Object
    lastLba: nat, holding: Option<Internal>, sequential: nat, isRead: bool, ioCount: nat,
    enabled: bool, sgLimit: nat, reqCount: nat,
    // requests handed to the next module and not completed by it
    flight: seq<Down>,
    // history: hand-overs below and completions above
    handed: seq<HandOver>, done: seq<Request>)

  predicate IsRead(op: nat) { op == 0x08 || op == 0x28 || op == 0xA8 || op == 0x88 }
  predicate IsWrite(op: nat) { op == 0x0A || op == 0x2A || op == 0xAA || op == 0x8A }
  predicate IsReadWrite(op: nat) { IsRead(op) || IsWrite(op) }

  function NextLba(r: Request): nat { (r.lba + r.sectors) % LBA_SPACE }
  function Inc16(n: nat): nat { (n + 1) % U16 }
  function Dec16(n: nat): nat { (n + U16 - 1) % U16 }

  // ---------------------------------------------------------------- primitives

  /** CONS_SEND_REQUEST for an external request. */
  function SendSingle(v: Device, r: Request, again: bool): Device {
    v.(flight := v.flight + [Single(r)],
       handed := v.handed + [if again then Again(r) else First(Single(r))],
       ioCount := if IsReadWrite(r.op) then Inc16(v.ioCount) else v.ioCount)
  }

  function Closed(i: Internal): Internal { i.(sectors := i.len / 512) }

  /** ModConsolid_CloseRequest followed by CONS_SEND_REQUEST. */
  function CloseAndSend(v: Device): Device
    requires v.holding.Some?
  {
    var i := Closed(v.holding.value);
    v.(holding := None,
       flight := v.flight + [Merged(i)],
       handed := v.handed + [First(Merged(i))],
       ioCount := if IsReadWrite(i.op) then Inc16(v.ioCount) else v.ioCount)
  }

  function CloseIfHolding(v: Device): Device {
    if v.holding.Some? then CloseAndSend(v) else v
  }

  /** The exit that keeps command order: the held request goes first. */
  function Bypass(v: Device, r: Request): Device {
    SendSingle(CloseIfHolding(v), r, false)
  }

  /** ModConsolid_ConsolidateRequest: zero length marks an unused internal request. */
  function Attached(i: Internal, r: Request): Internal {
    if i.len == 0 then
      i.(op := r.op, len := r.len, occupy := r.sg, members := [r])
    else
      i.(len := i.len + r.len, occupy := i.occupy + r.sg, members := i.members + [r])
  }

  function Attach(v: Device, r: Request): Device
    requires v.holding.Some?
  {
    v.(holding := Some(Attached(v.holding.value, r)),
       reqCount := (if v.holding.value.len == 0 then 1 else v.reqCount + 1))
  }

  function FreshInternal(slot: nat, lba: nat): Internal { Internal(slot, 0, lba, 0, 0, 0, []) }

  // ---------------------------------------------------------------- operations

  /** The sequential-stream statistics kept for every request that may be merged. */
  function Track(v: Device, r: Request): Device {
    var s := if r.lba != v.lastLba then 0 else (v.sequential + 1) % 256;
    v.(lastLba := NextLba(r), sequential := if s > SEQUENTIAL_MAX then SEQUENTIAL_THRESHOLD else s)
  }

  predicate TooBig(i: Internal, r: Request) {
    i.len + r.len > MAX_INTERNAL_REQUEST_SIZE || i.occupy + r.sg >= MAX_SG_ENTRY || r.op != i.op
  }

  predicate Full(v: Device)
    requires v.holding.Some?
  {
    v.holding.value.len >= MIN_INTERNAL_REQUEST_SIZE || v.reqCount * 2 >= v.sgLimit
  }

  predicate MayMerge(v: Device, r: Request) {
    v.enabled && !r.noConsolidate && IsReadWrite(r.op) && r.len <= MAX_EXTERNAL_REQUEST_SIZE
  }

  /** The part of a submission after the stream test: find an internal request, attach, fire when full. */
  function Merge(v: Device, free: seq<nat>, r: Request): (Device, seq<nat>) {
    var w := if v.holding.Some? && TooBig(v.holding.value, r) then CloseAndSend(v) else v;
    if w.holding.None? && free == [] then
      (SendSingle(w, r, false), free)
    else
      var (w1, free1) := if w.holding.Some? then (w, free)
                         else (w.(holding := Some(FreshInternal(free[0], r.lba))), free[1..]);
      var w2 := Attach(w1, r);
      (if Full(w2) then CloseAndSend(w2) else w2, free1)
  }

  /** ModConsolid_ModuleSendRequest on the device the request names. */
  function Submit(v: Device, free: seq<nat>, r: Request): (Device, seq<nat>) {
    if !MayMerge(v, r) then (Bypass(v, r), free)
    else if IsRead(r.op) != v.isRead then (Bypass(v.(isRead := IsRead(r.op)), r), free)
    else
      var v1 := Track(v, r);
      if v1.ioCount == 0 || v1.sequential < SEQUENTIAL_THRESHOLD then (Bypass(v1, r), free)
      else Merge(v1, free, r)
  }

  /** ModConsolid_PushFireRequest. */
  function PushFire(v: Device, r: Request): Device {
    var w := if IsReadWrite(r.op) then v.(ioCount := Dec16(v.ioCount)) else v;
    if w.ioCount > 0 then w else CloseIfHolding(w)
  }

  /** The completion routine of an external request: it returns to the OS, then pushes. */
  function Return(v: Device, r: Request): Device {
    PushFire(v.(done := v.done + [r]), r)
  }

  /** Success fan-out: every member but the last is given a count of its own first. */
  function FanOut(v: Device, ms: seq<Request>): Device
    decreases |ms|
  {
    if ms == [] then v
    else if |ms| == 1 then Return(v, ms[0])
    else FanOut(Return(v.(ioCount := Inc16(v.ioCount)), ms[0]), ms[1..])
  }

  function ResendAll(v: Device, ms: seq<Request>): Device
    decreases |ms|
  {
    if ms == [] then v else ResendAll(SendSingle(v, ms[0], true), ms[1..])
  }

  /** The next module completes the external request at position j of its work. */
  function CompleteSingle(v: Device, j: nat): Device
    requires j < |v.flight| && v.flight[j].Single?
  {
    Return(v.(flight := DropAt(v.flight, j)), v.flight[j].request)
  }

  /** The next module completes the internal request at position j: ModConsolid_RequestCallBack. */
  function CompleteMerged(v: Device, free: seq<nat>, j: nat, ok: bool): (Device, seq<nat>)
    requires j < |v.flight| && v.flight[j].Merged?
  {
    var i := v.flight[j].internal;
    var w := v.(flight := DropAt(v.flight, j));
    (if ok then FanOut(w, i.members)
     else ResendAll(w.(ioCount := Dec16(w.ioCount), sequential := 0), i.members),
     free + [i.slot])
  }

  // ---------------------------------------------------------------- observations

  function MembersOf(d: Down): seq<Request> {
    match d
    case Single(r) => [r]
    case Merged(i) => i.members
  }

  /** External requests in the order of their first hand-over, a merged request expanded in ring order. */
  function InOrder(h: seq<HandOver>): seq<Request> {
    if h == [] then []
    else InOrder(h[..|h| - 1]) + if h[|h| - 1].First? then MembersOf(h[|h| - 1].down) else []
  }

  function Held(v: Device): seq<Request> {
    if v.holding.Some? then v.holding.value.members else []
  }

  /** The requests handed down or held, in the order the OS will see them reach the next module. */
  function Line(v: Device): seq<Request> { InOrder(v.handed) + Held(v) }

  function DownOp(d: Down): nat { if d.Single? then d.request.op else d.internal.op }

  ghost function Load(d: Down, u: ()): nat { if IsReadWrite(DownOp(d)) then 1 else 0 }

  /** Read and write requests below; an internal request counts once. */
  ghost function Outstanding(v: Device): nat { Sum(v.flight, Load, ()) }

  ghost function Carries(d: Down, q: Request): nat { Count(MembersOf(d), q) }

  ghost function CarriesMerged(d: Down, q: Request): nat { if d.Merged? then Count(d.internal.members, q) else 0 }

  ghost function FirstMerged(o: HandOver, q: Request): nat { if o.First? then CarriesMerged(o.down, q) else 0 }

  ghost function SentAgain(o: HandOver, q: Request): nat { if o.Again? then Same(o.request, q) else 0 }

  ghost function Occupies(d: Down, slot: nat): nat { if d.Merged? then Same(d.internal.slot, slot) else 0 }

  /** In how many places `q` is: completed, below, or held. */
  ghost function Places(v: Device, q: Request): nat {
    Count(v.done, q) + Sum(v.flight, Carries, q) + Count(Held(v), q)
  }

  /** How often `q` was handed over again after a failed merge. */
  ghost function SentTwice(v: Device, q: Request): nat { Sum(v.handed, SentAgain, q) }

  /** First hand-overs of `q` inside a merged request, less those still below and those sent again. */
  ghost function Slack(v: Device, q: Request): int {
    Sum(v.handed, FirstMerged, q) - Sum(v.flight, CarriesMerged, q) - SentTwice(v, q)
  }

  /** How often this device uses a slot of the pool. */
  ghost function SlotUse(v: Device, slot: nat): nat {
    Sum(v.flight, Occupies, slot) + if v.holding.Some? then Same(v.holding.value.slot, slot) else 0
  }
}
