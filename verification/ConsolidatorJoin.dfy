/**
 What a submission and a setting change do, said of the request, of the members held and of the
 history alone.
 */
module ConsolidatorJoin {
  import opened Common
  import opened Consolidator
  import opened ConsolidatorInvariant
  import opened ConsolidatorShape
  import opened ConsolidatorRuns

  const READS: set<nat> := {0x08, 0x28, 0xA8, 0x88}
  const WRITES: set<nat> := {0x0A, 0x2A, 0xAA, 0x8A}

  /** A read or write of at most 128 KiB that may be consolidated, on a device where that is enabled. */
  predicate Eligible(v: Device, r: Request) {
    v.enabled && !r.noConsolidate && (r.op in READS || r.op in WRITES) && r.len <= 131072
  }

  predicate SameDirection(v: Device, r: Request) { r.op in READS <==> v.isRead }

  /** It continues the last block, as the 65th in a row or later, and the device seems busy. */
  predicate Continues(v: Device, r: Request) {
    Eligible(v, r) && SameDirection(v, r) && v.ioCount > 0 && r.lba == v.lastLba && v.sequential >= 63
  }

  /** The members held have its opcode, and there is room for its bytes and its table entries. */
  ghost predicate RoomFor(ms: seq<Request>, r: Request) {
    && ms != [] && r.op == ms[0].op
    && Sum(ms, Length, ()) + r.len <= 131072
    && Sum(ms, Entries, ()) + r.sg < 130
  }

  /** The first hand-over since `v` is of all the members held in `v`, merged. */
  predicate HeldGoesFirst(v: Device, w: Device) {
    && |w.handed| > |v.handed| && w.handed[..|v.handed|] == v.handed
    && w.handed[|v.handed|].First? && w.handed[|v.handed|].down.Merged?
    && w.handed[|v.handed|].down.internal.members == Held(v)
  }

  lemma OpcodeSets(op: nat)
    ensures IsRead(op) <==> op in READS
    ensures IsWrite(op) <==> op in WRITES
    ensures op in READS ==> op !in WRITES
  {
  }

  lemma ContinuesMeans(v: Device, r: Request)
    requires v.sequential <= 254
    ensures Continues(v, r) <==> InStream(v, r)
  {
    OpcodeSets(r.op);
    StreamMeans(v, r);
    hide Track;
  }

  lemma RoomMeans(v: Device, r: Request)
    requires GoodHeld(v, v.lastLba)
    ensures Fits(v, r) <==> RoomFor(Held(v), r)
  {
    hide Sum, WellFormed;
  }

  lemma MergeGoesFirst(v: Device, free: seq<nat>, r: Request)
    requires v.holding.Some? && !Fits(v, r)
    ensures HeldGoesFirst(v, Merge(v, free, r).0)
  {
  }

  lemma BypassGoesFirst(v: Device, r: Request)
    requires v.holding.Some?
    ensures HeldGoesFirst(v, Bypass(v, r))
  {
  }

  /** What a submission that does not join does with what is held. */
  lemma OthersGoFirst(v: Device, free: seq<nat>, r: Request)
    requires v.holding.Some? && !(InStream(v, r) && Fits(v, r))
    ensures HeldGoesFirst(v, Submit(v, free, r).0)
  {
    BypassGoesFirst(v, r);
    BypassGoesFirst(v.(isRead := IsRead(r.op)), r);
    BypassGoesFirst(Track(v, r), r);
    if InStream(v, r) {
      MergeGoesFirst(Track(v, r), free, r);
    }
    hide Merge, Bypass;
  }

  /**
   Exact conditions for a submission to a device that holds something: it joins the members held if
   and only if it continues the stream and there is room for it; if not, they go below first, all of
   them, as one request.
   */
  lemma JoinsExactly(v: Device, free: seq<nat>, r: Request)
    requires Shaped(v) && WellFormed(r) && v.holding.Some?
    ensures var w := Submit(v, free, r).0; var ms := Held(v);
      && (LatestRing(w) == ms + [r] <==> Continues(v, r) && RoomFor(ms, r))
      && (!(Continues(v, r) && RoomFor(ms, r)) ==> HeldGoesFirst(v, w))
  {
    ContinuesMeans(v, r);
    RoomMeans(v, r);
    MergesExactly(v, free, r);
    if !(InStream(v, r) && Fits(v, r)) {
      OthersGoFirst(v, free, r);
    }
    LatestIsShort(Submit(v, free, r).0, r);
    hide Sum, Submit, GoodFlight, InStream, Fits, Continues, RoomFor;
    assert Held(v) != [];
  }

  lemma LatestIsShort(w: Device, r: Request)
    ensures SentAlone(w, r) ==> LatestRing(w) == [r]
  {
  }

  /**
   Exact conditions for any submission: it is alone below unless it continues the stream and joins
   what is held or finds a free internal request; and the ring it is then the last of goes below if
   and only if it has 128 KiB or 65 members.
   */
  lemma MergedExactly(v: Device, free: seq<nat>, r: Request)
    requires Shaped(v) && WellFormed(r)
    ensures var w := Submit(v, free, r).0;
      var joins := RoomFor(Held(v), r);
      var ring := (if joins then Held(v) else []) + [r];
      if Continues(v, r) && (joins || free != []) then
        LatestRing(w) == ring && (w.holding.None? <==> Sum(ring, Length, ()) >= 131072 || |ring| >= 65)
      else SentAlone(w, r)
  {
    ContinuesMeans(v, r);
    if v.holding.Some? {
      RoomMeans(v, r);
    }
    MergesExactly(v, free, r);
    if InStream(v, r) && (Fits(v, r) || free != []) {
      FiredExactlyWhenFull(v, free, r);
    }
    hide Sum, Submit, GoodFlight, InStream, LatestRing, GoodHeld;
  }

  /**
   What the device remembers of a submission: the direction of the last eligible one, and for one in
   the direction of the one before, where it ends and how many in a row it makes.
   */
  lemma RemembersExactly(v: Device, free: seq<nat>, r: Request)
    requires v.sequential <= 254
    ensures var w := Submit(v, free, r).0;
      var follows := Eligible(v, r) && SameDirection(v, r);
      && (w.isRead <==> if Eligible(v, r) then r.op in READS else v.isRead)
      && w.lastLba == (if follows then (r.lba + r.sectors) % 0x1_0000_0000_0000_0000 else v.lastLba)
      && w.sequential == (if !follows then v.sequential else if r.lba != v.lastLba then 0
                          else if v.sequential == 254 then 64 else v.sequential + 1)
      && w.enabled == v.enabled && w.sgLimit == v.sgLimit
  {
    OpcodeSets(r.op);
    KeepsSettings(v, r);
    KeepsSettings(v.(isRead := IsRead(r.op)), r);
    KeepsSettings(Track(v, r), r);
    MergeKeepsSettings(Track(v, r), free, r);
    hide Merge, Bypass;
  }

  predicate SameMemory(v: Device, w: Device) {
    w.isRead == v.isRead && w.lastLba == v.lastLba && w.sequential == v.sequential && w.enabled == v.enabled && w.sgLimit == v.sgLimit
  }

  lemma KeepsSettings(v: Device, r: Request)
    ensures SameMemory(v, Bypass(v, r))
  {
  }

  lemma MergeKeepsSettings(v: Device, free: seq<nat>, r: Request)
    ensures SameMemory(v, Merge(v, free, r).0)
  {
  }

  // ---------------------------------------------------------------- settings

  /** Whether consolidation is on, for the controller and for device `d`, after the events. */
  datatype Setting = Setting(controller: bool, device: bool)

  function SettingAfter(es: seq<Event>, d: nat): Setting {
    if es == [] then Setting(false, false)
    else
      var before := SettingAfter(es[..|es| - 1], d);
      match es[|es| - 1]
      case ChangeSetting(enable, caches) => Setting(enable, enable && d < |caches| && !caches[d])
      case SetDevice(c, cached) => if before.controller && c == d then Setting(true, !cached) else before
      case _ => before
  }

  lemma StepSetting(s: System, e: Event, d: nat)
    requires Legal(s, e) && d < |s.devs| && s.devs[d].sequential <= 254
    ensures var t := Step(s, e);
      match e
      case ChangeSetting(enable, caches) => t.moduleEnabled == enable && t.devs[d].enabled == (enable && !caches[d])
      case SetDevice(c, cached) =>
        t.moduleEnabled == s.moduleEnabled && t.devs[d].enabled == if s.moduleEnabled && c == d then !cached else s.devs[d].enabled
      case _ => t.moduleEnabled == s.moduleEnabled && t.devs[d].enabled == s.devs[d].enabled
  {
    hide Submit, CompleteSingle, CompleteMerged, Return;
    match e
    case Submission(r) => if r.device == d { RemembersExactly(s.devs[d], s.free, r); }
    case SingleDone(c, j) => if c == d { SingleKeeps(s.devs[d], j); }
    case MergedDone(c, j, ok) => if c == d { MergedKeeps(s.devs[d], s.free, j, ok); }
    case Unsubmitted(r) => if r.device == d { ReturnKeeps(s.devs[d], r); }
    case _ =>
  }

  lemma ReturnKeeps(v: Device, r: Request)
    ensures Return(v, r).enabled == v.enabled && Return(v, r).sequential == v.sequential
  {
  }

  lemma SingleKeeps(v: Device, j: nat)
    requires j < |v.flight| && v.flight[j].Single?
    ensures CompleteSingle(v, j).enabled == v.enabled && CompleteSingle(v, j).sequential == v.sequential
  {
  }

  lemma {:induction false} FanOutKeeps(v: Device, ms: seq<Request>)
    ensures FanOut(v, ms).enabled == v.enabled && FanOut(v, ms).sequential == v.sequential
    decreases |ms|
  {
    hide Return;
    if ms != [] {
      var v1 := if |ms| == 1 then v else v.(ioCount := Inc16(v.ioCount));
      ReturnKeeps(v1, ms[0]);
      FanOutKeeps(Return(v1, ms[0]), ms[1..]);
    }
  }

  lemma {:induction false} ResendAllKeeps(v: Device, ms: seq<Request>)
    ensures ResendAll(v, ms).enabled == v.enabled && ResendAll(v, ms).sequential == v.sequential
    decreases |ms|
  {
    if ms != [] {
      ResendAllKeeps(SendSingle(v, ms[0], true), ms[1..]);
    }
  }

  lemma MergedKeeps(v: Device, free: seq<nat>, j: nat, ok: bool)
    requires j < |v.flight| && v.flight[j].Merged?
    ensures var w := CompleteMerged(v, free, j, ok).0;
      w.enabled == v.enabled && w.sequential == if ok then v.sequential else 0
  {
    var w := v.(flight := DropAt(v.flight, j));
    FanOutKeeps(w, v.flight[j].internal.members);
    ResendAllKeeps(w.(ioCount := Dec16(w.ioCount), sequential := 0), v.flight[j].internal.members);
  }

  lemma StepSequential(s: System, e: Event, d: nat)
    requires Legal(s, e) && d < |s.devs| && s.devs[d].sequential <= 254
    ensures Step(s, e).devs[d].sequential <= 254
  {
    hide Submit, CompleteSingle, CompleteMerged, Return;
    match e
    case Submission(r) => if r.device == d { RemembersExactly(s.devs[d], s.free, r); }
    case SingleDone(c, j) => if c == d { SingleKeeps(s.devs[d], j); }
    case MergedDone(c, j, ok) => if c == d { MergedKeeps(s.devs[d], s.free, j, ok); }
    case Unsubmitted(r) => if r.device == d { ReturnKeeps(s.devs[d], r); }
    case _ =>
  }

  /** In every run consolidation is on for a device exactly as the last change that concerns it says. */
  lemma {:induction false} EnabledExactly(reqCount: nat, devCount: nat, ss: seq<System>, es: seq<Event>, d: nat)
    requires IsRun(reqCount, devCount, ss, es) && d < devCount
    ensures |ss[|es|].devs| == devCount && ss[|es|].devs[d].sequential <= 254
    ensures Setting(ss[|es|].moduleEnabled, ss[|es|].devs[d].enabled) == SettingAfter(es, d)
    decreases |es|
  {
    hide IsRun, Step;
    Shorter(reqCount, devCount, ss, es);
    if es == [] {
      InitialSetting(reqCount, devCount, ss, es, d);
    } else {
      var n := |es| - 1;
      EnabledExactly(reqCount, devCount, ss[..|es|], es[..n], d);
      StepSetting(ss[n], es[n], d);
      StepSequential(ss[n], es[n], d);
    }
  }

  lemma InitialSetting(reqCount: nat, devCount: nat, ss: seq<System>, es: seq<Event>, d: nat)
    requires IsRun(reqCount, devCount, ss, es) && d < devCount && es == []
    ensures !ss[0].moduleEnabled && !ss[0].devs[d].enabled && ss[0].devs[d].sequential == 0
  {
  }

  /**
   So in every run, while the last change that concerns a device has consolidation off for the
   controller, or finds its cache on, nothing submitted to it is merged.
   */
  lemma NotMergedWhileOff(reqCount: nat, devCount: nat, ss: seq<System>, es: seq<Event>, r: Request)
    requires IsRun(reqCount, devCount, ss, es) && r.device < devCount && !SettingAfter(es, r.device).device
    requires Legal(ss[|es|], Submission(r))
    ensures r.device < |ss[|es|].devs| && SentAlone(Step(ss[|es|], Submission(r)).devs[r.device], r)
  {
    EnabledExactly(reqCount, devCount, ss, es, r.device);
    hide IsRun;
    MergingNeedsAStream(ss[|es|].devs[r.device], ss[|es|].free, r);
    hide Submit;
  }
}
