/**
 The consolidator as the C module it is: device records updated in place, a free queue,
 early exits to one bypass path, and loops over the ring of an internal request.
 Handing a request to the next module appends it to the device's `flight`.
 */
module ConsolidatorModule {
  import opened Common
  import opened Consolidator
  import opened ConsolidatorRuns

  predicate IsVerify(op: nat) { op == 0x2F || op == 0x8F }

  class ModConsolidate {
    var freeQueue: seq<nat>
    const devices: array<Device>
    var moduleEnabled: bool
    var unknown: seq<Request>

    ghost function State(): System
      reads this, devices
    {
      System(devices[..], freeQueue, moduleEnabled, unknown)
    }

    constructor InitializeExtension(reqCount: nat, devCount: nat)
      ensures fresh(devices)
      ensures State() == Init(reqCount, devCount)
    {
      devices := new Device[devCount](i => NEW_DEVICE);
      freeQueue, unknown := [], [];
      moduleEnabled := false;
      new;
      var i := 0;
      while i < reqCount
        invariant i <= reqCount && freeQueue == Upto(i)
        invariant devices[..] == Init(reqCount, devCount).devs && !moduleEnabled && unknown == []
        modifies this
      {
        freeQueue := freeQueue + [i];
        i := i + 1;
      }
    }

    /** CONS_SEND_REQUEST of an external request. */
    method Send(d: nat, r: Request, again: bool)
      requires d < devices.Length
      modifies devices
      ensures devices[..] == old(devices[..])[d := SendSingle(old(devices[d]), r, again)]
    {
      if IsReadWrite(r.op) {
        devices[d] := devices[d].(ioCount := Inc16(devices[d].ioCount));
      }
      devices[d] := devices[d].(flight := devices[d].flight + [Single(r)],
                                handed := devices[d].handed + [if again then Again(r) else First(Single(r))]);
    }

    /** ModConsolid_CloseRequest and CONS_SEND_REQUEST of the held request. */
    method CloseAndSendHeld(d: nat)
      requires d < devices.Length && devices[d].holding.Some?
      modifies devices
      ensures devices[..] == old(devices[..])[d := CloseAndSend(old(devices[d]))]
    {
      var i := devices[d].holding.value;
      i := i.(sectors := i.len / 512);
      devices[d] := devices[d].(holding := None);
      if IsReadWrite(i.op) {
        devices[d] := devices[d].(ioCount := Inc16(devices[d].ioCount));
      }
      devices[d] := devices[d].(flight := devices[d].flight + [Merged(i)],
                                handed := devices[d].handed + [First(Merged(i))]);
    }

    method ConsolidateRequest(d: nat, r: Request)
      requires d < devices.Length && devices[d].holding.Some?
      modifies devices
      ensures devices[..] == old(devices[..])[d := Attach(old(devices[d]), r)]
    {
      var i := devices[d].holding.value;
      if i.len == 0 {
        i := i.(op := r.op, members := [r], occupy := 0);
        devices[d] := devices[d].(reqCount := 0);
      } else {
        i := i.(members := i.members + [r]);
      }
      devices[d] := devices[d].(reqCount := devices[d].reqCount + 1);
      i := i.(len := i.len + r.len, occupy := i.occupy + r.sg);
      devices[d] := devices[d].(holding := Some(i));
    }

    /** The part of ModConsolid_ModuleSendRequest that decides: may this request join the held one? */
    method MustBypass(d: nat, r: Request) returns (bypass: bool)
      requires d < devices.Length
      modifies devices
      ensures var v := old(devices[d]);
        var w := if !MayMerge(v, r) then v
                 else if IsRead(r.op) != v.isRead then v.(isRead := IsRead(r.op))
                 else Track(v, r);
        && devices[..] == old(devices[..])[d := w]
        && (bypass <==> !MayMerge(v, r) || IsRead(r.op) != v.isRead || w.ioCount == 0 || w.sequential < SEQUENTIAL_THRESHOLD)
    {
      var v := devices[d];
      if !v.enabled || r.noConsolidate || !IsReadWrite(r.op) || r.len > MAX_EXTERNAL_REQUEST_SIZE {
        return true;
      }
      if (IsRead(r.op) && !v.isRead) || (IsWrite(r.op) && v.isRead) {
        devices[d] := v.(isRead := IsRead(r.op));
        return true;
      }
      if r.lba != v.lastLba {
        devices[d] := devices[d].(sequential := 0);
      } else {
        devices[d] := devices[d].(sequential := (devices[d].sequential + 1) % 256);
      }
      devices[d] := devices[d].(lastLba := NextLba(r));
      if devices[d].sequential > SEQUENTIAL_MAX {
        devices[d] := devices[d].(sequential := SEQUENTIAL_THRESHOLD);
      }
      bypass := devices[d].ioCount == 0 || devices[d].sequential < SEQUENTIAL_THRESHOLD;
    }

    /** Holding or merging, once the request is known to continue a running sequential stream. */
    method JoinHeld(d: nat, r: Request)
      requires d < devices.Length
      modifies this`freeQueue, devices
      ensures devices[..] == old(devices[..])[d := Merge(old(devices[d]), old(freeQueue), r).0]
      ensures freeQueue == Merge(old(devices[d]), old(freeQueue), r).1
    {
      if devices[d].holding.Some? && TooBig(devices[d].holding.value, r) {
        CloseAndSendHeld(d);
      }
      if devices[d].holding.None? {
        if freeQueue != [] {
          devices[d] := devices[d].(holding := Some(FreshInternal(freeQueue[0], r.lba)));
          freeQueue := freeQueue[1..];
        }
      }
      if devices[d].holding.None? {
        Send(d, r, false);
        return;
      }
      ConsolidateRequest(d, r);
      if devices[d].holding.value.len >= MIN_INTERNAL_REQUEST_SIZE || devices[d].reqCount * 2 >= devices[d].sgLimit {
        CloseAndSendHeld(d);
      }
    }

    /** A request for a device the module has no record of is only passed on. */
    method ModuleSendRequest(r: Request)
      requires IsReadWrite(r.op) ==> r.device < devices.Length
      modifies this`freeQueue, this`unknown, devices
      ensures State() == Step(old(State()), Submission(r))
      ensures var d := r.device;
        if d >= devices.Length then devices[..] == old(devices[..]) && freeQueue == old(freeQueue)
        else && devices[..] == old(devices[..])[d := Submit(old(devices[d]), old(freeQueue), r).0]
             && freeQueue == Submit(old(devices[d]), old(freeQueue), r).1
    {
      var d := r.device;
      if d >= devices.Length {
        unknown := unknown + [r];
        return;
      }
      var bypass := MustBypass(d, r);
      if bypass {
        if devices[d].holding.Some? {
          CloseAndSendHeld(d);
        }
        Send(d, r, false);
      } else {
        JoinHeld(d, r);
      }
    }

    method PushFireRequest(r: Request)
      modifies devices
      ensures devices[..] == if r.device >= devices.Length then old(devices[..])
                             else old(devices[..])[r.device := PushFire(old(devices[r.device]), r)]
    {
      var d := r.device;
      if d >= devices.Length {
        return;
      }
      if IsReadWrite(r.op) {
        devices[d] := devices[d].(ioCount := Dec16(devices[d].ioCount));
      }
      if devices[d].ioCount > 0 {
        return;
      }
      if devices[d].holding.None? {
        return;
      }
      CloseAndSendHeld(d);
    }

    /** hba_req_callback: the request goes back to the OS, then the push. */
    method CompleteExternal(r: Request)
      modifies devices
      ensures devices[..] == if r.device >= devices.Length then old(devices[..])
                             else old(devices[..])[r.device := Return(old(devices[r.device]), r)]
    {
      var d := r.device;
      if d < devices.Length {
        devices[d] := devices[d].(done := devices[d].done + [r]);
      }
      PushFireRequest(r);
    }

    /** The part of mv_linux_queue_command that submits: a transfer of no sectors is completed at once. */
    method QueueCommand(r: Request)
      requires IsReadWrite(r.op) && r.sectors > 0 ==> r.device < devices.Length
      modifies this`freeQueue, this`unknown, devices
      ensures State() == Step(old(State()),
                if r.sectors == 0 && (IsReadWrite(r.op) || IsVerify(r.op)) then Unsubmitted(r.(len := 0)) else Submission(r))
    {
      if r.sectors == 0 && (IsReadWrite(r.op) || IsVerify(r.op)) {
        CompleteExternal(r.(len := 0));
        return;
      }
      ModuleSendRequest(r);
    }

    /** ModConsolid_RequestCallBack: the next module has completed the internal request at position `j`. */
    method RequestCallBack(d: nat, j: nat, ok: bool)
      requires d < devices.Length && j < |devices[d].flight| && devices[d].flight[j].Merged?
      requires devices[d].flight[j].internal.members != []
      requires forall m <- devices[d].flight[j].internal.members :: m.device == d
      modifies this`freeQueue, devices
      ensures devices[..] == old(devices[..])[d := CompleteMerged(old(devices[d]), old(freeQueue), j, ok).0]
      ensures freeQueue == CompleteMerged(old(devices[d]), old(freeQueue), j, ok).1
    {
      ghost var before := devices[..];
      var i := devices[d].flight[j].internal;
      devices[d] := devices[d].(flight := DropAt(devices[d].flight, j));
      var ring := i.members;
      if ok {
        ghost var start := devices[d];
        while |ring| > 1
          invariant freeQueue == old(freeQueue)
          invariant |ring| > 0 && forall m <- ring :: m.device == d
          invariant FanOut(devices[d], ring) == FanOut(start, i.members)
          invariant devices[..] == before[d := devices[d]]
        {
          devices[d] := devices[d].(ioCount := Inc16(devices[d].ioCount));
          CompleteExternal(ring[0]);
          ring := ring[1..];
        }
        CompleteExternal(ring[0]);
      } else {
        devices[d] := devices[d].(ioCount := Dec16(devices[d].ioCount));
        devices[d] := devices[d].(sequential := 0);
        ghost var start := devices[d];
        while |ring| > 1
          invariant freeQueue == old(freeQueue)
          invariant |ring| > 0
          invariant ResendAll(devices[d], ring) == ResendAll(start, i.members)
          invariant devices[..] == before[d := devices[d]]
        {
          Send(d, ring[0], true);
          ring := ring[1..];
        }
        Send(d, ring[0], true);
        assert ResendAll(devices[d], []) == devices[d];
      }
      freeQueue := freeQueue + [i.slot];
    }

    /** ModConsolid_SetDevice; `cached` is the notification's parameter, if it has one. */
    method SetDevice(d: nat, cached: Option<bool>)
      requires d < devices.Length
      modifies devices
      ensures devices[..] == if moduleEnabled then old(devices[..])[d := Configured(old(devices[d]), cached == Some(true))]
                             else old(devices[..])
    {
      if !moduleEnabled {
        return;
      }
      devices[d] := devices[d].(enabled := true);
      devices[d] := devices[d].(sgLimit := MAX_SG_ENTRY);
      if cached.Some? && cached.value {
        devices[d] := devices[d].(enabled := false);
      }
    }

    /** ModConsolid_ChangeConsSetting; `caches[i]` is what the cache module reports for device `i`. */
    method ChangeConsSetting(enable: bool, caches: seq<bool>)
      requires |caches| == devices.Length
      modifies this`moduleEnabled, devices
      ensures State() == Step(old(State()), ChangeSetting(enable, caches))
    {
      moduleEnabled := enable;
      var i := 0;
      while i < devices.Length
        invariant 0 <= i <= devices.Length && moduleEnabled == enable
        invariant forall c :: 0 <= c < i ==> devices[c] == Reconfigured(old(devices[c]), enable, caches[c])
        invariant forall c :: i <= c < devices.Length ==> devices[c] == old(devices[c])
      {
        devices[i] := devices[i].(enabled := enable);
        if enable {
          devices[i] := devices[i].(sgLimit := MAX_SG_ENTRY);
          if caches[i] {
            devices[i] := devices[i].(enabled := false);
          }
        }
        i := i + 1;
      }
    }
  }
}
