/**
 The bounded event log of linux/hba_exp.c: MAX_EVENTS entries that move between a free and a
 stored list, the oldest stored one being reused when none is free.
 */
module EventLog {
  import opened Common

  const MAX_EVENTS := 20
  const MAX_EVENTS_RETURNED := 6
  const MAX_EVENT_PARAMS := 4
  const MAX_EVENT_SENSE_DATA_COUNT := 30
  const U32 := 0x1_0000_0000

  datatype Event = Event(sequenceNo: nat, eventId: nat, severity: nat, device: nat, time: nat,
                         params: seq<nat>, senseLength: nat, sense: seq<nat>)

  /** The arguments of add_event; a null pointer is `None`. */
  datatype Report = Report(eventId: nat, severity: nat, device: nat, time: nat,
                           paramCount: nat, params: Option<seq<nat>>, senseLength: nat, sense: Option<seq<nat>>)

  /** `accepted`, `delivered` (positions in `accepted`) and `answers` (what was delivered) are the history. */
  datatype Log = Log(entries: seq<Event>, free: seq<nat>, stored: seq<nat>, numStored: int, sequence: nat,
                     accepted: seq<Event>, delivered: seq<nat>, answers: seq<Event>)

  /** The buffers are as long as the counts passed with them. */
  predicate Buffered(r: Report) {
    && (r.params.Some? ==> |r.params.value| >= r.paramCount)
    && (r.sense.Some? ==> |r.sense.value| >= r.senseLength)
  }

  /** The first `n` places of `prior` overwritten: an entry keeps what a shorter event does not fill. */
  function Overlay(prior: seq<nat>, given: seq<nat>, n: nat): seq<nat> {
    if n <= |prior| && n <= |given| then given[..n] + prior[n..] else prior
  }

  function Recorded(e: Event, r: Report, sequence: nat): Event {
    var n := if r.senseLength > MAX_EVENT_SENSE_DATA_COUNT then MAX_EVENT_SENSE_DATA_COUNT else r.senseLength;
    Event(sequence, r.eventId, r.severity, r.device, r.time,
          if r.paramCount > 0 && r.params.Some? then Overlay(e.params, r.params.value, r.paramCount) else e.params,
          if r.senseLength > 0 && r.sense.Some? then n else 0,
          if r.senseLength > 0 && r.sense.Some? then Overlay(e.sense, r.sense.value, n) else e.sense)
  }

  const BLANK := Event(0, 0, 0, 0, 0, seq(MAX_EVENT_PARAMS, i => 0), 0, seq(MAX_EVENT_SENSE_DATA_COUNT, i => 0))

  function Init(): Log {
    Log(seq(MAX_EVENTS, i => BLANK), Upto(MAX_EVENTS), [], 0, 0, [], [], [])
  }

  // ---------------------------------------------------------------- operations

  /** The entry add_event takes: the first free one, else the oldest stored one. */
  function Chosen(s: Log): Option<nat> {
    if s.free != [] then Some(s.free[0]) else if s.stored != [] then Some(s.stored[0]) else None
  }

  /** Entry `k`, taken off its list, is filled with `e` and becomes the latest stored one. */
  function Accept(s: Log, k: nat, e: Event): Log
    requires k < |s.entries|
  {
    s.(entries := s.entries[k := e],
       free := if s.free != [] then s.free[1..] else [],
       stored := Kept(s) + [k],
       numStored := if s.free == [] then s.numStored else s.numStored + 1,
       sequence := (s.sequence + 1) % U32,
       accepted := s.accepted + [e])
  }

  function Kept(s: Log): seq<nat> { if s.free == [] && s.stored != [] then s.stored[1..] else s.stored }

  /** Too many parameters are refused; there is always an entry, and it is one of the pool's. */
  function AddEvent(s: Log, r: Report): (Log, bool) {
    var k := Chosen(s);
    if r.paramCount > MAX_EVENT_PARAMS || k.None? || k.value >= |s.entries| then (s, false)
    else (Accept(s, k.value, Recorded(s.entries[k.value], r, s.sequence)), true)
  }

  /** The oldest stored event goes back to the free list. */
  function TakeOldest(s: Log): Log
    requires s.stored != []
  {
    s.(free := s.free + [s.stored[0]], stored := s.stored[1..], numStored := s.numStored - 1,
       delivered := s.delivered + (if |s.stored| <= |s.accepted| then [|s.accepted| - |s.stored|] else []),
       answers := s.answers + (if s.stored[0] < |s.entries| then [s.entries[s.stored[0]]] else []))
  }

  function GetEvents(s: Log, count: nat): Log
    decreases MAX_EVENTS_RETURNED - count
  {
    if s.stored == [] || count >= MAX_EVENTS_RETURNED then s else GetEvents(TakeOldest(s), count + 1)
  }

  /** get_event. */
  function GetEvent(s: Log): Log {
    if s.numStored > 0 then GetEvents(s, 0) else s
  }

  // ---------------------------------------------------------------- invariant

  ghost predicate Partition(s: Log) {
    forall k: nat :: Count(s.free, k) + Count(s.stored, k) == if k < MAX_EVENTS then 1 else 0
  }

  /** The stored entries hold the last events accepted, in order. */
  ghost predicate KeepsLatest(s: Log) {
    && |s.stored| <= |s.accepted|
    && s.numStored == |s.stored|
    && (forall i :: 0 <= i < |s.stored| ==> s.stored[i] < |s.entries|)
    && (forall i :: 0 <= i < |s.stored| ==> s.entries[s.stored[i]] == s.accepted[|s.accepted| - |s.stored| + i])
  }

  /** Accepted events are numbered one after the other, modulo 2^32. */
  ghost predicate Numbered(s: Log) {
    && s.sequence == |s.accepted| % U32
    && forall i :: 0 <= i < |s.accepted| ==> s.accepted[i].sequenceNo == i % U32
  }

  ghost predicate Inv(s: Log) {
    && Partition(s) && KeepsLatest(s) && Numbered(s)
    && |s.free| + |s.stored| == |s.entries| == MAX_EVENTS
  }

  lemma HeadDiffers(s: seq<nat>, other: seq<nat>)
    requires s != [] && forall k: nat :: Count(s, k) + Count(other, k) <= 1
    ensures s[0] !in s[1..] && s[0] !in other
  {
    SumHead(s, Same, s[0]);
    CountMember(s[1..], s[0]);
    CountMember(other, s[0]);
    assert Count(s, s[0]) + Count(other, s[0]) <= 1;
  }

  lemma ChosenInPool(s: Log)
    requires Partition(s) && |s.free| + |s.stored| > 0
    ensures Chosen(s).Some? && Chosen(s).value < MAX_EVENTS && Chosen(s).value !in Kept(s)
  {
    var list, other := if s.free == [] then s.stored else s.free, if s.free == [] then s.free else s.stored;
    CountMember(list, list[0]);
    HeadDiffers(list, other);
  }

  lemma AcceptKeepsPartition(s: Log, k: nat, e: Event)
    requires Partition(s) && k < |s.entries| && Chosen(s) == Some(k)
    ensures Partition(Accept(s, k, e))
  {
    var t := Accept(s, k, e);
    forall i: nat ensures Count(t.free, i) + Count(t.stored, i) == Count(s.free, i) + Count(s.stored, i) {
      SumHead(if s.free == [] then s.stored else s.free, Same, i);
      CountSnoc(Kept(s), k, i);
      hide Sum;
    }
  }

  lemma AcceptKeepsLatest(s: Log, k: nat, e: Event)
    requires KeepsLatest(s) && k < |s.entries| && Chosen(s) == Some(k) && k !in Kept(s)
    ensures KeepsLatest(Accept(s, k, e))
  {
    var t := Accept(s, k, e);
    var n := |Kept(s)|;
    forall i | 0 <= i < |t.stored| ensures t.entries[t.stored[i]] == t.accepted[|t.accepted| - |t.stored| + i] {
      if i < n {
        assert t.stored[i] == Kept(s)[i] && Kept(s)[i] in Kept(s);
      }
    }
  }

  lemma AddKeeps(s: Log, r: Report)
    requires Inv(s)
    ensures Inv(AddEvent(s, r).0)
    ensures AddEvent(s, r).1 <==> r.paramCount <= MAX_EVENT_PARAMS
  {
    ChosenInPool(s);
    var k := Chosen(s).value;
    var e := Recorded(s.entries[k], r, s.sequence);
    AcceptKeepsPartition(s, k, e);
    AcceptKeepsLatest(s, k, e);
    hide Partition, KeepsLatest, Sum, Overlay;
  }

  lemma TakeKeeps(s: Log)
    requires Inv(s) && s.stored != []
    ensures Inv(TakeOldest(s))
  {
    var t := TakeOldest(s);
    forall k: nat ensures Count(t.free, k) + Count(t.stored, k) == Count(s.free, k) + Count(s.stored, k) {
      SumHead(s.stored, Same, k);
      CountSnoc(s.free, s.stored[0], k);
      hide Sum;
    }
  }

  // ---------------------------------------------------------------- the reference

  /** An unbounded log of `n` events read from position `next` on; `out` are the positions delivered. */
  datatype Reference = Reference(n: nat, next: nat, out: seq<nat>)

  /** Reading falls behind by no more than MAX_EVENTS. */
  function RefAdd(r: Reference): Reference {
    Reference(r.n + 1, if r.next + MAX_EVENTS < r.n + 1 then r.n + 1 - MAX_EVENTS else r.next, r.out)
  }

  function RefGet(r: Reference, count: nat): Reference
    decreases MAX_EVENTS_RETURNED - count
  {
    if r.next >= r.n || count >= MAX_EVENTS_RETURNED then r
    else RefGet(r.(next := r.next + 1, out := r.out + [r.next]), count + 1)
  }

  function View(s: Log): Reference {
    Reference(|s.accepted|, if |s.stored| <= |s.accepted| then |s.accepted| - |s.stored| else 0, s.delivered)
  }

  lemma AddRefines(s: Log, r: Report)
    requires Inv(s)
    ensures View(AddEvent(s, r).0) == if AddEvent(s, r).1 then RefAdd(View(s)) else View(s)
  {
    AddKeeps(s, r);
    hide Partition, Numbered, Sum, Recorded;
  }

  lemma TakeRefines(s: Log)
    requires Inv(s)
    ensures var r := View(s); r.next < r.n <==> s.stored != []
    ensures s.stored != [] ==> View(TakeOldest(s)) == View(s).(next := View(s).next + 1, out := View(s).out + [View(s).next])
  {
    hide Partition, Numbered;
  }

  lemma {:induction false} GetRefines(s: Log, count: nat)
    requires Inv(s)
    ensures Inv(GetEvents(s, count)) && View(GetEvents(s, count)) == RefGet(View(s), count)
    ensures GetEvents(s, count).accepted == s.accepted
    decreases MAX_EVENTS_RETURNED - count
  {
    hide Inv, View;
    TakeRefines(s);
    if s.stored != [] && count < MAX_EVENTS_RETURNED {
      TakeKeeps(s);
      GetRefines(TakeOldest(s), count + 1);
    }
  }

  // ---------------------------------------------------------------- runs

  datatype Call = Add(report: Report) | Get

  function Step(s: Log, c: Call): Log {
    match c
    case Add(r) => AddEvent(s, r).0
    case Get => GetEvent(s)
  }

  function Run(s: Log, calls: seq<Call>): Log {
    if calls == [] then s else Step(Run(s, calls[..|calls| - 1]), calls[|calls| - 1])
  }

  function RefStep(r: Reference, c: Call): Reference {
    match c
    case Add(report) => if report.paramCount <= MAX_EVENT_PARAMS then RefAdd(r) else r
    case Get => RefGet(r, 0)
  }

  function RefRun(calls: seq<Call>): Reference {
    if calls == [] then Reference(0, 0, []) else RefStep(RefRun(calls[..|calls| - 1]), calls[|calls| - 1])
  }

  lemma Started()
    ensures Inv(Init()) && View(Init()) == Reference(0, 0, [])
  {
    forall k: nat ensures Count(Upto(MAX_EVENTS), k) == if k < MAX_EVENTS then 1 else 0 {
      CountUpto(MAX_EVENTS, k);
    }
    hide Sum;
  }

  /** Every run of the log behaves as the reference: what is delivered depends on the calls alone. */
  lemma {:induction false} RunRefines(calls: seq<Call>)
    ensures Inv(Run(Init(), calls)) && View(Run(Init(), calls)) == RefRun(calls)
  {
    hide Inv, View;
    if calls == [] {
      Started();
    } else {
      var n := |calls| - 1;
      RunRefines(calls[..n]);
      StepRefines(Run(Init(), calls[..n]), calls[n]);
    }
  }

  lemma StepRefines(s: Log, c: Call)
    requires Inv(s)
    ensures Inv(Step(s, c)) && View(Step(s, c)) == RefStep(View(s), c)
  {
    match c
    case Add(r) =>
      AddKeeps(s, r);
      AddRefines(s, r);
    case Get =>
      GetRefines(s, 0);
  }

  /** Delivered positions increase and are behind the read position. */
  ghost predicate Increasing(r: Reference) {
    && r.next <= r.n <= r.next + MAX_EVENTS
    && (forall i :: 0 <= i < |r.out| ==> r.out[i] < r.next)
    && (forall i, j :: 0 <= i < j < |r.out| ==> r.out[i] < r.out[j])
  }

  /** A position behind the read position was delivered, or MAX_EVENTS newer events exist. */
  ghost predicate MissedOnlyByOverrun(r: Reference) {
    forall p: nat :: p < r.next && p !in r.out ==> p + MAX_EVENTS < r.n
  }

  /** One delivery. */
  lemma DeliverKeeps(r: Reference)
    requires Increasing(r) && MissedOnlyByOverrun(r) && r.next < r.n
    ensures var t := r.(next := r.next + 1, out := r.out + [r.next]);
      Increasing(t) && MissedOnlyByOverrun(t)
  {
    var t := r.(next := r.next + 1, out := r.out + [r.next]);
    forall p: nat | p < t.next && p !in t.out ensures p + MAX_EVENTS < t.n {
      assert t.out[|r.out|] == r.next;
      forall i | 0 <= i < |r.out| ensures r.out[i] != p {
        assert t.out[i] == r.out[i];
      }
    }
  }

  lemma {:induction false} RefGetKeeps(r: Reference, count: nat)
    requires Increasing(r) && MissedOnlyByOverrun(r)
    ensures Increasing(RefGet(r, count)) && MissedOnlyByOverrun(RefGet(r, count)) && RefGet(r, count).n == r.n
    decreases MAX_EVENTS_RETURNED - count
  {
    hide Increasing, MissedOnlyByOverrun;
    if r.next < r.n && count < MAX_EVENTS_RETURNED {
      DeliverKeeps(r);
      RefGetKeeps(r.(next := r.next + 1, out := r.out + [r.next]), count + 1);
    }
  }

  lemma {:induction false} RefRunKeeps(calls: seq<Call>)
    ensures Increasing(RefRun(calls)) && MissedOnlyByOverrun(RefRun(calls))
  {
    if calls != [] {
      RefRunKeeps(calls[..|calls| - 1]);
      RefGetKeeps(RefRun(calls[..|calls| - 1]), 0);
    }
  }

  lemma AtState(s: Log, k: nat, p: nat)
    requires Inv(s) && Increasing(View(s)) && MissedOnlyByOverrun(View(s))
    ensures Count(s.free, k) + Count(s.stored, k) == (if k < MAX_EVENTS then 1 else 0)
    ensures s.numStored == |s.stored| <= |s.accepted| && |s.entries| == MAX_EVENTS
    ensures forall i :: 0 <= i < |s.stored| ==> s.stored[i] < MAX_EVENTS
    ensures forall i :: 0 <= i < |s.stored| ==> s.entries[s.stored[i]] == s.accepted[|s.accepted| - |s.stored| + i]
    ensures Numbered(s)
    ensures forall i, j :: 0 <= i < j < |s.delivered| ==> s.delivered[i] < s.delivered[j]
    ensures p < |s.accepted| - |s.stored| && p !in s.delivered ==> p + MAX_EVENTS < |s.accepted|
  {
    hide Sum;
  }

  /**
   Over every run: the entries are either free or stored, once; the stored ones hold the latest
   accepted events, numbered one after the other up to the last; delivered numbers increase;
   and an accepted event that is neither stored nor delivered has MAX_EVENTS newer ones.
   */
  lemma LogOverRuns(calls: seq<Call>, k: nat, p: nat)
    ensures var s := Run(Init(), calls);
      && Count(s.free, k) + Count(s.stored, k) == (if k < MAX_EVENTS then 1 else 0)
      && s.numStored == |s.stored| <= |s.accepted|
      && |s.entries| == MAX_EVENTS
      && (forall i :: 0 <= i < |s.stored| ==> s.stored[i] < MAX_EVENTS)
      && (forall i :: 0 <= i < |s.stored| ==> s.entries[s.stored[i]] == s.accepted[|s.accepted| - |s.stored| + i])
      && Numbered(s)
      && (forall i, j :: 0 <= i < j < |s.delivered| ==> s.delivered[i] < s.delivered[j])
      && (p < |s.accepted| - |s.stored| && p !in s.delivered ==> p + MAX_EVENTS < |s.accepted|)
  {
    hide *;
    RunRefines(calls);
    RefRunKeeps(calls);
    AtState(Run(Init(), calls), k, p);
  }

  // ---------------------------------------------------------------- the log as it is written

  class EventQueue {
    const entries: array<Event>
    var freeEvents: seq<nat>
    var storedEvents: seq<nat>
    var numStoredEvents: int
    var sequenceNumber: nat
    var accepted: seq<Event>
    var delivered: seq<nat>
    var answers: seq<Event>

    ghost function State(): Log
      reads this, entries
    {
      Log(entries[..], freeEvents, storedEvents, numStoredEvents, sequenceNumber, accepted, delivered, answers)
    }

    constructor Initialize()
      ensures fresh(entries) && State() == Init()
    {
      entries := new Event[MAX_EVENTS](i => BLANK);
      freeEvents, storedEvents, numStoredEvents, sequenceNumber := [], [], 0, 0;
      accepted, delivered, answers := [], [], [];
      new;
      var i := 0;
      while i < MAX_EVENTS
        invariant i <= MAX_EVENTS && freeEvents == Upto(i)
        invariant State().(free := []) == Init().(free := [])
        modifies this`freeEvents
      {
        freeEvents := freeEvents + [i];
        i := i + 1;
      }
    }

    /** add_event. */
    method Add(r: Report) returns (ok: bool)
      requires Inv(State()) && Buffered(r)
      modifies this, entries
      ensures State() == AddEvent(old(State()), r).0 && ok == AddEvent(old(State()), r).1
    {
      ChosenInPool(State());
      hide Partition, KeepsLatest, Numbered;
      if r.paramCount > MAX_EVENT_PARAMS {
        return false;
      }
      var k;
      if freeEvents == [] {
        k := storedEvents[0];
        storedEvents := storedEvents[1..];
      } else {
        k := freeEvents[0];
        freeEvents := freeEvents[1..];
        numStoredEvents := numStoredEvents + 1;
      }
      var e := entries[k].(eventId := r.eventId, severity := r.severity, device := r.device, time := r.time,
                           sequenceNo := sequenceNumber);
      sequenceNumber := (sequenceNumber + 1) % U32;
      if r.paramCount > 0 && r.params.Some? {
        e := e.(params := Overlay(e.params, r.params.value, r.paramCount));
      }
      if r.senseLength > 0 && r.sense.Some? {
        var n := r.senseLength;
        if n > MAX_EVENT_SENSE_DATA_COUNT {
          n := MAX_EVENT_SENSE_DATA_COUNT;
        }
        e := e.(senseLength := n, sense := Overlay(e.sense, r.sense.value, n));
      } else {
        e := e.(senseLength := 0);
      }
      entries[k] := e;
      storedEvents := storedEvents + [k];
      accepted := accepted + [e];
      ok := true;
    }

    /** One pass of get_event's loop. */
    method TakeOne() returns (e: Event)
      requires Inv(State()) && storedEvents != []
      modifies this`freeEvents, this`storedEvents, this`numStoredEvents, this`delivered, this`answers
      ensures State() == TakeOldest(old(State())) && Inv(State())
      ensures storedEvents == old(storedEvents)[1..] && answers == old(answers) + [e]
      ensures |old(storedEvents)| <= |accepted| && e == accepted[|accepted| - |old(storedEvents)|]
    {
      TakeKeeps(State());
      hide Partition, KeepsLatest, Numbered;
      var k := storedEvents[0];
      delivered := delivered + [|accepted| - |storedEvents|];
      e := entries[k];
      answers := answers + [e];
      numStoredEvents := numStoredEvents - 1;
      storedEvents := storedEvents[1..];
      freeEvents := freeEvents + [k];
    }

    /** get_event's loop: `events` is the answer, the oldest events still stored. */
    method GetLoop() returns (events: seq<Event>)
      requires Inv(State())
      modifies this`freeEvents, this`storedEvents, this`numStoredEvents, this`delivered, this`answers
      ensures State() == GetEvents(old(State()), 0) && answers == old(answers) + events
      ensures |events| == if |old(storedEvents)| < MAX_EVENTS_RETURNED then |old(storedEvents)| else MAX_EVENTS_RETURNED
      ensures |old(storedEvents)| <= |accepted|
      ensures forall i :: 0 <= i < |events| ==> events[i] == accepted[|accepted| - |old(storedEvents)| + i]
    {
      hide Inv, GetEvents, TakeOldest;
      events := [];
      CountsAgree(State());
      while storedEvents != [] && |events| < MAX_EVENTS_RETURNED
        invariant Inv(State()) && |events| <= MAX_EVENTS_RETURNED
        invariant GetEvents(State(), |events|) == GetEvents(old(State()), 0)
        invariant answers == old(answers) + events
        invariant |events| + |storedEvents| == |old(storedEvents)| <= |accepted|
        invariant forall i :: 0 <= i < |events| ==> events[i] == accepted[|accepted| - |old(storedEvents)| + i]
        decreases MAX_EVENTS_RETURNED - |events|
      {
        GetMore(State(), |events|);
        var e := TakeOne();
        events := events + [e];
      }
      GetMore(State(), |events|);
    }

    /** get_event. */
    method Get() returns (events: seq<Event>)
      requires Inv(State())
      modifies this`freeEvents, this`storedEvents, this`numStoredEvents, this`delivered, this`answers
      ensures State() == GetEvent(old(State())) && answers == old(answers) + events
      ensures |events| == if |old(storedEvents)| < MAX_EVENTS_RETURNED then |old(storedEvents)| else MAX_EVENTS_RETURNED
      ensures |old(storedEvents)| <= |accepted|
      ensures forall i :: 0 <= i < |events| ==> events[i] == accepted[|accepted| - |old(storedEvents)| + i]
    {
      CountsAgree(State());
      hide Inv, GetEvents, TakeOldest;
      if numStoredEvents == 0 {
        events := [];
        assert answers == old(answers) + events;
        return;
      }
      events := GetLoop();
    }
  }

  lemma GetMore(s: Log, count: nat)
    ensures GetEvents(s, count)
         == if s.stored == [] || count >= MAX_EVENTS_RETURNED then s else GetEvents(TakeOldest(s), count + 1)
  {
  }

  lemma CountsAgree(s: Log)
    requires Inv(s)
    ensures s.numStored == |s.stored| <= |s.accepted|
  {
  }

}
