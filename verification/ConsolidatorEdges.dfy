/**
 Runs from the initial state in which the consolidator does less than it should: a held request
 nobody will push, and one that is overwritten.
 */
module ConsolidatorEdges {
  import opened Common
  import opened Consolidator
  import opened ConsolidatorInvariant
  import opened ConsolidatorCounter
  import opened ConsolidatorShape
  import opened ConsolidatorRuns

  /** A write of no sectors, which is completed without a submission. */
  function NoSectors(d: nat): Request { Request(0, d, 0x2A, 0, 0, 0, 0, false) }

  /** The n-th write of a sequential stream. */
  function WriteAt(d: nat, n: nat): Request { Request(n, d, 0x2A, 8 * n, 8, 4096, 1, false) }

  /** After `n` writes of a stream all of which have been completed, and `z` of no sectors. */
  ghost predicate AfterWrites(s: System, d: nat, z: nat, n: nat) {
    && d < |s.devs| && s.free != []
    && var v := s.devs[d];
    && v.holding.None? && v.flight == [] && v.ioCount == (0 - z) % U16 && !v.isRead
    && v.sequential == n && v.lastLba == 8 * n
    && (forall r <- v.done :: r.len > 0 || r.sectors == 0)
  }

  ghost predicate Enabled(s: System, d: nat) {
    d < |s.devs| && s.devs[d].enabled && s.devs[d].sgLimit == MAX_SG_ENTRY
  }

  lemma Extend(reqCount: nat, devCount: nat, ss: seq<System>, es: seq<Event>, e: Event)
    requires IsRun(reqCount, devCount, ss, es) && Legal(ss[|es|], e)
    ensures |ss| == |es| + 1 && IsRun(reqCount, devCount, ss + [Step(ss[|es|], e)], es + [e])
  {
    hide Legal, Step;
  }

  lemma ZeroSectorSnoc(es: seq<Event>, e: Event, d: nat)
    ensures ZeroSector(es + [e], d) == ZeroSector(es, d) + ZeroSectorAt(e, d)
  {
    assert (es + [e])[..|es|] == es;
  }

  lemma InitiallyNone(reqCount: nat, devCount: nat, d: nat)
    requires reqCount > 0 && d < devCount
    ensures AfterWrites(Init(reqCount, devCount), d, 0, 0)
  {
  }

  lemma OneMore(s: System, d: nat, z: nat)
    requires AfterWrites(s, d, z, 0)
    ensures Legal(s, Unsubmitted(NoSectors(d))) && AfterWrites(Step(s, Unsubmitted(NoSectors(d))), d, z + 1, 0)
  {
  }

  lemma {:induction false} ZeroSectorFirst(reqCount: nat, devCount: nat, d: nat, z: nat) returns (ss: seq<System>, es: seq<Event>)
    requires reqCount > 0 && d < devCount
    ensures IsRun(reqCount, devCount, ss, es) && ZeroSector(es, d) == z && forall e <- es :: Proper(e)
    ensures AfterWrites(ss[|es|], d, z, 0)
    decreases z
  {
    hide Step, Legal, AfterWrites;
    if z == 0 {
      InitiallyNone(reqCount, devCount, d);
      ss, es := [Init(reqCount, devCount)], [];
    } else {
      ss, es := ZeroSectorFirst(reqCount, devCount, d, z - 1);
      hide IsRun;
      var e := Unsubmitted(NoSectors(d));
      OneMore(ss[|es|], d, z - 1);
      Extend(reqCount, devCount, ss, es, e);
      ZeroSectorSnoc(es, e, d);
      ss, es := ss + [Step(ss[|es|], e)], es + [e];
    }
  }

  lemma SwitchOn(reqCount: nat, devCount: nat, d: nat, z: nat) returns (ss: seq<System>, es: seq<Event>)
    requires reqCount > 0 && d < devCount
    ensures IsRun(reqCount, devCount, ss, es) && ZeroSector(es, d) == z && forall e <- es :: Proper(e)
    ensures AfterWrites(ss[|es|], d, z, 0) && Enabled(ss[|es|], d)
  {
    ss, es := ZeroSectorFirst(reqCount, devCount, d, z);
    hide Step, Legal, AfterWrites, Enabled, IsRun;
    var e := ChangeSetting(true, seq(|ss[|es|].devs|, i => false));
    Extend(reqCount, devCount, ss, es, e);
    ZeroSectorSnoc(es, e, d);
    ss, es := ss + [Step(ss[|es|], e)], es + [e];
  }

  /** The device when the n-th write of the stream has been sent below on its own. */
  function WithWrite(v: Device, d: nat, n: nat): Device {
    v.(lastLba := 8 * (n + 1), sequential := n + 1, flight := v.flight + [Single(WriteAt(d, n))],
       handed := v.handed + [First(Single(WriteAt(d, n)))], ioCount := Inc16(v.ioCount))
  }

  /** It is, before the 65th in a row or while nothing seems to run. */
  lemma WriteGoesBelow(s: System, d: nat, z: nat, n: nat)
    requires AfterWrites(s, d, z, n) && Enabled(s, d) && n < SEQUENTIAL_THRESHOLD
    requires n + 1 < SEQUENTIAL_THRESHOLD || s.devs[d].ioCount == 0
    ensures Legal(s, Submission(WriteAt(d, n)))
    ensures Step(s, Submission(WriteAt(d, n))) == s.(devs := s.devs[d := WithWrite(s.devs[d], d, n)])
  {
  }

  lemma WriteCompletes(s: System, d: nat, z: nat, n: nat)
    requires AfterWrites(s, d, z, n) && Enabled(s, d)
    ensures var t := s.(devs := s.devs[d := WithWrite(s.devs[d], d, n)]);
      && Legal(t, SingleDone(d, 0))
      && AfterWrites(Step(t, SingleDone(d, 0)), d, z, n + 1) && Enabled(Step(t, SingleDone(d, 0)), d)
  {
    var v := WithWrite(s.devs[d], d, n);
    assert v.flight == [Single(WriteAt(d, n))];
    assert DropAt(v.flight, 0) == [];
  }

  lemma NextWrite(reqCount: nat, devCount: nat, d: nat, z: nat, n: nat, ss: seq<System>, es: seq<Event>)
    returns (ts: seq<System>, fs: seq<Event>)
    requires IsRun(reqCount, devCount, ss, es) && ZeroSector(es, d) == z && (forall e <- es :: Proper(e))
    requires AfterWrites(ss[|es|], d, z, n) && Enabled(ss[|es|], d) && n + 1 < SEQUENTIAL_THRESHOLD
    ensures IsRun(reqCount, devCount, ts, fs) && ZeroSector(fs, d) == z && forall e <- fs :: Proper(e)
    ensures AfterWrites(ts[|fs|], d, z, n + 1) && Enabled(ts[|fs|], d)
  {
    hide AfterWrites, Enabled, Legal, Step, IsRun, WithWrite, ZeroSector;
    Shorter(reqCount, devCount, ss, es);
    var s := ss[|es|];
    var e, done := Submission(WriteAt(d, n)), SingleDone(d, 0);
    WriteGoesBelow(s, d, z, n);
    WriteCompletes(s, d, z, n);
    Extend(reqCount, devCount, ss, es, e);
    ZeroSectorSnoc(es, e, d);
    var t := Step(s, e);
    ts, fs := ss + [t], es + [e];
    Extend(reqCount, devCount, ts, fs, done);
    ZeroSectorSnoc(fs, done, d);
    ts, fs := ts + [Step(t, done)], fs + [done];
  }

  lemma {:induction false} Stream(reqCount: nat, devCount: nat, d: nat, z: nat, n: nat) returns (ss: seq<System>, es: seq<Event>)
    requires reqCount > 0 && d < devCount && n < SEQUENTIAL_THRESHOLD
    ensures IsRun(reqCount, devCount, ss, es) && ZeroSector(es, d) == z && forall e <- es :: Proper(e)
    ensures AfterWrites(ss[|es|], d, z, n) && Enabled(ss[|es|], d)
    decreases n
  {
    hide AfterWrites, Enabled, ZeroSector;
    if n == 0 {
      ss, es := SwitchOn(reqCount, devCount, d, z);
    } else {
      ss, es := Stream(reqCount, devCount, d, z, n - 1);
      ss, es := NextWrite(reqCount, devCount, d, z, n - 1, ss, es);
    }
  }

  // ---------------------------------------------------------------- stranded

  /** With nothing below but a counter that is not zero, the 64th write of the stream after the first is held. */
  lemma LastIsStranded(s: System, d: nat, z: nat)
    requires AfterWrites(s, d, z, SEQUENTIAL_THRESHOLD - 1) && Enabled(s, d) && z % U16 != 0
    ensures Legal(s, Submission(WriteAt(d, SEQUENTIAL_THRESHOLD - 1)))
    ensures Stranded(Step(s, Submission(WriteAt(d, SEQUENTIAL_THRESHOLD - 1))).devs[d])
  {
    assert s.devs[d].ioCount != 0;
  }

  /** A run of well-formed submissions, with `z` reads and writes for `d` completed without one, that ends stranded. */
  ghost predicate StrandingRun(reqCount: nat, devCount: nat, d: nat, z: nat, ss: seq<System>, es: seq<Event>) {
    && IsRun(reqCount, devCount, ss, es) && (forall e <- es :: Proper(e)) && ZeroSector(es, d) == z
    && d < |ss[|es|].devs| && Stranded(ss[|es|].devs[d])
  }

  /** Exact condition: such a run exists if and only if `z` is not a multiple of 2^16. */
  lemma StrandsExactly(reqCount: nat, devCount: nat, d: nat, z: nat)
    requires reqCount > 0 && d < devCount
    ensures (exists ss, es :: StrandingRun(reqCount, devCount, d, z, ss, es)) <==> z % U16 != 0
  {
    if z % U16 == 0 {
      forall ss, es ensures !StrandingRun(reqCount, devCount, d, z, ss, es) {
        if StrandingRun(reqCount, devCount, d, z, ss, es) {
          hide Stranded;
          NothingStranded(reqCount, devCount, ss, es, d);
          assert false;
        }
      }
    } else {
      var ss, es := Stream(reqCount, devCount, d, z, SEQUENTIAL_THRESHOLD - 1);
      hide IsRun, Stranded, Step, Legal, AfterWrites;
      var e := Submission(WriteAt(d, SEQUENTIAL_THRESHOLD - 1));
      LastIsStranded(ss[|es|], d, z);
      Extend(reqCount, devCount, ss, es, e);
      ZeroSectorSnoc(es, e, d);
      assert StrandingRun(reqCount, devCount, d, z, ss + [Step(ss[|es|], e)], es + [e]);
    }
  }

  // ---------------------------------------------------------------- overwritten

  /** A write of some sectors that comes with an empty buffer. */
  function EmptyBuffer(d: nat, n: nat): Request { Request(n, d, 0x2A, 8 * n, 8, 0, 0, false) }

  /** The request is nowhere. */
  predicate Gone(v: Device, r: Request) {
    r !in v.done && r !in Held(v) && forall j :: 0 <= j < |v.flight| ==> r !in MembersOf(v.flight[j])
  }

  /** One write of the stream is below, and the next request may be merged. */
  ghost predicate OneBelow(s: System, d: nat) {
    && Enabled(s, d) && s.free != []
    && var v := s.devs[d];
    && !v.isRead && v.holding.None? && v.ioCount == 1 && v.flight == [Single(WriteAt(d, 63))]
    && v.sequential == 64 && v.lastLba == 8 * 64 && (forall r <- v.done :: r.len > 0 || r.sectors == 0)
  }

  /** And a transfer of no length is held. */
  ghost predicate EmptyHeld(s: System, d: nat) {
    && Enabled(s, d)
    && var v := s.devs[d];
    && !v.isRead && v.ioCount == 1 && v.flight == [Single(WriteAt(d, 63))]
    && v.holding.Some? && v.holding.value.op == 0x2A && v.holding.value.len == 0 && v.holding.value.occupy == 0
    && v.holding.value.members == [EmptyBuffer(d, 64)]
    && v.sequential == 65 && v.lastLba == 8 * 65 && (forall r <- v.done :: r.len > 0 || r.sectors == 0)
  }

  lemma StaysBelow(s: System, d: nat)
    requires AfterWrites(s, d, 0, 63) && Enabled(s, d)
    ensures Legal(s, Submission(WriteAt(d, 63))) && OneBelow(Step(s, Submission(WriteAt(d, 63))), d)
  {
    WriteGoesBelow(s, d, 0, 63);
    hide Step;
    var v := WithWrite(s.devs[d], d, 63);
    assert v.flight == [Single(WriteAt(d, 63))];
  }

  lemma EmptyIsHeld(s: System, d: nat)
    requires OneBelow(s, d)
    ensures Legal(s, Submission(EmptyBuffer(d, 64))) && EmptyHeld(Step(s, Submission(EmptyBuffer(d, 64))), d)
  {
  }

  /** The next transfer of no length overwrites it. */
  lemma EmptyIsOverwritten(s: System, d: nat)
    requires EmptyHeld(s, d)
    ensures var e := Submission(EmptyBuffer(d, 65));
      && Legal(s, e) && Forgets(s.devs[d], e.r)
      && Gone(Step(s, e).devs[d], EmptyBuffer(d, 64))
  {
    var t := Step(s, Submission(EmptyBuffer(d, 65))).devs[d];
    assert Held(t) == [EmptyBuffer(d, 65)] && t.flight == s.devs[d].flight && t.done == s.devs[d].done;
  }

  /** A run from the initial state in which a submitted write is forgotten: not completed, not below, not held. */
  lemma EmptyBufferForgotten(reqCount: nat, devCount: nat, d: nat) returns (ss: seq<System>, es: seq<Event>)
    requires reqCount > 0 && d < devCount
    ensures IsRun(reqCount, devCount, ss, es) && ZeroSector(es, d) == 0
    ensures Submission(EmptyBuffer(d, 64)) in es && d < |ss[|es|].devs|
    ensures Gone(ss[|es|].devs[d], EmptyBuffer(d, 64))
  {
    ss, es := Stream(reqCount, devCount, d, 0, SEQUENTIAL_THRESHOLD - 1);
    hide IsRun, Step, Legal, AfterWrites, Enabled, OneBelow, EmptyHeld, Gone;
    StaysBelow(ss[|es|], d);
    ss, es := Extended(reqCount, devCount, ss, es, Submission(WriteAt(d, 63)), d);
    EmptyIsHeld(ss[|es|], d);
    ss, es := Extended(reqCount, devCount, ss, es, Submission(EmptyBuffer(d, 64)), d);
    ghost var before := es;
    assert before[|before| - 1] == Submission(EmptyBuffer(d, 64));
    EmptyIsOverwritten(ss[|es|], d);
    ss, es := Extended(reqCount, devCount, ss, es, Submission(EmptyBuffer(d, 65)), d);
    assert es[|before| - 1] == Submission(EmptyBuffer(d, 64));
    Shorter(reqCount, devCount, ss, es);
  }

  lemma Extended(reqCount: nat, devCount: nat, ss: seq<System>, es: seq<Event>, e: Event, d: nat)
    returns (ts: seq<System>, fs: seq<Event>)
    requires IsRun(reqCount, devCount, ss, es) && Legal(ss[|es|], e) && e.Submission?
    ensures IsRun(reqCount, devCount, ts, fs) && fs == es + [e] && ts[|fs|] == Step(ss[|es|], e)
    ensures ZeroSector(fs, d) == ZeroSector(es, d)
  {
    Extend(reqCount, devCount, ss, es, e);
    ZeroSectorSnoc(es, e, d);
    hide Step, Legal;
    ts, fs := ss + [Step(ss[|es|], e)], es + [e];
  }
}
