/**
 Passes of the expander query that run out of internal requests, and the assertion at the end of
 a pass.  A shortage makes the C code read through a null pointer (core_api_exp.c:325) before
 the check that ends the pass; what is said here of passes falling short is what the code
 around that read does.
 */
module ExpanderShortage {
  import opened Common
  import opened ExpanderQuery

  // ---------------------------------------------------------------- when a pass falls short

  /** The internal requests a pass from `lo` on takes: those of the ready expanders up to a full answer. */
  function Demand(w: Table, q: Query, lo: nat, hi: nat, returned: nat): nat
    decreases hi - lo
  {
    if lo >= hi then 0
    else match Discovers(w, lo)
      case None => Demand(w, q, lo + 1, hi, returned)
      case Some(n) =>
        n + 1 + if q.kind.ByRange? && returned + 1 == q.requested then 0 else Demand(w, q, lo + 1, hi, returned + 1)
  }

  /**
   Exact conditions: a pass falls short if and only if it has less than it takes; what it has left
   by then has all been generated for one ready expander, in vain, and does not suffice for it.
   */
  lemma {:induction false} ShortExactly(w: Table, q: Query, s: State, budget: nat)
    ensures var r := Visit(w, q, s, budget);
      && (r.enough <==> budget >= Demand(w, q, s.start, s.end, s.returned))
      && |r.s.out| >= |s.out| && r.s.releases == s.releases
      && (r.enough ==> r.over == 0)
      && (!r.enough ==>
            && r.over == budget - (|r.s.out| - |s.out|)
            && Discovers(w, r.s.start).Some? && r.over <= Discovers(w, r.s.start).value)
    decreases s.end - s.start
  {
    hide Requests, Discovers;
    if s.start < s.end {
      match Discovers(w, s.start) {
        case None =>
          ShortExactly(w, q, s.(start := s.start + 1), budget);
        case Some(n) =>
          var t := Sent(Filled(s, n), n);
          RequestsShape(s.returned, n);
          if budget >= n + 1 && !(q.kind.ByRange? && t.returned == q.requested) {
            ShortExactly(w, q, t, budget - (n + 1));
          }
      }
    }
  }

  /** The demand is what the sub-requests of all ready expanders come to, unless the answer fills. */
  lemma {:induction false} DemandIsCost(w: Table, q: Query, lo: nat, hi: nat, returned: nat)
    ensures Demand(w, q, lo, hi, returned) <= Cost(w, lo, hi)
    ensures !q.kind.ByRange? || q.requested <= returned || returned + |Ready(w, lo, hi)| < q.requested
            ==> Demand(w, q, lo, hi, returned) == Cost(w, lo, hi)
    decreases hi - lo
  {
    if lo < hi {
      match Discovers(w, lo) {
        case None => DemandIsCost(w, q, lo + 1, hi, returned);
        case Some(n) => DemandIsCost(w, q, lo + 1, hi, returned + 1);
      }
    }
  }

  /** The event is a pass over the ids. */
  predicate LooksAtIds(q: Query, s: State, e: Event) {
    e.Enters? && q.bufferOk && (s.restored ==> q.first < q.limit)
  }

  predicate FallsShort(q: Query, s: State, e: Event) {
    LooksAtIds(q, s, e) && e.budget < Demand(e.w, q, Opened(q, s).start, Opened(q, s).end, Opened(q, s).returned)
  }

  /**
   From `lo` on, with `k` slots filled, `b` internal requests last for the ready expanders before
   `mid` and for a part, but not all, of the one at `mid`; and the answer is not full before it.
   */
  ghost predicate SplitAt(w: Table, q: Query, lo: nat, hi: nat, k: nat, b: nat, mid: nat) {
    && lo <= mid < hi
    && (!q.kind.ByRange? || q.requested <= k || k + |Ready(w, lo, mid)| < q.requested)
    && match Discovers(w, mid)
       case None => false
       case Some(n) => Cost(w, lo, mid) < b <= Cost(w, lo, mid) + n
  }

  /** An id passed over makes no difference. */
  lemma SplitSkips(w: Table, q: Query, lo: nat, hi: nat, k: nat, b: nat, mid: nat)
    requires lo < hi && Discovers(w, lo).None?
    ensures SplitAt(w, q, lo, hi, k, b, mid) <==> SplitAt(w, q, lo + 1, hi, k, b, mid)
  {
    hide Discovers;
  }

  /** A ready expander that can be served takes its part, unless it fills the answer. */
  lemma SplitServes(w: Table, q: Query, lo: nat, hi: nat, k: nat, b: nat, mid: nat)
    requires lo < hi && Discovers(w, lo).Some? && b > Discovers(w, lo).value
    ensures SplitAt(w, q, lo, hi, k, b, mid)
       <==> !(q.kind.ByRange? && k + 1 == q.requested) && SplitAt(w, q, lo + 1, hi, k + 1, b - (Discovers(w, lo).value + 1), mid)
  {
    hide Discovers;
  }

  /** One that cannot be served is where the requests are split, if there are any left. */
  lemma SplitHere(w: Table, q: Query, lo: nat, hi: nat, k: nat, b: nat, mid: nat)
    requires lo < hi && Discovers(w, lo).Some? && b <= Discovers(w, lo).value
    ensures SplitAt(w, q, lo, hi, k, b, mid) <==> mid == lo && b > 0
  {
    hide Discovers;
  }

  /**
   Exact condition on the device table and the internal requests there are before the pass: some
   sub-requests are generated in vain if and only if the requests end within a ready expander; as
   many as are left there.
   */
  lemma {:induction false} VainExactly(w: Table, q: Query, s: State, budget: nat)
    requires s.start <= s.end
    ensures var over := Visit(w, q, s, budget).over;
      && (over > 0 <==> exists mid: nat :: SplitAt(w, q, s.start, s.end, s.returned, budget, mid))
      && (forall mid: nat :: SplitAt(w, q, s.start, s.end, s.returned, budget, mid) ==> over == budget - Cost(w, s.start, mid))
    decreases s.end - s.start
  {
    hide SplitAt, Requests, Discovers;
    var lo, hi, k := s.start, s.end, s.returned;
    if lo >= hi {
      NoSplit(w, q, lo, hi, k, budget);
    } else {
      var next := lo + 1;
      match Discovers(w, lo) {
        case None =>
          VainExactly(w, q, s.(start := next), budget);
          forall mid: nat ensures SplitAt(w, q, lo, hi, k, budget, mid) <==> SplitAt(w, q, next, hi, k, budget, mid) {
            SplitSkips(w, q, lo, hi, k, budget, mid);
          }
          if mid: nat :| SplitAt(w, q, next, hi, k, budget, mid) {
            assert SplitAt(w, q, lo, hi, k, budget, mid);
          }
        case Some(n) =>
          if budget <= n {
            forall mid: nat ensures SplitAt(w, q, lo, hi, k, budget, mid) <==> mid == lo && budget > 0 {
              SplitHere(w, q, lo, hi, k, budget, mid);
            }
            assert SplitAt(w, q, lo, hi, k, budget, lo) <==> budget > 0;
          } else {
            var full := q.kind.ByRange? && k + 1 == q.requested;
            var filled, rest := k + 1, budget - (n + 1);
            if !full {
              VainExactly(w, q, Sent(Filled(s, n), n), rest);
            }
            forall mid: nat ensures SplitAt(w, q, lo, hi, k, budget, mid)
                <==> !full && SplitAt(w, q, next, hi, filled, rest, mid) {
              SplitServes(w, q, lo, hi, k, budget, mid);
            }
            SplitIsAhead(w, q, next, hi, filled, rest);
            if mid: nat :| !full && SplitAt(w, q, next, hi, filled, rest, mid) {
              assert SplitAt(w, q, lo, hi, k, budget, mid);
            }
          }
      }
    }
  }

  lemma NoSplit(w: Table, q: Query, lo: nat, hi: nat, k: nat, b: nat)
    requires lo >= hi
    ensures forall mid: nat :: !SplitAt(w, q, lo, hi, k, b, mid)
  {
  }

  lemma SplitIsAhead(w: Table, q: Query, lo: nat, hi: nat, k: nat, b: nat)
    ensures forall mid: nat :: SplitAt(w, q, lo, hi, k, b, mid) ==> lo <= mid
  {
  }

  /** The internal requests of the pass end within the ready expander at `mid`. */
  ghost predicate Splits(q: Query, s: State, e: Event, mid: nat) {
    LooksAtIds(q, s, e) && SplitAt(e.w, q, Opened(q, s).start, Opened(q, s).end, Opened(q, s).returned, e.budget, mid)
  }

  lemma StepReleases(q: Query, s: State, e: Event)
    requires Inv(q, s) && Legal(s, e)
    ensures Step(q, s, e).releases >= s.releases
    ensures Step(q, s, e).releases > s.releases <==> exists mid: nat :: Splits(q, s, e, mid)
    ensures forall mid: nat :: Splits(q, s, e, mid) ==>
      Step(q, s, e).releases == s.releases + e.budget - Cost(e.w, Opened(q, s).start, mid)
    ensures Step(q, s, e).releases > s.releases ==> FallsShort(q, s, e)
  {
    hide Visit, Demand, SplitAt, Book;
    if LooksAtIds(q, s, e) {
      ShortExactly(e.w, q, Opened(q, s), e.budget);
      var o := Opened(q, s);
      VainExactly(e.w, q, o, e.budget);
      if mid: nat :| SplitAt(e.w, q, o.start, o.end, o.returned, e.budget, mid) {
        assert Splits(q, s, e, mid);
      }
    }
  }

  /**
   Exact condition over every run, on the device table and the internal requests of its passes: the
   query itself has been released if and only if in some pass the requests ended within a ready expander.
   */
  lemma {:induction false} ReleasedExactly(q: Query, ss: seq<State>, es: seq<Event>)
    requires IsRun(q, ss, es)
    ensures ss[|es|].releases > 0 <==> exists i, mid: nat :: 0 <= i < |es| && Splits(q, ss[i], es[i], mid)
    decreases |es|
  {
    hide Step, Legal, Splits, Inv;
    if es != [] {
      var n := |es| - 1;
      ReleasedExactly(q, ss[..|es|], es[..n]);
      RunKeeps(q, ss[..|es|], es[..n]);
      assert forall i :: 0 <= i < n ==> ss[..|es|][i] == ss[i] && es[..n][i] == es[i];
      StepReleases(q, ss[n], es[n]);
    }
  }

  /** No pass of the run falls short. */
  ghost predicate Ample(q: Query, ss: seq<State>, es: seq<Event>)
    requires |ss| == |es| + 1
  {
    forall i :: 0 <= i < |es| ==> !FallsShort(q, ss[i], es[i])
  }

  lemma AmpleStep(q: Query, s: State, e: Event)
    requires Legal(s, e) && !FallsShort(q, s, e) && s.restored
    ensures Step(q, s, e).restored && Step(q, s, e).releases == s.releases && !Refused(q, s, e)
    ensures e.Enters? ==> !Step(q, s, e).phase.Queued?
  {
    hide Visit, Demand;
    if LooksAtIds(q, s, e) {
      ShortExactly(e.w, q, Opened(q, s), e.budget);
    }
  }

  /** Then no pass is refused or resumed, and the query is never released. */
  lemma {:induction false} AmpleRuns(q: Query, ss: seq<State>, es: seq<Event>)
    requires IsRun(q, ss, es) && Ample(q, ss, es)
    ensures ss[|es|].restored && ss[|es|].releases == 0 && Refusals(q, ss, es) == 0
    decreases |es|
  {
    hide Step, Legal, FallsShort, Refused;
    if es != [] {
      var n := |es| - 1;
      var ts, fs := ss[..|es|], es[..n];
      assert forall i :: 0 <= i < n ==> ts[i] == ss[i] && fs[i] == es[i];
      AmpleRuns(q, ts, fs);
      RefusalsPrefix(q, ss, ts, fs);
      AmpleStep(q, ss[n], es[n]);
    }
  }

  /** Over steady devices, a query that does not fill early is then done in one pass. */
  lemma {:induction false} AmpleIsOnePass(w: Table, q: Query, ss: seq<State>, es: seq<Event>)
    requires IsRun(q, ss, es) && Steady(w, es) && Ample(q, ss, es) && !Early(w, q)
    ensures es != [] ==> !ss[|es|].phase.Queued?
    ensures forall i :: 0 < i < |es| ==> es[i].Answers?
    decreases |es|
  {
    hide FallsShort, Inv, Tracks, Early;
    if es != [] {
      var n := |es| - 1;
      var ts, fs := ss[..|es|], es[..n];
      assert forall i :: 0 <= i < n ==> ts[i] == ss[i] && fs[i] == es[i];
      AmpleIsOnePass(w, q, ts, fs);
      AmpleRuns(q, ts, fs);
      RunKeeps(q, ts, fs);
      RunTracks(w, q, ts, fs);
      AmpleOnward(w, q, ss[n], es[n]);
    }
  }

  lemma AmpleOnward(w: Table, q: Query, s: State, e: Event)
    requires Inv(q, s) && Tracks(w, q, s) && Legal(s, e) && !FallsShort(q, s, e) && s.restored && !Early(w, q)
    ensures !Step(q, s, e).phase.Queued?
  {
    hide Inv, Ready, Ids, Visit, Demand, Stopped;
    AmpleStep(q, s, e);
    if e.Answers? {
      StoppedEarly(w, q, s);
    }
  }

  // ---------------------------------------------------------------- the assertion at the end of a pass

  /** Over steady devices, a pass that finishes the query at once has nothing to report. */
  lemma NothingReturnedAtOnce(w: Table, q: Query, ss: seq<State>, es: seq<Event>, budget: nat)
    requires IsRun(q, ss, es) && Steady(w, es) && ss[|es|].phase.Queued?
    requires Enter(w, q, ss[|es|], budget).phase == Finished(Done)
    ensures Enter(w, q, ss[|es|], budget).returned == 0
  {
    RunKeeps(q, ss, es);
    RunTracks(w, q, ss, es);
    hide IsRun;
    var s := ss[|es|];
    hide Visit, Ids, Ready, Inv, Stopped, Discovers, Cost;
    if q.bufferOk && (s.restored ==> q.first < q.limit) {
      var o := Opened(q, s);
      OpenedTracks(w, q, s);
      hide Book;
      VisitSends(w, q, o, budget);
      VisitKeeps(w, q, o, budget);
    }
  }

  /** A pass with no ready expander ahead changes nothing but its place; with one it sends something or falls short. */
  lemma {:induction false} VisitQuiet(w: Table, q: Query, s: State, budget: nat)
    ensures var r := Visit(w, q, s, budget);
      && (Ready(w, s.start, s.end) == [] ==> r.enough && r.s.out == s.out && r.s.returned == s.returned)
      && (Ready(w, s.start, s.end) != [] && r.enough ==> |r.s.out| > |s.out|)
    decreases s.end - s.start
  {
    if s.start < s.end {
      match Discovers(w, s.start) {
        case None => VisitQuiet(w, q, s.(start := s.start + 1), budget);
        case Some(n) =>
          var t := Sent(Filled(s, n), n);
          ShortExactly(w, q, t, if budget >= n + 1 then budget - (n + 1) else 0);
      }
    }
  }

  /**
   Exact condition in every run: the assertion that a pass which finishes the query has returned
   nothing fails if and only if the pass is a resumed one, something was returned before it, and
   no expander ahead is ready any more.
   */
  lemma AssertionFailsExactly(q: Query, ss: seq<State>, es: seq<Event>, w: Table, budget: nat)
    requires IsRun(q, ss, es) && ss[|es|].phase.Queued?
    ensures var s := ss[|es|]; var t := Enter(w, q, s, budget);
      t.phase == Finished(Done) && t.returned > 0
      <==> !s.restored && s.returned > 0 && Ready(w, s.start, s.end) == []
  {
    RunKeeps(q, ss, es);
    hide IsRun;
    var s := ss[|es|];
    BookCounts(s);
    hide Visit, Ready, Book;
    if q.bufferOk && (s.restored ==> q.first < q.limit) {
      var o := Opened(q, s);
      OpenedKeepsBook(q, s);
      BookCounts(o);
      VisitQuiet(w, q, o, budget);
      VisitSends(w, q, o, budget);
    }
  }

  // A run in which it does not hold: with one internal request the first of two expanders is
  // asked, and the second has gone away when the query is resumed.
  const TWO_EXPANDERS: Table := [OnPort(true), OnPort(true)]
  const ALL_OF_TWO := Query(true, ByRange, 0, 0, 2)

  lemma FirstIsAsked()
    ensures var s := Enter(TWO_EXPANDERS, ALL_OF_TWO, Init(), 1);
      && s.phase.Waiting? && !s.restored && s.start == 1 && s.end == 2 && s.returned == 1 && s.remaining == 1
      && s.out == [ReportGeneral(0)] && 0 in s.entries
  {
    hide Visit, Discovers, DiscoverList;
    var o := Opened(ALL_OF_TWO, Init());
    VisitHere(TWO_EXPANDERS, ALL_OF_TWO, o, 1);
    AlwaysReady(0);
    AlwaysReady(1);
    RequestsShape(0, 0);
    var t := Sent(Filled(o, 0), 0);
    assert t.out == [ReportGeneral(0)];
    VisitHere(TWO_EXPANDERS, ALL_OF_TWO, t, 0);
  }

  lemma AlwaysReady(id: nat)
    requires id < 2
    ensures Discovers(TWO_EXPANDERS, id) == Some(0)
  {
  }

  lemma ReturnedAtOnce() returns (ss: seq<State>, es: seq<Event>)
    ensures IsRun(ALL_OF_TWO, ss, es) && es == [Enters(TWO_EXPANDERS, 1), Answers(0, None), Enters([OnPort(true)], 1)]
    ensures ss[3].phase == Finished(Done) && ss[3].returned == 1 && !ss[2].restored
  {
    FirstIsAsked();
    hide Enter;
    var s := Enter(TWO_EXPANDERS, ALL_OF_TWO, Init(), 1);
    var t := Answer(s, 0, None);
    assert t.phase.Queued? && !t.restored && t.start == 1 && t.end == 2 && t.returned == 1 && t.remaining == 0;
    NoneLeft(t);
    ss := [Init(), s, t, Enter([OnPort(true)], ALL_OF_TWO, t, 1)];
    es := [Enters(TWO_EXPANDERS, 1), Answers(0, None), Enters([OnPort(true)], 1)];
  }

  lemma NoneLeft(t: State)
    requires !t.restored && t.start == 1 && t.end == 2 && t.returned == 1 && t.remaining == 0
    ensures var u := Enter([OnPort(true)], ALL_OF_TWO, t, 1); u.phase == Finished(Done) && u.returned == 1
  {
    VisitHere([OnPort(true)], ALL_OF_TWO, t, 1);
    VisitHere([OnPort(true)], ALL_OF_TWO, t.(start := 2), 1);
    hide Visit;
  }
}
