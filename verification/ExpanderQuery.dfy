/**
 The expander information query of the core (core/api/core_api_exp.c).  A query asks every
 ready expander in a range of device ids, by SMP sub-requests that complete one by one; when
 the internal requests run out it is queued again and resumes where it stopped.
 */
module ExpanderQuery {
  import opened Common

  /** What a device id stands for: an expander hangs on a port or on another expander. */
  datatype Device =
    | NoExpander
    | OnPort(ready: bool)
    | OnExpander(ready: bool, parentReady: bool, parentPhys: nat)

  type Table = seq<Device>

  /** How many phys the expander's parent must be asked about; None if the id is passed over. */
  function Discovers(w: Table, id: nat): Option<nat> {
    if id >= |w| then None
    else match w[id]
      case NoExpander => None
      case OnPort(ready) => if ready then Some(0) else None
      case OnExpander(ready, parentReady, n) => if ready && parentReady then Some(n) else None
  }

  datatype Kind = ByRange | ById | Neither

  /** `limit` is MAX_ID, which depends on the build. */
  datatype Query = Query(bufferOk: bool, kind: Kind, first: nat, requested: nat, limit: nat)

  function StartOf(q: Query): nat { if q.kind.Neither? then 0 else q.first }

  function EndOf(q: Query): nat {
    match q.kind
    case ByRange => q.limit
    case ById => q.first + 1
    case Neither => 0
  }

  datatype General = General(configuring: nat, changes: nat)

  /** A slot of the answer; None marks what an SMP response has yet to fill in. */
  datatype Entry = Entry(id: nat, phys: seq<Option<nat>>, general: Option<General>)

  datatype Smp = Discover(slot: nat, phy: nat) | ReportGeneral(slot: nat)

  datatype Outcome = Done | BadBuffer | BadId

  datatype Phase = Queued | Waiting | Finished(outcome: Outcome)

  /**
   `restored` is that Cmd_Initiator is not NULL; `out` are the sub-requests under way; `releases`
   counts the times the query itself was given back to the pool of internal requests.
   */
  datatype State = State(
    phase: Phase, restored: bool,
    start: nat, end: nat, remaining: nat,
    returned: nat, next: Option<nat>,
    entries: map<nat, Entry>, out: seq<Smp>, releases: nat)

  function Init(): State { State(Queued, true, 0, 0, 0, 0, None, map[], [], 0) }

  // ---------------------------------------------------------------- one pass

  /** Newest first, as List_Add leaves them. */
  function DiscoverList(slot: nat, n: nat): (r: seq<Smp>)
    ensures |r| == n && forall i :: 0 <= i < n ==> r[i] == Discover(slot, n - 1 - i)
  {
    if n == 0 then [] else [Discover(slot, n - 1)] + DiscoverList(slot, n - 1)
  }

  function Requests(slot: nat, n: nat): seq<Smp> { [ReportGeneral(slot)] + DiscoverList(slot, n) }

  function Filled(s: State, n: nat): State {
    s.(entries := s.entries[s.returned := Entry(s.start, seq(n, _ => None), None)])
  }

  function Sent(s: State, n: nat): State {
    s.(out := s.out + Requests(s.returned, n), remaining := s.remaining + n + 1,
       start := s.start + 1, returned := s.returned + 1)
  }

  /** `over` sub-requests were generated for the expander a pass has fallen short at. */
  datatype Pass = Pass(s: State, enough: bool, over: nat)

  /** The loop over the ids; `budget` internal requests can be had. */
  function Visit(w: Table, q: Query, s: State, budget: nat): Pass
    decreases s.end - s.start
  {
    if s.start >= s.end then Pass(s, true, 0)
    else match Discovers(w, s.start)
      case None => Visit(w, q, s.(start := s.start + 1), budget)
      case Some(n) =>
        if budget < n + 1 then Pass(Filled(s, n), false, budget)
        else
          var t := Sent(Filled(s, n), n);
          if q.kind.ByRange? && t.returned == q.requested then Pass(t.(next := Some(t.start)), true, 0)
          else Visit(w, q, t, budget - (n + 1))
  }

  function Opened(q: Query, s: State): State {
    if s.restored then
      s.(restored := false, start := StartOf(q), end := EndOf(q), remaining := 0, returned := 0, next := None)
    else s
  }

  /** core_pd_request_get_expander_info; what was generated in vain is popped, and the query released for each. */
  function Enter(w: Table, q: Query, s: State, budget: nat): State {
    if !q.bufferOk then s.(phase := Finished(BadBuffer))
    else if s.restored && q.first >= q.limit then s.(phase := Finished(BadId))
    else
      var r := Visit(w, q, Opened(q, s), budget);
      if r.enough then r.s.(restored := true, phase := if r.s.remaining == 0 then Finished(Done) else Waiting)
      else r.s.(phase := if r.s.remaining != 0 then Waiting else Queued, releases := r.s.releases + r.over)
  }

  // ---------------------------------------------------------------- completion of a sub-request

  datatype Reply = Reply(phyId: nat, general: General)

  function Written(e: Entry, m: Smp, reply: Option<Reply>): Entry
    requires m.Discover? ==> m.phy < |e.phys|
  {
    match m
    case Discover(_, j) => e.(phys := e.phys[j := Some(if reply.Some? then reply.value.phyId else 0)])
    case ReportGeneral(_) => e.(general := Some(if reply.Some? then reply.value.general else General(0, 0)))
  }

  predicate Expected(s: State, m: Smp) {
    m.slot in s.entries && (m.Discover? ==> m.phy < |s.entries[m.slot].phys|)
  }

  /** core_get_exp_information_callback for sub-request `k` of those under way; None is a failed one. */
  function Answer(s: State, k: nat, reply: Option<Reply>): State
    requires k < |s.out| && Expected(s, s.out[k]) && s.remaining > 0
  {
    var m := s.out[k];
    var t := s.(out := DropAt(s.out, k), remaining := s.remaining - 1,
                entries := s.entries[m.slot := Written(s.entries[m.slot], m, reply)]);
    if t.remaining > 0 then t
    else if t.start == t.end then t.(phase := Finished(Done))
    else t.(phase := Queued)
  }

  datatype Event = Enters(w: Table, budget: nat) | Answers(k: nat, reply: Option<Reply>)

  predicate Legal(s: State, e: Event) {
    match e
    case Enters(_, _) => s.phase.Queued?
    case Answers(k, _) => s.phase.Waiting? && k < |s.out| && Expected(s, s.out[k]) && s.remaining > 0
  }

  function Step(q: Query, s: State, e: Event): State
    requires Legal(s, e)
  {
    match e
    case Enters(w, budget) => Enter(w, q, s, budget)
    case Answers(k, reply) => Answer(s, k, reply)
  }

  ghost predicate IsRun(q: Query, ss: seq<State>, es: seq<Event>) {
    && |ss| == |es| + 1
    && ss[0] == Init()
    && forall i :: 0 <= i < |es| ==> Legal(ss[i], es[i]) && ss[i + 1] == Step(q, ss[i], es[i])
  }

  // ---------------------------------------------------------------- the invariant

  /** An item of slot `k` is missing exactly while the sub-request for it is under way. */
  ghost predicate Matches(e: Entry, k: nat, out: seq<Smp>) {
    && (e.general.None? <==> ReportGeneral(k) in out)
    && (forall j :: 0 <= j < |e.phys| ==> (e.phys[j].None? <==> Discover(k, j) in out))
  }

  ghost predicate AllMatch(s: State) {
    forall k :: 0 <= k < s.returned ==> k in s.entries && Matches(s.entries[k], k, s.out)
  }

  ghost predicate AllExpected(s: State) {
    && (forall i :: 0 <= i < |s.out| ==> s.out[i].slot < s.returned && Expected(s, s.out[i]))
    && Distinct(s.out)
  }

  /** The slots returned name different devices, in order. */
  ghost predicate Ascending(s: State) {
    && (forall k :: 0 <= k < s.returned ==> k in s.entries && s.entries[k].id < s.start)
    && (forall i, k :: 0 <= i < k < s.returned && i in s.entries && k in s.entries ==> s.entries[i].id < s.entries[k].id)
  }

  ghost predicate Book(s: State) {
    s.remaining == |s.out| && AllMatch(s) && AllExpected(s) && Ascending(s)
  }

  ghost predicate Inv(q: Query, s: State) {
    && Book(s)
    && (s.phase.Waiting? <==> s.out != [])
    && (s.phase.Finished? ==> s.restored)
    && (s.phase == Finished(Done) ==> s.start == s.end)
    && (!s.restored ==> q.bufferOk && s.start < s.end)
  }

  lemma SentKeepsMatch(s: State, n: nat)
    requires AllMatch(s) && AllExpected(s)
    ensures AllMatch(Sent(Filled(s, n), n))
  {
    var t := Sent(Filled(s, n), n);
    var k0 := s.returned;
    var reqs := Requests(k0, n);
    assert reqs[0] == ReportGeneral(k0);
    hide Distinct, Requests;
    forall k | 0 <= k < t.returned ensures k in t.entries && Matches(t.entries[k], k, t.out) {
      if k < k0 {
        assert t.entries[k] == s.entries[k] && Matches(s.entries[k], k, s.out);
      } else {
        NewSlot(k0, n);
        assert ReportGeneral(k0) in reqs;
      }
    }
  }

  lemma NewSlot(slot: nat, n: nat)
    ensures ReportGeneral(slot) in Requests(slot, n)
    ensures forall j :: 0 <= j < n ==> Discover(slot, j) in Requests(slot, n)
  {
    var r := Requests(slot, n);
    assert r[0] == ReportGeneral(slot);
    forall j | 0 <= j < n ensures Discover(slot, j) in r {
      assert r[n - j] == DiscoverList(slot, n)[n - 1 - j] == Discover(slot, j);
    }
  }

  lemma RequestsShape(slot: nat, n: nat)
    ensures var r := Requests(slot, n);
      |r| == n + 1 && Distinct(r)
      && forall i :: 0 <= i < |r| ==> r[i].slot == slot && (r[i].Discover? ==> r[i].phy < n)
  {
  }

  lemma SentKeepsExpected(s: State, n: nat)
    requires AllExpected(s)
    ensures AllExpected(Sent(Filled(s, n), n))
  {
    var t := Sent(Filled(s, n), n);
    RequestsShape(s.returned, n);
    hide Requests;
    var r := Requests(s.returned, n);
    forall i | 0 <= i < |t.out| ensures t.out[i].slot < t.returned && Expected(t, t.out[i]) {
      if i < |s.out| {
        assert t.out[i] == s.out[i];
      } else {
        assert t.out[i] == r[i - |s.out|];
      }
    }
    assert Distinct(t.out);
  }

  lemma SentKeepsBook(s: State, n: nat)
    requires Book(s)
    ensures Book(Sent(Filled(s, n), n))
  {
    SentKeepsMatch(s, n);
    SentKeepsExpected(s, n);
    RequestsShape(s.returned, n);
    hide AllMatch, AllExpected, Requests, Distinct;
  }

  lemma FilledKeepsBook(s: State, n: nat)
    requires Book(s)
    ensures Book(Filled(s, n))
  {
    hide Matches, Distinct;
  }

  /** A pass keeps the books, goes forward, and only adds sub-requests. */
  lemma {:induction false} VisitKeeps(w: Table, q: Query, s: State, budget: nat)
    requires Book(s) && s.start <= s.end
    ensures var r := Visit(w, q, s, budget);
      && Book(r.s)
      && r.s.end == s.end && s.start <= r.s.start <= s.end
      && r.s.restored == s.restored && r.s.phase == s.phase
      && |s.out| <= |r.s.out|
      && (!r.enough ==> r.s.start < s.end)
      && (r.enough && r.s.start < s.end ==> r.s.out != [])
    decreases s.end - s.start
  {
    hide Book;
    if s.start < s.end {
      match Discovers(w, s.start) {
        case None =>
          NextKeepsBook(s);
          VisitKeeps(w, q, s.(start := s.start + 1), budget);
        case Some(n) =>
          FilledKeepsBook(s, n);
          SentKeepsBook(s, n);
          var t := Sent(Filled(s, n), n);
          NoteKeepsBook(t);
          if budget >= n + 1 {
            VisitKeeps(w, q, t, budget - (n + 1));
          }
      }
    }
  }

  lemma NextKeepsBook(s: State)
    requires Book(s)
    ensures Book(s.(start := s.start + 1))
  {
    hide Matches, Distinct;
  }

  lemma NoteKeepsBook(s: State)
    requires Book(s)
    ensures Book(s.(next := Some(s.start)))
  {
    hide Matches, Distinct;
  }

  lemma OpenedKeepsBook(q: Query, s: State)
    requires Book(s) && s.out == []
    ensures Book(Opened(q, s))
  {
  }

  lemma MarkKeepsBook(s: State, restored: bool, phase: Phase, releases: nat)
    requires Book(s)
    ensures Book(s.(restored := restored, phase := phase, releases := releases))
  {
    hide Matches, Distinct;
  }

  lemma EnterKeeps(w: Table, q: Query, s: State, budget: nat)
    requires Inv(q, s) && s.phase.Queued?
    ensures Inv(q, Enter(w, q, s, budget))
  {
    var t := Enter(w, q, s, budget);
    hide Visit, AllMatch, AllExpected, Ascending;
    if !q.bufferOk || (s.restored && q.first >= q.limit) {
      MarkKeepsBook(s, s.restored, t.phase, s.releases);
    } else {
      var o := Opened(q, s);
      OpenedKeepsBook(q, s);
      VisitKeeps(w, q, o, budget);
      MarkKeepsBook(Visit(w, q, o, budget).s, t.restored, t.phase, t.releases);
    }
  }

  lemma DropMatches(e: Entry, slot: nat, out: seq<Smp>, k: nat)
    requires Distinct(out) && k < |out| && out[k].slot != slot && Matches(e, slot, out)
    ensures Matches(e, slot, DropAt(out, k))
  {
    assert forall j :: Discover(slot, j) in DropAt(out, k) <==> Discover(slot, j) in out;
  }

  lemma AnswerKeepsMatch(s: State, k: nat, reply: Option<Reply>)
    requires AllMatch(s) && AllExpected(s) && k < |s.out| && s.remaining > 0
    ensures AllMatch(Answer(s, k, reply))
  {
    var t := Answer(s, k, reply);
    var m := s.out[k];
    forall i | 0 <= i < t.returned ensures i in t.entries && Matches(t.entries[i], i, t.out) {
      hide Matches, Distinct;
      assert i in s.entries && Matches(s.entries[i], i, s.out);
      if i == m.slot {
      } else {
        DropMatches(s.entries[i], i, s.out, k);
      }
    }
  }

  lemma AnswerKeepsExpected(s: State, k: nat, reply: Option<Reply>)
    requires AllExpected(s) && k < |s.out| && s.remaining > 0
    ensures AllExpected(Answer(s, k, reply))
  {
    var t := Answer(s, k, reply);
    hide Distinct;
    assert forall i :: 0 <= i < |t.out| ==> t.out[i] == s.out[if i < k then i else i + 1];
    forall i | 0 <= i < |t.out| ensures t.out[i].slot < t.returned && Expected(t, t.out[i]) {
      var j := if i < k then i else i + 1;
      assert s.out[j].slot < s.returned && Expected(s, s.out[j]);
    }
  }

  lemma AnswerKeepsBook(s: State, k: nat, reply: Option<Reply>)
    requires Book(s) && k < |s.out|
    ensures Expected(s, s.out[k]) && Book(Answer(s, k, reply))
  {
    AnswerKeepsMatch(s, k, reply);
    AnswerKeepsExpected(s, k, reply);
    hide AllMatch, Distinct;
  }

  lemma AnswerKeeps(q: Query, s: State, k: nat, reply: Option<Reply>)
    requires Inv(q, s) && s.phase.Waiting? && k < |s.out|
    ensures Expected(s, s.out[k]) && s.remaining == |s.out| && Inv(q, Answer(s, k, reply))
  {
    AnswerKeepsBook(s, k, reply);
    BookCounts(s);
    BookCounts(Answer(s, k, reply));
    hide Book;
  }

  lemma BookCounts(s: State)
    requires Book(s)
    ensures s.remaining == |s.out|
    ensures forall i :: 0 <= i < |s.out| ==> Expected(s, s.out[i])
  {
  }

  // ---------------------------------------------------------------- all runs

  lemma {:induction false} RunKeeps(q: Query, ss: seq<State>, es: seq<Event>)
    requires IsRun(q, ss, es)
    ensures Inv(q, ss[|es|])
    decreases |es|
  {
    hide Inv, Enter, Answer;
    if es == [] {
      InitInv(q);
    } else {
      var n := |es| - 1;
      RunKeeps(q, ss[..|es|], es[..n]);
      assert Legal(ss[n], es[n]);
      match es[n]
      case Enters(w, budget) => EnterKeeps(w, q, ss[n], budget);
      case Answers(k, reply) => AnswerKeeps(q, ss[n], k, reply);
    }
  }

  lemma InitInv(q: Query)
    ensures Inv(q, Init())
  {
  }

  /** Every slot returned has all its answers. */
  ghost predicate Complete(s: State) {
    forall k :: 0 <= k < s.returned ==>
      k in s.entries && s.entries[k].general.Some? && (forall j :: 0 <= j < |s.entries[k].phys| ==> s.entries[k].phys[j].Some?)
  }

  /**
   In every run, whatever the devices do meanwhile: `remaining` counts the sub-requests under
   way; the query waits exactly while there are any, so it is finished or queued again only at
   zero; and when it finishes well, the whole range was gone through, its Cmd_Initiator is its
   own again, each slot returned has all its answers and names another device.
   */
  lemma FanIn(q: Query, ss: seq<State>, es: seq<Event>)
    requires IsRun(q, ss, es)
    ensures var s := ss[|es|];
      && s.remaining == |s.out| && Distinct(s.out)
      && (s.phase.Waiting? <==> s.remaining > 0)
      && (s.phase.Waiting? ==> forall k, reply :: 0 <= k < |s.out| ==> Legal(s, Answers(k, reply)))
      && (s.phase.Finished? ==> s.restored)
      && (s.phase == Finished(Done) ==> s.start == s.end && Complete(s) && Ascending(s))
  {
    RunKeeps(q, ss, es);
    var s := ss[|es|];
    BookCounts(s);
    hide AllMatch;
  }

  // ---------------------------------------------------------------- runs over devices that stay as they are

  /** The ids in lo .. hi-1 that a query reports. */
  function Ready(w: Table, lo: nat, hi: nat): (r: seq<nat>)
    ensures forall i :: 0 <= i < |r| ==> lo <= r[i] < hi && Discovers(w, r[i]).Some?
    decreases hi - lo
  {
    if lo >= hi then [] else (if Discovers(w, lo).Some? then [lo] else []) + Ready(w, lo + 1, hi)
  }

  lemma {:induction false} ReadyExactly(w: Table, lo: nat, hi: nat, id: nat)
    ensures id in Ready(w, lo, hi) <==> lo <= id < hi && Discovers(w, id).Some?
    ensures forall i, k :: 0 <= i < k < |Ready(w, lo, hi)| ==> Ready(w, lo, hi)[i] < Ready(w, lo, hi)[k]
    decreases hi - lo
  {
    if lo < hi {
      ReadyExactly(w, lo + 1, hi, id);
    }
  }

  /** The sub-requests they take. */
  function Cost(w: Table, lo: nat, hi: nat): nat
    decreases hi - lo
  {
    if lo >= hi then 0
    else (match Discovers(w, lo) case None => 0 case Some(n) => n + 1) + Cost(w, lo + 1, hi)
  }

  function Ids(entries: map<nat, Entry>, n: nat): (r: seq<nat>)
    ensures |r| == n && forall k :: 0 <= k < n && k in entries ==> r[k] == entries[k].id
  {
    seq(n, k => if k in entries then entries[k].id else 0)
  }

  predicate Limited(q: Query) { q.kind.ByRange? && q.requested > 0 }

  /** The answer was filled by the expander just before `start`. */
  ghost predicate JustFilled(q: Query, s: State) {
    && Limited(q) && s.returned == q.requested && s.start > 0
    && s.returned - 1 in s.entries && s.entries[s.returned - 1].id == s.start - 1
  }

  /** A pass ends because the answer is full or because there are no more ids. */
  ghost predicate Stopped(q: Query, s: State) {
    JustFilled(q, s) || (s.start >= s.end && (Limited(q) ==> s.returned < q.requested))
  }

  lemma SentIds(s: State, n: nat)
    ensures var t := Sent(Filled(s, n), n); Ids(t.entries, t.returned) == Ids(s.entries, s.returned) + [s.start]
  {
    var t := Sent(Filled(s, n), n);
    assert forall k :: 0 <= k < s.returned ==> (k in t.entries <==> k in s.entries);
    assert Ids(t.entries, t.returned)[..s.returned] == Ids(s.entries, s.returned);
  }

  lemma ReadyHead(w: Table, lo: nat, hi: nat, before: seq<nat>)
    requires lo < hi
    ensures Discovers(w, lo).None? ==> before + Ready(w, lo + 1, hi) == before + Ready(w, lo, hi)
    ensures Discovers(w, lo).Some? ==> before + [lo] + Ready(w, lo + 1, hi) == before + Ready(w, lo, hi)
  {
  }

  /** What a pass over these devices has reported and what it has left make up the whole. */
  lemma {:induction false} VisitReports(w: Table, q: Query, s: State, budget: nat)
    requires s.start <= s.end
    ensures var r := Visit(w, q, s, budget);
      Ids(r.s.entries, r.s.returned) + Ready(w, r.s.start, s.end) == Ids(s.entries, s.returned) + Ready(w, s.start, s.end)
    decreases s.end - s.start
  {
    hide Ids, Requests, Ready, Discovers;
    if s.start < s.end {
      ReadyHead(w, s.start, s.end, Ids(s.entries, s.returned));
      match Discovers(w, s.start) {
        case None =>
          VisitReports(w, q, s.(start := s.start + 1), budget);
        case Some(n) =>
          FilledIds(s, n);
          SentIds(s, n);
          var t := Sent(Filled(s, n), n);
          if budget >= n + 1 && !(q.kind.ByRange? && t.returned == q.requested) {
            VisitReports(w, q, t, budget - (n + 1));
          }
      }
    }
  }

  /** A pass that breaks off has just filled the answer, one that runs out of requests has not. */
  lemma {:induction false} VisitStops(w: Table, q: Query, s: State, budget: nat)
    requires s.start <= s.end && (Limited(q) ==> s.returned < q.requested)
    ensures var r := Visit(w, q, s, budget);
      && r.s.start <= s.end
      && (r.enough ==> Stopped(q, r.s))
      && (!r.enough && Limited(q) ==> r.s.returned < q.requested)
      && (!r.enough ==> r.s.start < s.end && Discovers(w, r.s.start).Some?)
    decreases s.end - s.start
  {
    hide Requests, Discovers;
    if s.start < s.end {
      match Discovers(w, s.start) {
        case None =>
          VisitStops(w, q, s.(start := s.start + 1), budget);
        case Some(n) =>
          var t := Sent(Filled(s, n), n);
          if budget >= n + 1 && !(q.kind.ByRange? && t.returned == q.requested) {
            VisitStops(w, q, t, budget - (n + 1));
          }
      }
    }
  }

  lemma FilledIds(s: State, n: nat)
    ensures Ids(Filled(s, n).entries, s.returned) == Ids(s.entries, s.returned)
  {
  }

  /** What a pass sends is what it no longer has to send; it sends something if its first id is ready. */
  lemma {:induction false} VisitSends(w: Table, q: Query, s: State, budget: nat)
    requires s.start <= s.end && s.remaining == |s.out|
    ensures var r := Visit(w, q, s, budget);
      && |r.s.out| + Cost(w, r.s.start, s.end) == |s.out| + Cost(w, s.start, s.end)
      && r.s.remaining == |r.s.out| >= |s.out|
      && (r.s.returned > s.returned ==> r.s.out != [])
      && (s.start < s.end && Discovers(w, s.start).Some? && r.enough ==> r.s.out != [])
    decreases s.end - s.start
  {
    hide Requests, Discovers;
    if s.start < s.end {
      match Discovers(w, s.start) {
        case None =>
          VisitSends(w, q, s.(start := s.start + 1), budget);
        case Some(n) =>
          RequestsShape(s.returned, n);
          var t := Sent(Filled(s, n), n);
          if budget >= n + 1 && !(q.kind.ByRange? && t.returned == q.requested) {
            VisitSends(w, q, t, budget - (n + 1));
          }
      }
    }
  }

  /** The query has gone through part of its range. */
  predicate Active(s: State) { !s.restored || s.phase.Waiting? || s.phase == Finished(Done) }

  ghost predicate Tracks(w: Table, q: Query, s: State) {
    && (s.phase == Finished(BadBuffer) ==> !q.bufferOk)
    && (s.phase == Finished(BadId) ==> q.first >= q.limit)
    && (Active(s) ==>
      && q.bufferOk && q.first < q.limit
      && s.start <= s.end == EndOf(q)
      && Ids(s.entries, s.returned) + Ready(w, s.start, s.end) == Ready(w, StartOf(q), EndOf(q))
      && (s.restored ==> Stopped(q, s))
      && (!s.restored ==> (Limited(q) ==> s.returned < q.requested) && s.start < s.end && Discovers(w, s.start).Some?))
  }

  lemma OpenedTracks(w: Table, q: Query, s: State)
    requires Inv(q, s) && Tracks(w, q, s) && s.phase.Queued? && q.bufferOk && (s.restored ==> q.first < q.limit)
    ensures var o := Opened(q, s);
      && o.start <= o.end == EndOf(q) && q.first < q.limit
      && Ids(o.entries, o.returned) + Ready(w, o.start, o.end) == Ready(w, StartOf(q), EndOf(q))
      && (Limited(q) ==> o.returned < q.requested)
      && o.remaining == |o.out| == 0 && Book(o)
  {
    OpenedKeepsBook(q, s);
    hide Ready, Book, Stopped;
    BookCounts(s);
    BookCounts(Opened(q, s));
  }

  lemma EnterTracks(w: Table, q: Query, s: State, budget: nat)
    requires Inv(q, s) && Tracks(w, q, s) && s.phase.Queued?
    ensures Tracks(w, q, Enter(w, q, s, budget))
  {
    hide Visit, Ids, Ready, Inv, Stopped, Discovers;
    if q.bufferOk && (s.restored ==> q.first < q.limit) {
      var o := Opened(q, s);
      OpenedTracks(w, q, s);
      VisitReports(w, q, o, budget);
      VisitStops(w, q, o, budget);
      VisitKeeps(w, q, o, budget);
      SameStop(q, Visit(w, q, o, budget).s, Enter(w, q, s, budget));
    }
  }

  lemma SameStop(q: Query, s: State, t: State)
    requires s.returned == t.returned && s.entries == t.entries && s.start == t.start && s.end == t.end
    ensures Stopped(q, s) ==> Stopped(q, t)
  {
  }

  lemma AnswerSameIds(q: Query, s: State, k: nat, reply: Option<Reply>)
    requires Legal(s, Answers(k, reply))
    ensures var t := Answer(s, k, reply);
      && Ids(t.entries, t.returned) == Ids(s.entries, s.returned)
      && (Stopped(q, s) ==> Stopped(q, t))
  {
    hide Ids, JustFilled;
    var t := Answer(s, k, reply);
    assert forall i :: (i in s.entries <==> i in t.entries) && (i in s.entries ==> t.entries[i].id == s.entries[i].id);
    SameIds(s.entries, t.entries, s.returned);
    SameFilled(q, s, t);
  }

  lemma SameIds(a: map<nat, Entry>, b: map<nat, Entry>, n: nat)
    requires forall i :: (i in a <==> i in b) && (i in a ==> a[i].id == b[i].id)
    ensures Ids(a, n) == Ids(b, n)
  {
  }

  lemma SameFilled(q: Query, s: State, t: State)
    requires s.returned == t.returned && s.start == t.start
    requires forall i :: (i in s.entries <==> i in t.entries) && (i in s.entries ==> s.entries[i].id == t.entries[i].id)
    ensures JustFilled(q, s) ==> JustFilled(q, t)
  {
  }

  lemma AnswerTracks(w: Table, q: Query, s: State, k: nat, reply: Option<Reply>)
    requires Inv(q, s) && Tracks(w, q, s) && Legal(s, Answers(k, reply))
    ensures Tracks(w, q, Answer(s, k, reply))
  {
    AnswerSameIds(q, s, k, reply);
    hide Ids, Ready, Inv, Stopped, Discovers, Written;
  }

  /** All passes find the same devices. */
  ghost predicate Steady(w: Table, es: seq<Event>) {
    forall i :: 0 <= i < |es| && es[i].Enters? ==> es[i].w == w
  }

  lemma {:induction false} RunTracks(w: Table, q: Query, ss: seq<State>, es: seq<Event>)
    requires IsRun(q, ss, es) && Steady(w, es)
    ensures Tracks(w, q, ss[|es|])
    decreases |es|
  {
    hide Inv, Enter, Answer, Tracks;
    if es == [] {
      InitTracks(w, q);
    } else {
      var n := |es| - 1;
      RunKeeps(q, ss[..|es|], es[..n]);
      RunTracks(w, q, ss[..|es|], es[..n]);
      assert Legal(ss[n], es[n]);
      match es[n]
      case Enters(_, budget) => EnterTracks(w, q, ss[n], budget);
      case Answers(k, reply) => AnswerTracks(w, q, ss[n], k, reply);
    }
  }

  lemma InitTracks(w: Table, q: Query)
    ensures Tracks(w, q, Init())
  {
  }

  /** A query that finishes well over steady devices reports each ready one of its range once, and no others. */
  lemma ReportsEachOnce(w: Table, q: Query, ss: seq<State>, es: seq<Event>)
    requires IsRun(q, ss, es) && Steady(w, es) && ss[|es|].phase == Finished(Done)
    ensures var s := ss[|es|];
      && Complete(s)
      && Ids(s.entries, s.returned) == Ready(w, StartOf(q), EndOf(q))
  {
    FanIn(q, ss, es);
    RunTracks(w, q, ss, es);
    hide Complete, Ids, IsRun;
    var s := ss[|es|];
    assert Ready(w, s.start, s.end) == [];
  }

  // ---------------------------------------------------------------- which queries finish

  /** The answer fills up with ids of the range still to be looked at. */
  predicate Early(w: Table, q: Query) {
    var r := Ready(w, q.first, q.limit);
    && q.bufferOk && q.first < q.limit
    && q.kind.ByRange? && 0 < q.requested <= |r|
    && r[q.requested - 1] + 1 < q.limit
  }

  /** A query that has stopped has stopped early exactly if the range fills early. */
  lemma StoppedEarly(w: Table, q: Query, s: State)
    requires Tracks(w, q, s) && Active(s) && s.restored
    ensures s.start < s.end <==> Early(w, q)
  {
    var ids := Ids(s.entries, s.returned);
    var r := Ready(w, q.first, q.limit);
    hide Ready, Discovers, Ids;
    if JustFilled(q, s) {
      assert r[q.requested - 1] == ids[q.requested - 1] by {
        assert ids + Ready(w, s.start, s.end) == r;
      }
      JustFilledId(q, s);
    } else {
      ReadyNone(w, s.start, s.end);
      assert Limited(q) ==> |r| < q.requested;
    }
  }

  lemma JustFilledId(q: Query, s: State)
    requires JustFilled(q, s)
    ensures Ids(s.entries, s.returned)[q.requested - 1] == s.start - 1
  {
  }

  lemma ReadyNone(w: Table, lo: nat, hi: nat)
    requires lo >= hi
    ensures Ready(w, lo, hi) == [] && Cost(w, lo, hi) == 0
  {
  }

  lemma EarlyNeverFinishes(w: Table, q: Query, ss: seq<State>, es: seq<Event>)
    requires IsRun(q, ss, es) && Steady(w, es) && Early(w, q)
    ensures !ss[|es|].phase.Finished?
  {
    var s := ss[|es|];
    FanIn(q, ss, es);
    RunTracks(w, q, ss, es);
    hide IsRun, Complete, Ascending, Steady, Ready;
    if s.phase.Finished? {
      assert q.bufferOk && q.first < q.limit;
      assert s.phase.outcome.Done?;
      StoppedEarly(w, q, s);
    }
  }

  /** What is still to be done, counted so that every event that gets anywhere lowers it. */
  function Measure(w: Table, q: Query, s: State): nat {
    match s.phase
    case Finished(_) => 0
    case Waiting => 2 * |s.out| + 3 * Cost(w, s.start, s.end)
    case Queued => 1 + 3 * (if s.restored then Cost(w, StartOf(q), EndOf(q)) else Cost(w, s.start, s.end))
  }

  /** A pass that had to be queued again for want of a single set of internal requests. */
  predicate Refused(q: Query, s: State, e: Event) {
    Legal(s, e) && e.Enters? && Step(q, s, e).phase.Queued?
  }

  lemma EnterLowers(w: Table, q: Query, s: State, budget: nat)
    requires Inv(q, s) && Tracks(w, q, s) && s.phase.Queued?
    ensures var t := Enter(w, q, s, budget);
      Measure(w, q, t) <= Measure(w, q, s) - if t.phase.Queued? then 0 else 1
  {
    hide Visit, Ids, Ready, Inv, Stopped, Discovers, Cost;
    if q.bufferOk && (s.restored ==> q.first < q.limit) {
      var o := Opened(q, s);
      OpenedTracks(w, q, s);
      hide Book;
      VisitSends(w, q, o, budget);
      VisitKeeps(w, q, o, budget);
    }
  }

  lemma AnswerLowers(w: Table, q: Query, s: State, k: nat, reply: Option<Reply>)
    requires Inv(q, s) && Tracks(w, q, s) && Legal(s, Answers(k, reply)) && !Early(w, q)
    ensures Measure(w, q, Answer(s, k, reply)) < Measure(w, q, s)
  {
    if s.restored {
      StoppedEarly(w, q, s);
    }
    BookCounts(s);
    hide Cost, Ids, Ready, Tracks, Book;
  }

  lemma StepLowers(w: Table, q: Query, s: State, e: Event)
    requires Inv(q, s) && Tracks(w, q, s) && Legal(s, e) && !Early(w, q) && (e.Enters? ==> e.w == w)
    ensures Measure(w, q, Step(q, s, e)) <= Measure(w, q, s) - if Refused(q, s, e) then 0 else 1
  {
    hide Inv, Tracks, Measure, Early, Enter, Answer;
    match e
    case Enters(_, budget) => EnterLowers(w, q, s, budget);
    case Answers(k, reply) => AnswerLowers(w, q, s, k, reply);
  }

  ghost function Refusals(q: Query, ss: seq<State>, es: seq<Event>): (n: nat)
    requires |ss| >= |es|
    ensures n <= |es|
  {
    if es == [] then 0
    else Refusals(q, ss, es[..|es| - 1]) + if Refused(q, ss[|es| - 1], es[|es| - 1]) then 1 else 0
  }

  lemma {:induction false} RefusalsPrefix(q: Query, ss: seq<State>, ts: seq<State>, es: seq<Event>)
    requires |ss| >= |ts| >= |es| && ss[..|ts|] == ts
    ensures Refusals(q, ss, es) == Refusals(q, ts, es)
  {
    if es != [] {
      RefusalsPrefix(q, ss, ts, es[..|es| - 1]);
      assert ss[|es| - 1] == ts[|es| - 1];
    }
  }

  /** Leaving aside the passes refused for want of requests, a query whose range does not fill early takes a bounded number of steps. */
  lemma {:induction false} BoundedSteps(w: Table, q: Query, ss: seq<State>, es: seq<Event>)
    requires IsRun(q, ss, es) && Steady(w, es) && !Early(w, q)
    ensures |es| - Refusals(q, ss, es) + Measure(w, q, ss[|es|]) <= 1 + 3 * Cost(w, StartOf(q), EndOf(q))
    decreases |es|
  {
    hide Inv, Tracks, Early, Enter, Answer, Measure, Refused;
    if es == [] {
      InitMeasure(w, q);
    } else {
      var n := |es| - 1;
      BoundedSteps(w, q, ss[..|es|], es[..n]);
      RefusalsPrefix(q, ss, ss[..|es|], es[..n]);
      RunKeeps(q, ss[..|es|], es[..n]);
      RunTracks(w, q, ss[..|es|], es[..n]);
      StepLowers(w, q, ss[n], es[n]);
    }
  }

  lemma InitMeasure(w: Table, q: Query)
    ensures Measure(w, q, Init()) == 1 + 3 * Cost(w, StartOf(q), EndOf(q))
  {
  }

  ghost predicate RunOver(w: Table, q: Query, ss: seq<State>, es: seq<Event>) {
    IsRun(q, ss, es) && Steady(w, es)
  }

  /** An event that gets somewhere: any answer, or a pass with all the internal requests it could need. */
  function Onward(w: Table, q: Query, s: State): Event {
    if s.phase.Waiting? then Answers(0, None) else Enters(w, Cost(w, 0, EndOf(q)))
  }

  lemma {:induction false} CostParts(w: Table, lo: nat, mid: nat, hi: nat)
    requires lo <= mid <= hi
    ensures Cost(w, mid, hi) <= Cost(w, lo, hi)
    decreases mid - lo
  {
    if lo < mid {
      CostParts(w, lo + 1, mid, hi);
    }
  }

  lemma {:induction false} EnoughForAll(w: Table, q: Query, s: State, budget: nat)
    requires s.start <= s.end && budget >= Cost(w, s.start, s.end)
    ensures Visit(w, q, s, budget).enough
    decreases s.end - s.start
  {
    if s.start < s.end {
      match Discovers(w, s.start) {
        case None => EnoughForAll(w, q, s.(start := s.start + 1), budget);
        case Some(n) =>
          var t := Sent(Filled(s, n), n);
          if !(q.kind.ByRange? && t.returned == q.requested) {
            EnoughForAll(w, q, t, budget - (n + 1));
          }
      }
    }
  }

  lemma OnwardGetsOn(w: Table, q: Query, s: State)
    requires Inv(q, s) && Tracks(w, q, s) && !s.phase.Finished?
    ensures Legal(s, Onward(w, q, s)) && !Refused(q, s, Onward(w, q, s))
  {
    BookCounts(s);
    hide Book, Cost, Visit, Ready, Ids, Stopped;
    if s.phase.Queued? && q.bufferOk && (s.restored ==> q.first < q.limit) {
      var o := Opened(q, s);
      OpenedTracks(w, q, s);
      CostParts(w, 0, o.start, o.end);
      EnoughForAll(w, q, o, Cost(w, 0, EndOf(q)));
    }
  }

  lemma {:induction false} CanFinish(w: Table, q: Query, ss: seq<State>, es: seq<Event>)
    requires RunOver(w, q, ss, es) && !Early(w, q)
    ensures exists ts: seq<State>, fs: seq<Event> :: RunOver(w, q, ts, fs) && ts[|fs|].phase.Finished?
    decreases Measure(w, q, ss[|es|])
  {
    hide Inv, Tracks, Early, Enter, Answer, Measure, Refused, Onward, Legal;
    var s := ss[|es|];
    if !s.phase.Finished? {
      RunKeeps(q, ss, es);
      RunTracks(w, q, ss, es);
      var e := Onward(w, q, s);
      OnwardGetsOn(w, q, s);
      OnwardTable(w, q, s);
      StepLowers(w, q, s, e);
      CanFinish(w, q, ss + [Step(q, s, e)], es + [e]);
    }
  }

  lemma OnwardTable(w: Table, q: Query, s: State)
    ensures var e := Onward(w, q, s); e.Enters? ==> e.w == w
  {
  }

  /** Over steady devices a query can finish if and only if its range does not fill early. */
  lemma FinishesUnlessEarly(w: Table, q: Query)
    ensures (exists ss: seq<State>, es: seq<Event> :: RunOver(w, q, ss, es) && ss[|es|].phase.Finished?) <==> !Early(w, q)
  {
    hide Early;
    if Early(w, q) {
      forall ss: seq<State>, es: seq<Event> | RunOver(w, q, ss, es) ensures !ss[|es|].phase.Finished? {
        EarlyNeverFinishes(w, q, ss, es);
      }
    } else {
      StartOfRun(w, q);
      CanFinish(w, q, [Init()], []);
    }
  }

  lemma StartOfRun(w: Table, q: Query)
    ensures RunOver(w, q, [Init()], [])
  {
  }

  /** The loop does not look at what the slots held before. */
  lemma {:induction false} VisitForgets(w: Table, q: Query, s: State, prior: map<nat, Entry>, budget: nat)
    ensures var a := Visit(w, q, s, budget);
      var b := Visit(w, q, s.(entries := prior), budget);
      a.enough == b.enough && a.over == b.over && a.s.(entries := map[]) == b.s.(entries := map[])
    decreases s.end - s.start
  {
    hide Visit, Requests, Discovers;
    var p := s.(entries := prior);
    VisitHere(w, q, s, budget);
    VisitHere(w, q, p, budget);
    if s.start < s.end {
      match Discovers(w, s.start) {
        case None => VisitForgets(w, q, s.(start := s.start + 1), prior, budget);
        case Some(n) =>
          if budget >= n + 1 {
            var t := Sent(Filled(s, n), n);
            assert Sent(Filled(p, n), n) == t.(entries := Filled(p, n).entries);
            VisitForgets(w, q, t, Filled(p, n).entries, budget - (n + 1));
          }
      }
    }
  }

  /** The initial state, but for the releases there have been. */
  function AsNew(s: State): State { Init().(releases := s.releases) }

  /** A query queued with its Cmd_Initiator restored begins again as if nothing had been reported. */
  lemma RestartsAfresh(w: Table, q: Query, s: State, budget: nat)
    requires s.phase.Queued? && s.restored && s.out == [] && q.bufferOk && q.first < q.limit
    ensures Enter(w, q, s, budget).(entries := map[]) == Enter(w, q, AsNew(s), budget).(entries := map[])
  {
    VisitForgets(w, q, Opened(q, AsNew(s)), s.entries, budget);
  }

  /** After a pass that stopped early, the last answer puts the query back to its beginning. */
  lemma LastAnswerRestarts(w: Table, q: Query, ss: seq<State>, es: seq<Event>, reply: Option<Reply>, budget: nat)
    requires IsRun(q, ss, es) && Steady(w, es) && Early(w, q)
    requires var s := ss[|es|]; s.phase.Waiting? && s.restored && s.remaining == 1
    ensures Legal(ss[|es|], Answers(0, reply))
    ensures var t := Answer(ss[|es|], 0, reply);
      t.phase.Queued? && Enter(w, q, t, budget).(entries := map[]) == Enter(w, q, AsNew(t), budget).(entries := map[])
  {
    FanIn(q, ss, es);
    RunTracks(w, q, ss, es);
    var s := ss[|es|];
    hide IsRun, Complete, Ascending, Steady, Ready;
    StoppedEarly(w, q, s);
    assert Legal(s, Answers(0, reply));
    RestartsAfresh(w, q, Answer(s, 0, reply), budget);
  }

  /** Such queries exist: two expanders, one wanted. */
  lemma FillsEarly()
    ensures Early([OnPort(true), OnPort(true)], Query(true, ByRange, 0, 1, 2))
  {
    assert Ready([OnPort(true), OnPort(true)], 1, 2) == [1];
  }

  // ---------------------------------------------------------------- the request and its context

  /** One turn of the loop. */
  lemma VisitHere(w: Table, q: Query, s: State, budget: nat)
    ensures s.start >= s.end ==> Visit(w, q, s, budget) == Pass(s, true, 0)
    ensures s.start < s.end && Discovers(w, s.start).None? ==>
      Visit(w, q, s, budget) == Visit(w, q, s.(start := s.start + 1), budget)
    ensures s.start < s.end && Discovers(w, s.start).Some? ==>
      var n := Discovers(w, s.start).value;
      var t := Sent(Filled(s, n), n);
      Visit(w, q, s, budget)
      == if budget < n + 1 then Pass(Filled(s, n), false, budget)
         else if q.kind.ByRange? && t.returned == q.requested then Pass(t.(next := Some(t.start)), true, 0)
         else Visit(w, q, t, budget - (n + 1))
  {
  }

  datatype QueueResult = Completed | Replaced | NoResource

  class ExpanderRequest {
    const q: Query
    var phase: Phase
    var restored: bool
    var start: nat
    var end: nat
    var remaining: nat
    var returned: nat
    var next: Option<nat>
    var entries: map<nat, Entry>
    var out: seq<Smp>
    var releases: nat

    function View(): State
      reads this
    {
      State(phase, restored, start, end, remaining, returned, next, entries, out, releases)
    }

    constructor (q: Query)
      ensures View() == Init() && this.q == q
    {
      this.q := q;
      phase, restored := Queued, true;
      start, end, remaining, returned, next := 0, 0, 0, 0, None;
      entries, out, releases := map[], [], 0;
    }

    /** The DISCOVER and REPORT_GENERAL requests for the current id, as far as `budget` goes. */
    method Generate(n: nat, budget: nat) returns (smp: seq<Smp>, left: nat, enough: bool)
      ensures enough <==> budget >= n + 1
      ensures enough ==> smp == Requests(returned, n) && left == budget - (n + 1)
      ensures !enough ==> |smp| == budget
    {
      smp, left := [], budget;
      var j := 0;
      while j < n
        invariant j <= n && left == budget - j && smp == DiscoverList(returned, j)
      {
        if left == 0 {
          return smp, 0, false;
        }
        smp, left := [Discover(returned, j)] + smp, left - 1;
        j := j + 1;
      }
      if left == 0 {
        return smp, 0, false;
      }
      return [ReportGeneral(returned)] + smp, left - 1, true;
    }

    /** Hands the sub-requests of one expander down, first to last, and counts them. */
    method SendAll(smp: seq<Smp>)
      modifies this`out, this`remaining
      ensures out == old(out) + smp && remaining == old(remaining) + |smp|
    {
      var rest := smp;
      while rest != []
        invariant out + rest == old(out) + smp
        invariant remaining + |rest| == old(remaining) + |smp|
        decreases |rest|
      {
        ghost var was := out + rest;
        out, remaining := out + [rest[0]], remaining + 1;
        rest := rest[1..];
        assert out + rest == was;
      }
    }

    /** The loop over the ids, up to the end, a full answer or a want of internal requests. */
    method Scan(w: Table, budget: nat) returns (enough: bool, vain: seq<Smp>)
      modifies this
      ensures Pass(View(), enough, |vain|) == Visit(w, q, old(View()), budget)
    {
      hide Visit, Requests;
      ghost var o := View();
      var left := budget;
      vain := [];
      while start < end
        invariant Visit(w, q, View(), left) == Visit(w, q, o, budget)
        decreases end - start
      {
        VisitHere(w, q, View(), left);
        var n := Discovers(w, start);
        if n.None? {
          start := start + 1;
          continue;
        }
        ghost var s := View();
        entries := entries[returned := Entry(start, seq(n.value, _ => None), None)];
        var smp;
        smp, left, enough := Generate(n.value, left);
        if !enough {
          vain := smp;
          return;
        }
        SendAll(smp);
        start, returned := start + 1, returned + 1;
        assert View() == Sent(Filled(s, n.value), n.value) by {
          RequestsShape(s.returned, n.value);
        }
        if q.kind.ByRange? && returned == q.requested {
          next := Some(start);
          return;
        }
      }
      VisitHere(w, q, View(), left);
      enough := true;
    }

    /** core_pd_request_get_expander_info; `w` stands for the device table, `budget` for the internal requests. */
    method HandleRequest(w: Table, budget: nat) returns (result: QueueResult)
      modifies this
      ensures View() == Enter(w, q, old(View()), budget)
      ensures result == match phase case Finished(_) => Completed case Waiting => Replaced case Queued => NoResource
    {
      hide Visit;
      if !q.bufferOk {
        phase := Finished(BadBuffer);
        return Completed;
      }
      if restored && q.first >= q.limit {
        phase := Finished(BadId);
        return Completed;
      }
      Open();
      hide Opened;
      var enough, vain := Scan(w, budget);
      if enough {
        restored := true;
        if remaining == 0 {
          phase, result := Finished(Done), Completed;
        } else {
          phase, result := Waiting, Replaced;
        }
        return;
      }
      ReleaseFor(vain);
      if remaining != 0 {
        phase, result := Waiting, Replaced;
      } else {
        phase, result := Queued, NoResource;
      }
    }

    /** The first time, the range is set up; Cmd_Initiator is then kept elsewhere. */
    method Open()
      modifies this
      ensures View() == Opened(q, old(View()))
    {
      if restored {
        start, end := 0, 0;
        if q.kind.ByRange? {
          start, end := q.first, q.limit;
        } else if q.kind.ById? {
          start, end := q.first, q.first + 1;
        }
        returned, next, remaining, restored := 0, None, 0, false;
      }
    }

    /** The no_resource loop: each sub-request is popped, and the query is released. */
    method ReleaseFor(vain: seq<Smp>)
      modifies this`releases
      ensures releases == old(releases) + |vain|
    {
      var rest := vain;
      while rest != []
        invariant releases + |rest| == old(releases) + |vain|
        decreases |rest|
      {
        rest := rest[1..];
        releases := releases + 1;
      }
    }

    /** core_get_exp_information_callback, for sub-request `k` of those under way. */
    method Callback(k: nat, reply: Option<Reply>)
      requires k < |out| && Expected(View(), out[k]) && remaining > 0
      modifies this
      ensures View() == Answer(old(View()), k, reply)
    {
      var m := out[k];
      var e := entries[m.slot];
      match m {
        case Discover(_, j) =>
          e := e.(phys := e.phys[j := Some(if reply.Some? then reply.value.phyId else 0)]);
        case ReportGeneral(_) =>
          e := e.(general := Some(if reply.Some? then reply.value.general else General(0, 0)));
      }
      entries := entries[m.slot := e];
      out := DropAt(out, k);
      remaining := remaining - 1;
      if remaining == 0 {
        phase := if start == end then Finished(Done) else Queued;
      }
    }
  }
}
