/** What a query reports, in terms of the device table and of the replies that came. */
module ExpanderAnswers {
  import opened Common
  import opened ExpanderQuery

  // ---------------------------------------------------------------- replies

  /** The reply, if any, that last answered sub-request `m` in the run; None inside is a failed one. */
  function LastReply(ss: seq<State>, es: seq<Event>, m: Smp): Option<Option<Reply>>
    requires |ss| == |es| + 1
    decreases |es|
  {
    if es == [] then None
    else
      var n := |es| - 1;
      if es[n].Answers? && es[n].k < |ss[n].out| && ss[n].out[es[n].k] == m then Some(es[n].reply)
      else LastReply(ss[..|es|], es[..n], m)
  }

  /** The configuring flag and the change count are those of the reply, zero if it failed. */
  predicate GeneralIs(e: Entry, reply: Option<Reply>) {
    match reply
    case None => e.general == Some(General(0, 0))
    case Some(r) => e.general == Some(r.general)
  }

  /** The id of phy `j` is that of the reply, zero if it failed. */
  predicate PhyIs(e: Entry, j: nat, reply: Option<Reply>)
    requires j < |e.phys|
  {
    match reply
    case None => e.phys[j] == Some(0)
    case Some(r) => e.phys[j] == Some(r.phyId)
  }

  /** An answer puts its reply where it belongs, and changes nothing else of any slot. */
  lemma AnswerChangesOne(s: State, k: nat, reply: Option<Reply>)
    requires Legal(s, Answers(k, reply))
    ensures var m := s.out[k]; var t := Answer(s, k, reply);
      && t.entries.Keys == s.entries.Keys && t.returned == s.returned && t.next == s.next
      && (m.ReportGeneral? ==> GeneralIs(t.entries[m.slot], reply))
      && (m.Discover? ==> m.phy < |t.entries[m.slot].phys| && PhyIs(t.entries[m.slot], m.phy, reply))
      && (forall i :: i in s.entries ==> t.entries[i].id == s.entries[i].id && |t.entries[i].phys| == |s.entries[i].phys|)
      && (forall i :: i in s.entries && m != ReportGeneral(i) ==> t.entries[i].general == s.entries[i].general)
      && (forall i, j :: i in s.entries && 0 <= j < |s.entries[i].phys| && m != Discover(i, j) ==>
            t.entries[i].phys[j] == s.entries[i].phys[j])
  {
  }

  /** A slot as a pass fills it: for a ready expander, everything still to be answered. */
  predicate Unanswered(w: Table, e: Entry) {
    && Answering(w, e.id) && |e.phys| == ParentPhys(w, e.id)
    && e.general.None? && forall j :: 0 <= j < |e.phys| ==> e.phys[j].None?
  }

  /** The device of that id is an expander that is ready, and so is the expander it hangs on, if it does. */
  predicate Answering(w: Table, id: nat) {
    && id < |w|
    && match w[id]
       case NoExpander => false
       case OnPort(ready) => ready
       case OnExpander(ready, parentReady, _) => ready && parentReady
  }

  function ParentPhys(w: Table, id: nat): nat {
    if id < |w| && w[id].OnExpander? then w[id].parentPhys else 0
  }

  lemma DiscoversMeans(w: Table, id: nat)
    ensures Discovers(w, id).Some? <==> Answering(w, id)
    ensures Discovers(w, id).Some? ==> Discovers(w, id).value == ParentPhys(w, id)
  {
  }

  lemma {:induction false} VisitFills(w: Table, q: Query, s: State, budget: nat)
    ensures var r := Visit(w, q, s, budget).s;
      && r.returned >= s.returned
      && forall k :: 0 <= k < r.returned ==>
           if k < s.returned then (k in r.entries <==> k in s.entries) && (k in r.entries ==> r.entries[k] == s.entries[k])
           else k in r.entries && Unanswered(w, r.entries[k])
    decreases s.end - s.start
  {
    hide Requests, Discovers, Answering, ParentPhys;
    if s.start < s.end {
      DiscoversMeans(w, s.start);
      match Discovers(w, s.start) {
        case None => VisitFills(w, q, s.(start := s.start + 1), budget);
        case Some(n) =>
          var t := Sent(Filled(s, n), n);
          assert Unanswered(w, t.entries[s.returned]);
          if budget >= n + 1 && !(q.kind.ByRange? && t.returned == q.requested) {
            VisitFills(w, q, t, budget - (n + 1));
          }
      }
    }
  }

  /** After a pass, a slot returned is as it was, or was filled by that pass. */
  lemma EnterFills(w: Table, q: Query, s: State, budget: nat)
    requires forall k :: 0 <= k < s.returned ==> k in s.entries
    ensures var t := Enter(w, q, s, budget);
      forall k :: 0 <= k < t.returned ==>
        && k in t.entries
        && ((k < s.returned && t.entries[k] == s.entries[k]) || Unanswered(w, t.entries[k]))
  {
    VisitFills(w, q, Opened(q, s), budget);
    hide Visit, Unanswered;
  }

  /** What is answered in a slot is what the last reply to its sub-request said. */
  ghost predicate Told(ss: seq<State>, es: seq<Event>, s: State)
    requires |ss| == |es| + 1
  {
    forall k :: 0 <= k < s.returned ==> k in s.entries && EntryTold(ss, es, k, s.entries[k])
  }

  ghost predicate EntryTold(ss: seq<State>, es: seq<Event>, k: nat, e: Entry)
    requires |ss| == |es| + 1
  {
    && (e.general.Some? ==>
          LastReply(ss, es, ReportGeneral(k)).Some? && GeneralIs(e, LastReply(ss, es, ReportGeneral(k)).value))
    && (forall j :: 0 <= j < |e.phys| && e.phys[j].Some? ==>
          LastReply(ss, es, Discover(k, j)).Some? && PhyIs(e, j, LastReply(ss, es, Discover(k, j)).value))
  }

  lemma LastReplyStep(ss: seq<State>, es: seq<Event>, m: Smp)
    requires |ss| == |es| + 1 && es != []
    ensures var n := |es| - 1;
      LastReply(ss, es, m) == if es[n].Answers? && es[n].k < |ss[n].out| && ss[n].out[es[n].k] == m then Some(es[n].reply)
                              else LastReply(ss[..|es|], es[..n], m)
  {
  }

  lemma AnswerTells(ss: seq<State>, es: seq<Event>, i: nat)
    requires |ss| == |es| + 1 && es != [] && es[|es| - 1].Answers? && Legal(ss[|es| - 1], es[|es| - 1])
    requires i in ss[|es| - 1].entries && EntryTold(ss[..|es|], es[..|es| - 1], i, ss[|es| - 1].entries[i])
    ensures var t := Answer(ss[|es| - 1], es[|es| - 1].k, es[|es| - 1].reply);
      i in t.entries && EntryTold(ss, es, i, t.entries[i])
  {
    var n := |es| - 1;
    var s, k := ss[n], es[n].k;
    var t := Answer(s, k, es[n].reply);
    AnswerChangesOne(s, k, es[n].reply);
    LastReplyStep(ss, es, ReportGeneral(i));
    hide Answer, LastReply;
    assert i in s.entries.Keys && i in t.entries.Keys;
    forall j | 0 <= j < |t.entries[i].phys| && t.entries[i].phys[j].Some?
      ensures LastReply(ss, es, Discover(i, j)).Some? && PhyIs(t.entries[i], j, LastReply(ss, es, Discover(i, j)).value) {
      LastReplyStep(ss, es, Discover(i, j));
    }
  }

  lemma PassTells(ss: seq<State>, es: seq<Event>, i: nat, e: Entry)
    requires |ss| == |es| + 1 && es != [] && es[|es| - 1].Enters?
    requires EntryTold(ss[..|es|], es[..|es| - 1], i, e) || Unanswered(es[|es| - 1].w, e)
    ensures EntryTold(ss, es, i, e)
  {
    LastReplyStep(ss, es, ReportGeneral(i));
    forall j ensures LastReply(ss, es, Discover(i, j)) == LastReply(ss[..|es|], es[..|es| - 1], Discover(i, j)) {
      LastReplyStep(ss, es, Discover(i, j));
    }
    hide LastReply, Answering;
  }

  lemma {:induction false} RunTells(q: Query, ss: seq<State>, es: seq<Event>)
    requires IsRun(q, ss, es)
    ensures Told(ss, es, ss[|es|])
    decreases |es|
  {
    if es != [] {
      var n := |es| - 1;
      var s := ss[n];
      RunTells(q, ss[..|es|], es[..n]);
      assert Legal(s, es[n]) && ss[|es|] == Step(q, s, es[n]);
      hide IsRun, LastReply, EntryTold, Unanswered, Enter, Answer;
      match es[n] {
        case Enters(w, budget) =>
          EnterFills(w, q, s, budget);
          forall i | 0 <= i < ss[|es|].returned ensures i in ss[|es|].entries && EntryTold(ss, es, i, ss[|es|].entries[i]) {
            PassTells(ss, es, i, ss[|es|].entries[i]);
          }
        case Answers(k, reply) =>
          AnswerChangesOne(s, k, reply);
          forall i | 0 <= i < ss[|es|].returned ensures i in ss[|es|].entries && EntryTold(ss, es, i, ss[|es|].entries[i]) {
            AnswerTells(ss, es, i);
          }
      }
    }
  }

  /**
   Over every run: when the query finishes well, the configuring flag and the change count of every
   slot returned are those of the reply that answered its REPORT_GENERAL, and the id of every phy is
   that of the reply that answered its DISCOVER; zeros for those that failed.
   */
  lemma AnswersReported(q: Query, ss: seq<State>, es: seq<Event>, k: nat)
    requires IsRun(q, ss, es) && ss[|es|].phase == Finished(Done) && k < ss[|es|].returned
    ensures var s := ss[|es|];
      && k in s.entries
      && LastReply(ss, es, ReportGeneral(k)).Some? && GeneralIs(s.entries[k], LastReply(ss, es, ReportGeneral(k)).value)
      && (forall j :: 0 <= j < |s.entries[k].phys| ==>
            LastReply(ss, es, Discover(k, j)).Some? && PhyIs(s.entries[k], j, LastReply(ss, es, Discover(k, j)).value))
  {
    FanIn(q, ss, es);
    RunTells(q, ss, es);
    hide IsRun, LastReply, Ascending, GeneralIs, PhyIs;
  }

  // ---------------------------------------------------------------- devices

  /** The query asks for the device of that id. */
  predicate Asked(q: Query, id: nat) {
    match q.kind
    case ByRange => q.first <= id < q.limit
    case ById => id == q.first
    case Neither => false
  }

  /** Every slot returned has as many phys as lead to the parent expander of its device. */
  ghost predicate PhysCounted(w: Table, s: State) {
    forall k :: 0 <= k < s.returned ==> k in s.entries && |s.entries[k].phys| == ParentPhys(w, s.entries[k].id)
  }

  lemma {:induction false} RunCounts(w: Table, q: Query, ss: seq<State>, es: seq<Event>)
    requires IsRun(q, ss, es) && Steady(w, es)
    ensures PhysCounted(w, ss[|es|])
    decreases |es|
  {
    if es != [] {
      var n := |es| - 1;
      var s := ss[n];
      RunCounts(w, q, ss[..|es|], es[..n]);
      assert Legal(s, es[n]) && ss[|es|] == Step(q, s, es[n]);
      hide IsRun, Enter, Answer, Answering, ParentPhys;
      match es[n] {
        case Enters(_, budget) => EnterFills(w, q, s, budget);
        case Answers(k, reply) => AnswerChangesOne(s, k, reply);
      }
    }
  }

  /**
   Over devices that stay as they are: a query that finishes well reports a device if and only if it
   asks for its id and the device is an expander, ready, and on a port or on an expander that is ready
   too; with as many phys as lead to that.  One by id reports one slot or none.
   */
  lemma ReportsExactly(w: Table, q: Query, ss: seq<State>, es: seq<Event>, id: nat)
    requires IsRun(q, ss, es) && Steady(w, es) && ss[|es|].phase == Finished(Done)
    ensures var s := ss[|es|];
      && (forall k :: 0 <= k < s.returned ==> k in s.entries && |s.entries[k].phys| == ParentPhys(w, s.entries[k].id))
      && ((exists k :: 0 <= k < s.returned && k in s.entries && s.entries[k].id == id) <==> Asked(q, id) && Answering(w, id))
      && (q.kind.ById? ==> s.returned == if Answering(w, q.first) then 1 else 0)
  {
    var s := ss[|es|];
    ReportsEachOnce(w, q, ss, es);
    RunCounts(w, q, ss, es);
    var ids := Ids(s.entries, s.returned);
    ReadyExactly(w, StartOf(q), EndOf(q), id);
    DiscoversMeans(w, id);
    if q.kind.ById? {
      DiscoversMeans(w, q.first);
      ReadyOne(w, q.first);
    }
    hide IsRun, Discovers, Complete, Ready, Answering, ParentPhys;
    assert forall k :: 0 <= k < s.returned ==> ids[k] == s.entries[k].id;
  }

  lemma ReadyOne(w: Table, id: nat)
    ensures Ready(w, id, id + 1) == if Discovers(w, id).Some? then [id] else []
  {
    hide Discovers;
  }

  // ---------------------------------------------------------------- outcomes

  predicate Rejected(q: Query) { !q.bufferOk || q.first >= q.limit }

  /** Exact conditions over every run: for lack of a buffer or for its first id a query is rejected by its first pass, and for nothing else. */
  lemma {:induction false} OutcomesExactly(q: Query, ss: seq<State>, es: seq<Event>)
    requires IsRun(q, ss, es)
    ensures var s := ss[|es|];
      && (s.phase == Finished(BadBuffer) <==> !q.bufferOk && es != [])
      && (s.phase == Finished(BadId) <==> q.bufferOk && q.first >= q.limit && es != [])
      && (Rejected(q) ==> |es| <= 1 && s.returned == 0)
    decreases |es|
  {
    if es != [] {
      var n := |es| - 1;
      OutcomesExactly(q, ss[..|es|], es[..n]);
      RunKeeps(q, ss[..|es|], es[..n]);
      hide Visit, Book;
    }
  }

  /** The next id is that after the last one looked at, if the answer is full, and none otherwise. */
  predicate NextIs(q: Query, s: State) {
    s.next == if q.kind.ByRange? && q.requested > 0 && s.returned == q.requested then Some(s.start) else None
  }

  lemma {:induction false} VisitNext(w: Table, q: Query, s: State, budget: nat)
    requires s.next == None && (Limited(q) ==> s.returned < q.requested)
    ensures var r := Visit(w, q, s, budget);
      NextIs(q, r.s) && (!r.enough ==> r.s.next == None && (Limited(q) ==> r.s.returned < q.requested))
    decreases s.end - s.start
  {
    hide Requests, Discovers;
    if s.start < s.end {
      match Discovers(w, s.start) {
        case None => VisitNext(w, q, s.(start := s.start + 1), budget);
        case Some(n) =>
          var t := Sent(Filled(s, n), n);
          if budget >= n + 1 && !(q.kind.ByRange? && t.returned == q.requested) {
            VisitNext(w, q, t, budget - (n + 1));
          }
      }
    }
  }

  ghost predicate NextKnown(q: Query, s: State) {
    && (!s.restored ==> s.next == None && (Limited(q) ==> s.returned < q.requested))
    && (Active(s) ==> NextIs(q, s) && s.end == EndOf(q))
  }

  lemma EnterNext(w: Table, q: Query, s: State, budget: nat)
    requires NextKnown(q, s) && Inv(q, s) && s.phase.Queued?
    ensures NextKnown(q, Enter(w, q, s, budget))
  {
    hide Visit, Book;
    if q.bufferOk && (s.restored ==> q.first < q.limit) {
      var o := Opened(q, s);
      VisitNext(w, q, o, budget);
      OpenedKeepsBook(q, s) by {
        BookCounts(s);
      }
      VisitKeeps(w, q, o, budget);
    }
  }

  lemma {:induction false} RunNext(q: Query, ss: seq<State>, es: seq<Event>)
    requires IsRun(q, ss, es)
    ensures NextKnown(q, ss[|es|])
    decreases |es|
  {
    if es != [] {
      var n := |es| - 1;
      RunNext(q, ss[..|es|], es[..n]);
      RunKeeps(q, ss[..|es|], es[..n]);
      assert Legal(ss[n], es[n]) && ss[|es|] == Step(q, ss[n], es[n]);
      hide IsRun, Enter, Inv;
      if es[n].Enters? {
        EnterNext(es[n].w, q, ss[n], es[n].budget);
      }
    }
  }

  /** The next starting index when a query finishes well: the end of the range if the last device filled the answer, else none. */
  lemma NextExactly(q: Query, ss: seq<State>, es: seq<Event>)
    requires IsRun(q, ss, es) && ss[|es|].phase == Finished(Done)
    ensures ss[|es|].next
         == if q.kind.ByRange? && q.requested > 0 && ss[|es|].returned == q.requested then Some(q.limit) else None
  {
    RunNext(q, ss, es);
    FanIn(q, ss, es);
    hide IsRun, Complete, Ascending;
  }
}
