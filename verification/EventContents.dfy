/** What the log's events say, in terms of what was reported. */
module EventContents {
  import opened Common
  import opened EventLog

  /** The reports that are not refused, in order. */
  function Reports(calls: seq<Call>): seq<Report> {
    if calls == [] then []
    else Reports(calls[..|calls| - 1]) + ReportOf(calls[|calls| - 1])
  }

  function ReportOf(c: Call): seq<Report> {
    if c.Add? && c.report.paramCount <= 4 then [c.report] else []
  }

  predicate AllBuffered(calls: seq<Call>) { forall c <- calls :: c.Add? ==> Buffered(c.report) }

  /** The event says what was reported: every field, the parameters given and the sense bytes given. */
  ghost predicate Says(e: Event, r: Report) {
    && e.eventId == r.eventId && e.severity == r.severity && e.device == r.device && e.time == r.time
    && |e.params| == 4 && |e.sense| == 30
    && (r.params.Some? ==> forall k :: 0 <= k < r.paramCount && k < |r.params.value| && k < 4 ==> e.params[k] == r.params.value[k])
    && e.senseLength == (if r.sense.None? then 0 else if r.senseLength > 30 then 30 else r.senseLength)
    && (r.sense.Some? ==> forall k :: 0 <= k < e.senseLength && k < |r.sense.value| ==> e.sense[k] == r.sense.value[k])
  }

  /** Beyond what was reported it says what the entry said before. */
  ghost predicate Keeps(e: Event, prior: Event, r: Report) {
    && |e.params| == |prior.params| && |e.sense| == |prior.sense|
    && (forall k :: 0 <= k < |e.params| && (r.params.None? || k >= r.paramCount) ==> e.params[k] == prior.params[k])
    && (forall k :: 0 <= k < |e.sense| && k >= e.senseLength ==> e.sense[k] == prior.sense[k])
  }

  ghost predicate Sized(s: Log) {
    |s.entries| == 20 && forall k :: 0 <= k < 20 ==> |s.entries[k].params| == 4 && |s.entries[k].sense| == 30
  }

  lemma RecordedSays(prior: Event, r: Report, sequence: nat)
    requires Buffered(r) && r.paramCount <= 4 && |prior.params| == 4 && |prior.sense| == 30
    ensures var e := Recorded(prior, r, sequence);
      Says(e, r) && Keeps(e, prior, r) && e.sequenceNo == sequence
  {
  }

  /** What add_event stores, and where: in the first free entry, or in that of the oldest event stored. */
  lemma AddStores(s: Log, r: Report)
    requires Inv(s) && Sized(s) && Buffered(r)
    ensures var (t, ok) := AddEvent(s, r);
      && (ok <==> r.paramCount <= 4)
      && (!ok ==> t == s)
      && (ok ==>
            && s.free + s.stored != []
            && var c := (s.free + s.stored)[0];
            && c < 20 && |t.entries| == 20 && t.entries == s.entries[c := t.entries[c]]
            && Says(t.entries[c], r) && Keeps(t.entries[c], s.entries[c], r)
            && t.entries[c].sequenceNo == |s.accepted| % 0x1_0000_0000
            && t.accepted == s.accepted + [t.entries[c]])
      && Sized(t)
  {
    ChosenInPool(s);
    hide Partition, KeepsLatest, Recorded;
    var c := Chosen(s).value;
    if r.paramCount <= 4 {
      RecordedSays(s.entries[c], r, s.sequence);
    }
    hide Says, Keeps;
  }

  /** What was delivered is what was accepted there. */
  ghost predicate AnswersAccepted(s: Log) {
    && |s.answers| == |s.delivered|
    && forall j :: 0 <= j < |s.answers| ==> s.delivered[j] < |s.accepted| && s.answers[j] == s.accepted[s.delivered[j]]
  }

  lemma {:induction false} GetAnswers(s: Log, count: nat)
    requires Inv(s) && AnswersAccepted(s) && Sized(s)
    ensures var t := GetEvents(s, count);
      AnswersAccepted(t) && Sized(t) && t.accepted == s.accepted
    decreases MAX_EVENTS_RETURNED - count
  {
    if s.stored != [] && count < MAX_EVENTS_RETURNED {
      TakeKeeps(s);
      TakeAnswers(s);
      hide Inv, AnswersAccepted;
      GetAnswers(TakeOldest(s), count + 1);
    }
  }

  lemma TakeAnswers(s: Log)
    requires Inv(s) && AnswersAccepted(s) && s.stored != []
    ensures AnswersAccepted(TakeOldest(s))
  {
    hide Partition, Numbered;
  }

  /**
   Over every run: the events accepted are the reports that were not refused, one by one, and say
   what was reported; and so do those delivered.
   */
  lemma {:induction false} ContentsOverRuns(calls: seq<Call>)
    requires AllBuffered(calls)
    ensures var s := Run(Init(), calls); var reports := Reports(calls);
      && Inv(s) && Sized(s) && AnswersAccepted(s)
      && |s.accepted| == |reports|
      && (forall p :: 0 <= p < |reports| ==> Says(s.accepted[p], reports[p]))
  {
    RunRefines(calls);
    if calls != [] {
      var n := |calls| - 1;
      var s := Run(Init(), calls[..n]);
      RunRefines(calls[..n]);
      ContentsOverRuns(calls[..n]);
      hide Inv, Says, AnswersAccepted, Keeps, Buffered;
      match calls[n] {
        case Add(r) =>
          assert calls[n] in calls;
          AddStores(s, r);
          AddAnswers(s, r);
        case Get => GetAnswers(s, 0);
      }
    }
  }

  lemma AddAnswers(s: Log, r: Report)
    requires AnswersAccepted(s)
    ensures AnswersAccepted(AddEvent(s, r).0)
  {
    hide Recorded;
  }

  /** In particular what get_event has delivered j-th, of all there was, says what the report at its position said. */
  lemma DeliveredSays(calls: seq<Call>, j: nat)
    requires AllBuffered(calls) && j < |Run(Init(), calls).answers|
    ensures var s := Run(Init(), calls);
      && j < |s.delivered| && s.delivered[j] < |Reports(calls)|
      && Says(s.answers[j], Reports(calls)[s.delivered[j]])
  {
    ContentsOverRuns(calls);
    hide Inv, Run, Says;
  }
}
