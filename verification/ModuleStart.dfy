/**
 The module chain of one adapter (linux/hba_mod.c) and its asynchronous start
 (HBA_ModuleStarted in linux/hba_exp.c): the core at the bottom, the HBA module on top, and
 any number of modules in between, each started when the one below reports.
 */
module ModuleStart {
  import opened Common

  // ---------------------------------------------------------------- the protocol

  /**
   A chain of modules 0 (core) to n-1 (HBA).  `status` says which are marked started, `reported`
   which have called HBA_ModuleStarted, `calls` lists the module_start calls and `signals`
   counts completions.
   */
  datatype Chain = Chain(status: seq<bool>, reported: seq<bool>, calls: seq<nat>, signals: nat)

  datatype Event =
    | Report(i: nat)   // module i, whose module_start was called, calls HBA_ModuleStarted
    | MarkTop          // mv_hba_start marks the HBA module before reporting for it

  /** mv_hba_start up to the start of the core: the HBA module's start is called first. */
  function Begin(n: nat): Chain
    requires n >= 2
  {
    Chain(seq(n, i => false), seq(n, i => false), [n - 1, 0], 0)
  }

  predicate AllStarted(c: Chain) { forall i :: 0 <= i < |c.status| ==> c.status[i] }

  /** HBA_ModuleStarted. */
  function Started(c: Chain, i: nat): Chain
    requires i < |c.status| == |c.reported|
  {
    var d := c.(status := c.status[i := true], reported := c.reported[i := true]);
    if AllStarted(d) then d.(signals := d.signals + 1)
    else if i + 2 < |c.status| then d.(calls := d.calls + [i + 1])
    else d
  }

  predicate Legal(c: Chain, e: Event) {
    |c.status| == |c.reported| >= 2 &&
    match e
    case Report(i) => i < |c.status| && i in c.calls && !c.reported[i] && (i == |c.status| - 1 ==> c.status[i])
    case MarkTop => true
  }

  function Step(c: Chain, e: Event): Chain
    requires Legal(c, e)
  {
    match e
    case Report(i) => Started(c, i)
    case MarkTop => c.(status := c.status[|c.status| - 1 := true])
  }

  ghost predicate IsRun(cs: seq<Chain>, es: seq<Event>) {
    && |cs| == |es| + 1
    && forall i :: 0 <= i < |es| ==> Legal(cs[i], es[i]) && cs[i + 1] == Step(cs[i], es[i])
  }

  /** Every module but the HBA is marked by its own report, the HBA at the latest by its own. */
  ghost predicate Marked(c: Chain) {
    var n := |c.status|;
    && n == |c.reported| >= 2
    && (forall i :: 0 <= i < n - 1 ==> c.status[i] == c.reported[i])
    && (c.reported[n - 1] ==> c.status[n - 1])
  }

  /** The module above `i`, unless it is the HBA, was started exactly when `i` has reported. */
  ghost predicate Cascade(c: Chain)
    requires |c.status| == |c.reported|
  {
    forall i :: 0 <= i < |c.status| - 2 ==> (c.reported[i] <==> i + 1 in c.calls)
  }

  /** The ends of the chain and whatever has reported were started; no module was started twice. */
  ghost predicate Called(c: Chain)
    requires |c.status| == |c.reported| >= 2
  {
    var n := |c.status|;
    && n - 1 in c.calls && 0 in c.calls
    && (forall i :: 0 <= i < n && c.reported[i] ==> i in c.calls)
    && Distinct(c.calls)
  }

  ghost predicate AllReported(c: Chain) { forall i :: 0 <= i < |c.reported| ==> c.reported[i] }

  ghost predicate Signalled(c: Chain)
    requires Marked(c)
  {
    && (c.signals > 0 ==> AllStarted(c))
    && (AllReported(c) ==> c.signals > 0)
    && c.signals <= if c.reported[|c.status| - 1] then 2 else 1
  }

  ghost predicate Inv(c: Chain) { Marked(c) && Cascade(c) && Called(c) && Signalled(c) }

  lemma BeginInv(n: nat)
    requires n >= 2
    ensures Inv(Begin(n))
  {
    var c := Begin(n);
    assert c.calls[0] == n - 1 && c.calls[1] == 0;
    assert !c.reported[0];
  }

  lemma ReportKeepsMarked(c: Chain, i: nat)
    requires Marked(c) && i < |c.status|
    ensures Marked(Started(c, i)) && |Started(c, i).status| == |c.status|
  {
    hide AllStarted;
  }

  /** A report below a module that has not started is not the last one. */
  lemma NotLast(c: Chain, i: nat)
    requires Marked(c) && Cascade(c) && Called(c) && i + 2 < |c.status| && !c.reported[i]
    ensures i + 1 !in c.calls && !c.reported[i + 1] && !c.status[i + 1]
    ensures Started(c, i).calls == c.calls + [i + 1]
  {
    hide Distinct;
    assert !c.status[i := true][i + 1];
  }

  lemma ReportKeepsCascade(c: Chain, i: nat)
    requires Marked(c) && Cascade(c) && Called(c) && i < |c.status| && !c.reported[i]
    ensures |Started(c, i).status| == |Started(c, i).reported| && Cascade(Started(c, i))
  {
    var n := |c.status|;
    var d := Started(c, i);
    if i + 2 < n {
      NotLast(c, i);
    }
    hide Marked, Called, AllStarted;
    forall j | 0 <= j < n - 2 ensures d.reported[j] <==> j + 1 in d.calls {
      assert c.reported[j] <==> j + 1 in c.calls;
    }
  }

  lemma ReportKeepsCalled(c: Chain, i: nat)
    requires Marked(c) && Cascade(c) && Called(c) && i < |c.status| && !c.reported[i] && i in c.calls
    ensures |Started(c, i).status| == |Started(c, i).reported| >= 2 && Called(Started(c, i))
  {
    var d := Started(c, i);
    if i + 2 < |c.status| {
      NotLast(c, i);
    }
    hide Marked, Cascade, AllStarted;
    assert forall j :: j in c.calls ==> j in d.calls;
  }

  lemma ReportKeepsSignalled(c: Chain, i: nat)
    requires Marked(c) && Signalled(c) && i < |c.status| && !c.reported[i]
    ensures Marked(Started(c, i)) && Signalled(Started(c, i))
  {
    var n := |c.status|;
    var d := Started(c, i);
    ReportKeepsMarked(c, i);
    if AllStarted(c) {
      assert c.status[i];
      assert AllStarted(d);
    }
    if AllReported(d) {
      assert forall j :: 0 <= j < n ==> d.reported[j] ==> d.status[j];
      assert AllStarted(d);
    }
  }

  lemma MarkTopKeepsSignalled(c: Chain)
    requires Marked(c) && Signalled(c)
    ensures var d := Step(c, MarkTop); Marked(d) && Signalled(d) && d.calls == c.calls && d.reported == c.reported
  {
    var d := Step(c, MarkTop);
    if AllStarted(c) {
      assert AllStarted(d);
    }
    if AllReported(d) {
      assert AllReported(c);
      assert AllStarted(d);
    }
  }

  lemma SameCalls(c: Chain, d: Chain)
    requires |c.status| == |d.status| == |c.reported| >= 2 && c.calls == d.calls && c.reported == d.reported
    requires Cascade(c) && Called(c)
    ensures Cascade(d) && Called(d)
  {
  }

  lemma StepKeeps(c: Chain, e: Event)
    requires Inv(c) && Legal(c, e)
    ensures Inv(Step(c, e)) && |Step(c, e).status| == |c.status|
  {
    hide Cascade, Called, Signalled, AllStarted, Marked;
    match e
    case Report(i) =>
      ReportKeepsMarked(c, i);
      ReportKeepsCascade(c, i);
      ReportKeepsCalled(c, i);
      ReportKeepsSignalled(c, i);
    case MarkTop =>
      MarkTopKeepsSignalled(c);
      SameCalls(c, Step(c, e));
  }

  lemma {:induction false} RunKeeps(n: nat, cs: seq<Chain>, es: seq<Event>)
    requires n >= 2 && IsRun(cs, es) && cs[0] == Begin(n)
    ensures Inv(cs[|es|]) && |cs[|es|].status| == n
    decreases |es|
  {
    hide Inv;
    if es == [] {
      BeginInv(n);
    } else {
      RunKeeps(n, cs[..|es|], es[..|es| - 1]);
      StepKeeps(cs[|es| - 1], es[|es| - 1]);
    }
  }

  // ---------------------------------------------------------------- how often completion is signalled

  ghost predicate OthersReported(c: Chain) { forall i :: 0 <= i < |c.reported| - 1 ==> c.reported[i] }

  /** The last of the other modules reports when the HBA module is marked and has not reported. */
  ghost predicate Early(c: Chain, e: Event)
    requires Legal(c, e)
  {
    var n := |c.status|;
    e.Report? && e.i < n - 1 && c.status[n - 1] && !c.reported[n - 1] && OthersReported(Step(c, e))
  }

  lemma AllMeansOthers(c: Chain)
    requires |c.reported| >= 2
    ensures AllReported(c) <==> OthersReported(c) && c.reported[|c.reported| - 1]
  {
  }

  /** Signals of a report: the HBA is marked and all others have reported. */
  lemma ReportSignals(c: Chain, i: nat)
    requires Marked(c) && i < |c.status| && (i == |c.status| - 1 ==> c.status[i])
    ensures var d := Started(c, i);
      d.signals == c.signals + if d.status[|c.status| - 1] && OthersReported(d) then 1 else 0
  {
    ReportKeepsMarked(c, i);
    var d := c.(status := c.status[i := true], reported := c.reported[i := true]);
    assert AllStarted(d) <==> d.status[|d.status| - 1] && OthersReported(d) by {
      assert forall k :: 0 <= k < |d.status| - 1 ==> d.status[k] == d.reported[k];
    }
  }

  lemma StepSignals(c: Chain, e: Event)
    requires Inv(c) && Legal(c, e)
    ensures var d := Step(c, e);
      && d.signals == c.signals + (if Early(c, e) then 1 else 0) + (if AllReported(d) && !AllReported(c) then 1 else 0)
      && (AllReported(c) ==> AllReported(d)) && (OthersReported(c) ==> OthersReported(d))
      && (Early(c, e) ==> !OthersReported(c))
  {
    hide AllStarted, Called, Cascade, Signalled;
    if e.Report? {
      ReportSignals(c, e.i);
      ReportKeepsMarked(c, e.i);
      AllMeansOthers(c);
      AllMeansOthers(Step(c, e));
      assert Step(c, e).reported == c.reported[e.i := true];
      if e.i < |c.status| - 1 {
        assert !c.reported[e.i];
      }
    }
  }

  /**
   Exact count over every run: one signal if the last of the other modules reported after the
   HBA was marked and before the HBA reported, and one if all have reported.
   */
  lemma {:induction false} SignalsExactly(n: nat, cs: seq<Chain>, es: seq<Event>)
    requires n >= 2 && IsRun(cs, es) && cs[0] == Begin(n)
    ensures cs[|es|].signals
         == (if EarlyIn(cs, es) then 1 else 0) + (if AllReported(cs[|es|]) then 1 else 0)
    ensures EarlyIn(cs, es) ==> OthersReported(cs[|es|])
    decreases |es|
  {
    if es == [] {
      assert !cs[0].reported[0];
    } else {
      var m := |es| - 1;
      var bs, ds := cs[..|es|], es[..m];
      RunKeeps(n, bs, ds);
      SignalsExactly(n, bs, ds);
      StepSignals(cs[m], es[m]);
      hide Inv, Early, AllReported, OthersReported, Step, Legal;
      assert EarlyIn(cs, es) <==> EarlyIn(bs, ds) || Early(cs[m], es[m]) by {
        EarlyPrefix(cs, es);
      }
    }
  }

  ghost predicate EarlyIn(cs: seq<Chain>, es: seq<Event>)
    requires IsRun(cs, es)
  {
    exists i :: 0 <= i < |es| && Early(cs[i], es[i])
  }

  lemma EarlyPrefix(cs: seq<Chain>, es: seq<Event>)
    requires IsRun(cs, es) && es != []
    ensures EarlyIn(cs, es) <==> EarlyIn(cs[..|es|], es[..|es| - 1]) || Early(cs[|es| - 1], es[|es| - 1])
  {
    hide Early;
    var bs, ds := cs[..|es|], es[..|es| - 1];
    assert forall i :: 0 <= i < |ds| ==> bs[i] == cs[i] && ds[i] == es[i];
  }

  /**
   In every run over a chain of any length: a module between core and HBA is started when, and
   only when, the module below it has reported, and once; completion is signalled only when all
   are started; once all have reported it was signalled twice if the last of the others reported
   between the marking of the HBA and its report, and once otherwise.
   */
  lemma CascadeOverRuns(n: nat, cs: seq<Chain>, es: seq<Event>)
    requires n >= 2 && IsRun(cs, es) && cs[0] == Begin(n)
    ensures var c := cs[|es|];
      && |c.status| == |c.reported| == n
      && (forall i :: 0 <= i < n - 2 ==> (c.reported[i] <==> i + 1 in c.calls))
      && n - 1 in c.calls && 0 in c.calls && Distinct(c.calls)
      && (c.signals > 0 ==> AllStarted(c))
      && (AllReported(c) ==> c.signals == if EarlyIn(cs, es) then 2 else 1)
  {
    RunKeeps(n, cs, es);
    SignalsExactly(n, cs, es);
  }

  /** The start never gets stuck: while a module has not reported, one that has not is running, or the HBA is to be marked. */
  lemma {:induction false} SomebodyIsNext(c: Chain, k: nat)
    requires Inv(c) && k < |c.status| && !c.reported[k]
    ensures exists i :: 0 <= i <= k && (Legal(c, Report(i)) || (i == |c.status| - 1 && !c.status[i]))
    decreases k
  {
    var n := |c.status|;
    if k == 0 || k == n - 1 || c.reported[k - 1] {
      assert k in c.calls;
      assert Legal(c, Report(k)) || (k == n - 1 && !c.status[k]);
    } else {
      SomebodyIsNext(c, k - 1);
    }
  }

  /** Two signals happen: the HBA module is marked, the last other module reports, then the HBA does. */
  lemma TwoSignals()
    ensures var c := Step(Step(Step(Begin(2), MarkTop), Report(0)), Report(1));
      c.signals == 2
  {
    var b := Begin(2);
    assert b.calls[0] == 1 && b.calls[1] == 0;
    var m := Step(b, MarkTop);
    var r := Step(m, Report(0));
    assert AllStarted(r);
    assert AllStarted(Step(r, Report(1)));
  }

  // ---------------------------------------------------------------- the linked descriptors

  datatype Status = Registered | Inited | Running

  datatype ModuleId = Core | Raid | Cache | Hba

  class Descriptor {
    const id: ModuleId
    var status: Status
    var parent: Descriptor?
    var child: Descriptor?

    constructor (id: ModuleId)
      ensures this.id == id && status == Registered && parent == null && child == null
    {
      this.id := id;
      status := Registered;
      parent, child := null, null;
    }
  }

  /** `parent` leads up the modules of `s` and `child` down. */
  ghost predicate Linked(s: seq<Descriptor>)
    reads s
  {
    && s != []
    && (forall i, j :: 0 <= i < j < |s| ==> s[i] != s[j])
    && (forall i :: 0 <= i < |s| - 1 ==> s[i].parent == s[i + 1])
    && s[|s| - 1].parent == null
    && (forall i :: 0 < i < |s| ==> s[i].child == s[i - 1])
    && s[0].child == null
  }

  /** Puts a new module on top of the chain. */
  method Register(id: ModuleId, prev: Descriptor, ghost s: seq<Descriptor>) returns (d: Descriptor)
    requires Linked(s) && prev == s[|s| - 1]
    modifies prev
    ensures fresh(d) && d.id == id && d.status == Registered && Linked(s + [d])
    ensures prev.status == old(prev.status)
  {
    d := new Descriptor(id);
    d.child := prev;
    prev.parent := d;
    ghost var t := s + [d];
    forall i | 0 < i < |t| ensures t[i].child == t[i - 1] {
      assert t[i - 1] == s[i - 1];
      assert i < |s| ==> t[i] == s[i] && s[i] != d && s[i].child == old(s[i].child);
    }
  }

  /** The online list read from its end: the chain from the core up. */
  function FromBelow(list: seq<Descriptor>): (s: seq<Descriptor>)
    ensures |s| == |list| && forall i :: 0 <= i < |s| ==> s[i] == list[|list| - 1 - i]
  {
    if list == [] then [] else FromBelow(list[1..]) + [list[0]]
  }

  /** A list of registered modules of these kinds, linked in its order. */
  ghost predicate Online(list: seq<Descriptor>, ids: seq<ModuleId>)
    reads list
  {
    && list != [] && |list| == |ids|
    && Linked(FromBelow(list))
    && forall i :: 0 <= i < |list| ==> list[i].status == Registered && list[i].id == ids[i]
  }

  /** Puts a new module at the head of the list and on top of the chain. */
  method RegisterNext(id: ModuleId, prev: seq<Descriptor>, ghost ids: seq<ModuleId>) returns (list: seq<Descriptor>)
    requires Online(prev, ids)
    modifies prev[0]
    ensures Online(list, [id] + ids) && fresh(list[0]) && list[1..] == prev
  {
    var d := Register(id, prev[0], FromBelow(prev));
    list := [d] + prev;
    assert list[1..] == prev;
    assert FromBelow(list) == FromBelow(prev) + [d];
    forall i | 0 <= i < |list| ensures list[i].status == Registered && list[i].id == ([id] + ids)[i] {
      assert i > 0 ==> list[i] == prev[i - 1];
    }
  }

  /**
   register_online_modules: `raid` and `cache` say which optional modules there are; in a
   non-RAID run neither is used.  `list` is the online list, which grows at its head.
   */
  method RegisterOnlineModules(nonRaid: bool, raid: bool, cache: bool) returns (list: seq<Descriptor>)
    ensures Online(list, [Hba] + (if cache && !nonRaid then [Cache] else []) + (if raid && !nonRaid then [Raid] else []) + [Core])
  {
    var core := new Descriptor(Core);
    list := [core];
    ghost var ids := [Core];
    assert Online(list, ids);
    hide Online;
    if !nonRaid {
      if raid {
        list := RegisterNext(Raid, list, ids);
        ids := [Raid] + ids;
      }
      if cache {
        list := RegisterNext(Cache, list, ids);
        ids := [Cache] + ids;
      }
    }
    list := RegisterNext(Hba, list, ids);
    ids := [Hba] + ids;
    assert ids == [Hba] + (if cache && !nonRaid then [Cache] else []) + (if raid && !nonRaid then [Raid] else []) + [Core];
  }

  /** __get_lowest_module, from any module of the chain. */
  method GetLowest(any: Descriptor, ghost s: seq<Descriptor>, ghost k: nat) returns (p: Descriptor)
    requires Linked(s) && k < |s| && any == s[k]
    ensures p == s[0]
  {
    p := any;
    ghost var i := k;
    while p.child != null
      invariant 0 <= i <= k && p == s[i]
      invariant p.child == if i > 0 then s[i - 1] else null
      decreases i
    {
      p := p.child;
      i := i - 1;
    }
  }

  /** __get_highest_module. */
  method GetHighest(any: Descriptor, ghost s: seq<Descriptor>, ghost k: nat) returns (p: Descriptor)
    requires Linked(s) && k < |s| && any == s[k]
    ensures p == s[|s| - 1]
  {
    p := any;
    ghost var i := k;
    while p.parent != null
      invariant k <= i < |s| && p == s[i]
      invariant p.parent == if i + 1 < |s| then s[i + 1] else null
      decreases |s| - i
    {
      p := p.parent;
      i := i + 1;
    }
  }

  /** __mv_is_mod_all_started. */
  method IsAllStarted(any: Descriptor, ghost s: seq<Descriptor>, ghost k: nat) returns (all: bool)
    requires Linked(s) && k < |s| && any == s[k]
    ensures all <==> forall i :: 0 <= i < |s| ==> s[i].status == Running
  {
    var p: Descriptor? := GetLowest(any, s, k);
    ghost var i := 0;
    while p != null
      invariant i <= |s| && p == (if i < |s| then s[i] else null)
      invariant forall j :: 0 <= j < i ==> s[j].status == Running
      decreases |s| - i
    {
      assert s[i].parent == if i + 1 < |s| then s[i + 1] else null;
      if p.status != Running {
        return false;
      }
      p := p.parent;
      i := i + 1;
    }
    return true;
  }

  ghost function Marks(s: seq<Descriptor>): (r: seq<bool>)
    reads s
    ensures |r| == |s|
  {
    if s == [] then [] else Marks(s[..|s| - 1]) + [s[|s| - 1].status == Running]
  }

  lemma {:induction false} MarkAt(s: seq<Descriptor>, i: nat)
    requires i < |s|
    ensures Marks(s)[i] == (s[i].status == Running)
  {
    if i < |s| - 1 {
      MarkAt(s[..|s| - 1], i);
    }
  }

  lemma MarksAt(s: seq<Descriptor>)
    ensures forall i :: 0 <= i < |s| ==> Marks(s)[i] == (s[i].status == Running)
  {
    forall i | 0 <= i < |s| ensures Marks(s)[i] == (s[i].status == Running) {
      MarkAt(s, i);
    }
  }

  /**
   HBA_ModuleStarted on the descriptors: it marks module `k` and answers with the step of the
   protocol, a signal or the module to start.
   */
  method ModuleStarted(d: Descriptor, ghost s: seq<Descriptor>, ghost k: nat, ghost c: Chain)
    returns (signal: bool, start: Descriptor?)
    requires Linked(s) && |s| >= 2 && k < |s| && d == s[k]
    requires c.status == Marks(s) && |c.reported| == |s|
    modifies d`status
    ensures Linked(s) && d.status == Running
    ensures Started(c, k).status == Marks(s)
    ensures signal <==> Started(c, k).signals == c.signals + 1
    ensures start != null <==> |Started(c, k).calls| == |c.calls| + 1
    ensures start != null ==> exists i :: 0 <= i < |s| && start == s[i] && Started(c, k).calls == c.calls + [i]
  {
    hide Marks;
    MarksAt(s);
    d.status := Running;
    MarksAt(s);
    assert Marks(s) == c.status[k := true];
    assert s[k].parent == if k + 1 < |s| then s[k + 1] else null;
    assert k + 1 < |s| ==> s[k + 1].parent == if k + 2 < |s| then s[k + 2] else null;
    signal := IsAllStarted(d, s, k);
    start := null;
    if !signal && d.parent != null {
      if d.parent.parent != null {
        start := d.parent;
        assert start == s[k + 1];
      }
    }
  }

  /** The modules from `i` up that `marks` says are running, highest first. */
  function RunningDown(s: seq<Descriptor>, marks: seq<bool>, i: nat): (r: seq<Descriptor>)
    requires |s| == |marks|
    decreases |s| - i
  {
    if i >= |s| then [] else RunningDown(s, marks, i + 1) + if marks[i] then [s[i]] else []
  }

  /** An earlier module of `r` stands higher in the chain `s` than a later one. */
  ghost predicate FromTheTop(s: seq<Descriptor>, r: seq<Descriptor>) {
    forall i, j, p, q :: 0 <= i < j < |r| && 0 <= p < |s| && 0 <= q < |s| && r[i] == s[p] && r[j] == s[q] ==> p > q
  }

  /** The running modules, each once, highest first. */
  lemma {:induction false} RunningDownMeans(s: seq<Descriptor>, marks: seq<bool>, i: nat)
    requires |s| == |marks| && Distinct(s)
    ensures var r := RunningDown(s, marks, i);
      && (forall p :: 0 <= p < |s| ==> (s[p] in r <==> p >= i && marks[p]))
      && (forall d <- r :: d in s)
      && FromTheTop(s, r)
    decreases |s| - i
  {
    if i < |s| {
      RunningDownMeans(s, marks, i + 1);
    }
  }

  /** One pass of the loop. */
  method StopOne(p: Descriptor) returns (stopped: seq<Descriptor>)
    modifies p`status
    ensures p.status == if old(p.status) == Running then Inited else old(p.status)
    ensures stopped == if old(p.status) == Running then [p] else []
  {
    stopped := [];
    if p.status == Running {
      stopped := [p];
      p.status := Inited;
    }
  }

  /** __hba_module_stop: started modules are stopped from the top down, and only they. */
  method StopAll(any: Descriptor, ghost s: seq<Descriptor>, ghost k: nat) returns (stopped: seq<Descriptor>)
    requires Linked(s) && k < |s| && any == s[k]
    modifies s`status
    ensures Linked(s)
    ensures forall i :: 0 <= i < |s| ==> s[i].status == if old(s[i].status) == Running then Inited else old(s[i].status)
    ensures stopped == RunningDown(s, old(Marks(s)), 0)
    ensures forall p :: 0 <= p < |s| ==> (s[p] in stopped <==> old(s[p].status) == Running)
    ensures FromTheTop(s, stopped)
  {
    hide Marks;
    MarksAt(s);
    ghost var marks := Marks(s);
    var p: Descriptor? := GetHighest(any, s, k);
    stopped := [];
    ghost var i := |s|;
    while p != null
      invariant 0 <= i <= |s| && p == (if i > 0 then s[i - 1] else null)
      invariant forall j :: i <= j < |s| ==> s[j].status == if old(s[j].status) == Running then Inited else old(s[j].status)
      invariant forall j :: 0 <= j < i ==> s[j].status == old(s[j].status)
      invariant stopped == RunningDown(s, marks, i)
      decreases i
    {
      var more := StopOne(p);
      stopped := stopped + more;
      p := p.child;
      i := i - 1;
    }
    RunningDownMeans(s, marks, 0);
    hide FromTheTop;
  }
}
