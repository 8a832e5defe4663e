/** The two implementations of a tag pool side by side, and tags in the hands of their users. */
module TagService {
  import opened Common
  import opened Tags

  // ---------------------------------------------------------------- side by side

  /** Two pools of one size and kind, with the same tags to hand out. */
  ghost predicate Twins(a: TunedTagStack, b: TagStack)
    reads a, a.stack, b, b.stack
  {
    && a.Valid() && b.Valid() && a.Contents() == b.Contents()
    && a.size == b.size && a.fifo == b.fifo && a.stack != b.stack
  }

  /** What a caller of the specified pool is given for `ops`, and the tags then left. */
  datatype Service = Service(answers: seq<Option<nat>>, left: seq<nat>)

  /** One call: `None` asks for a tag and is answered with none if there is none; `Some(t)` releases `t`, if there is room. */
  function Served(s: Service, size: nat, op: Option<nat>, fifo: bool): Service {
    match op
    case None => if s.left == [] then Service(s.answers + [None], []) else Service(s.answers + [Some(s.left[0])], s.left[1..])
    case Some(tag) => if |s.left| < size then s.(left := Released(s.left, tag, fifo)) else s
  }

  function Serve(size: nat, ops: seq<Option<nat>>, fifo: bool): Service {
    if ops == [] then Service([], Filled(size)) else Served(Serve(size, ops[..|ops| - 1], fifo), size, ops[|ops| - 1], fifo)
  }

  /** Every request is answered, in order. */
  lemma {:induction false} ServesEach(size: nat, ops: seq<Option<nat>>, fifo: bool)
    ensures |Serve(size, ops, fifo).answers| == Count(ops, None)
    ensures |Serve(size, ops, fifo).left| <= size
  {
    if ops != [] {
      ServesEach(size, ops[..|ops| - 1], fifo);
      assert ops == ops[..|ops| - 1] + [ops[|ops| - 1]];
      CountSnoc(ops[..|ops| - 1], ops[|ops| - 1], None);
    } else {
      CountSmall<Option<nat>>(None, None);
    }
  }

  /** The tags handed out, in order, and those that were released and taken back. */
  function HandedOut(answers: seq<Option<nat>>): seq<nat> {
    if answers == [] then []
    else HandedOut(answers[..|answers| - 1]) + match answers[|answers| - 1] case None => [] case Some(tag) => [tag]
  }

  function TakenBack(size: nat, ops: seq<Option<nat>>, fifo: bool): seq<nat> {
    if ops == [] then []
    else
      var n := |ops| - 1;
      TakenBack(size, ops[..n], fifo)
      + if ops[n].Some? && |Serve(size, ops[..n], fifo).left| < size then [ops[n].value] else []
  }

  lemma HandedOutSnoc(answers: seq<Option<nat>>, a: Option<nat>)
    ensures HandedOut(answers + [a]) == HandedOut(answers) + match a case None => [] case Some(tag) => [tag]
  {
    assert (answers + [a])[..|answers|] == answers;
  }

  /** One call keeps what was handed out and what is left together. */
  lemma ServedInOrder(s: Service, size: nat, op: Option<nat>)
    ensures var t := Served(s, size, op, true);
      HandedOut(t.answers) + t.left
      == HandedOut(s.answers) + s.left + if op.Some? && |s.left| < size then [op.value] else []
  {
    if op.None? {
      HandedOutSnoc(s.answers, if s.left == [] then None else Some(s.left[0]));
      hide HandedOut;
      if s.left != [] {
        assert HandedOut(s.answers) + [s.left[0]] + s.left[1..] == HandedOut(s.answers) + s.left;
      }
    }
    hide HandedOut;
  }

  /** First in, first out: what was handed out, then what is left, is what there was and then came back, in order. */
  lemma {:induction false} FirstInFirstOut(size: nat, ops: seq<Option<nat>>)
    ensures var s := Serve(size, ops, true);
      HandedOut(s.answers) + s.left == Upto(size) + TakenBack(size, ops, true)
  {
    hide HandedOut, Served;
    if ops == [] {
      NothingHandedOut();
    } else {
      var n := |ops| - 1;
      FirstInFirstOut(size, ops[..n]);
      ServedInOrder(Serve(size, ops[..n], true), size, ops[n]);
    }
  }

  lemma NothingHandedOut()
    ensures HandedOut([]) == []
  {
  }

  /** Last in, first out: a tag taken back is the next to be handed out, and the others are as before. */
  lemma LastInFirstOut(size: nat, ops: seq<Option<nat>>, tag: nat)
    requires |Serve(size, ops, false).left| < size
    ensures var s, t := Serve(size, ops, false), Serve(size, ops + [Some(tag), None], false);
      t.answers == s.answers + [Some(tag)] && t.left == s.left
  {
    var once := ops + [Some(tag)];
    assert once[..|ops|] == ops && (once + [None])[..|once|] == once;
    assert ops + [Some(tag), None] == once + [None];
  }

  method TakeBoth(a: TunedTagStack, b: TagStack) returns (tuned: Option<nat>, plain: Option<nat>)
    requires Twins(a, b)
    modifies a`top, b`top, b`ptrOut
    ensures Twins(a, b)
    ensures if old(a.Contents()) == [] then tuned == plain == None && a.Contents() == []
            else tuned == plain == Some(old(a.Contents())[0]) && a.Contents() == old(a.Contents())[1..]
  {
    hide TunedTagStack.Valid, TunedTagStack.Contents, TagStack.Valid, TagStack.Contents;
    ghost var before := a.Contents();
    tuned, plain := None, None;
    var emptyA := a.IsEmpty();
    if !emptyA {
      var t := a.GetOne();
      assert t == before[0] && a.Contents() == before[1..];
      tuned := Some(t);
    }
    var emptyB := b.IsEmpty();
    if !emptyB {
      var p := b.GetOne();
      assert p == before[0] && b.Contents() == before[1..];
      plain := Some(p);
    }
  }

  method GiveBoth(a: TunedTagStack, b: TagStack, tag: nat)
    requires Twins(a, b) && |a.Contents()| < a.size
    modifies a`top, a`ptrOut, a.stack, b`top, b.stack
    ensures Twins(a, b) && a.Contents() == Released(old(a.Contents()), tag, a.fifo)
  {
    hide TunedTagStack.Valid, TunedTagStack.Contents, TagStack.Valid, TagStack.Contents;
    a.ReleaseOne(tag);
    b.ReleaseOne(tag);
  }

  /** Both pools, each asked for itself, answer every call as specified, and are empty together when the specified one is. */
  method Lockstep(size: nat, fifo: bool, ops: seq<Option<nat>>)
    returns (tuned: seq<Option<nat>>, plain: seq<Option<nat>>, tunedEmpty: bool, plainEmpty: bool)
    requires size <= MIRROR
    ensures tuned == plain == Serve(size, ops, fifo).answers
    ensures tunedEmpty == plainEmpty == (Serve(size, ops, fifo).left == [])
  {
    hide TunedTagStack.Valid, TunedTagStack.Contents, TagStack.Valid, TagStack.Contents;
    var a := new TunedTagStack.Init(size, fifo);
    var b := new TagStack.Init(size, fifo);
    tuned, plain := [], [];
    var room := 0;
    var k := 0;
    assert Twins(a, b);
    assert ops[..0] == [];
    while k < |ops|
      invariant k <= |ops| && fresh(a) && fresh(a.stack) && fresh(b) && fresh(b.stack)
      invariant Twins(a, b) && a.size == size && a.fifo == fifo
      invariant tuned == plain && Serve(size, ops[..k], fifo) == Service(tuned, a.Contents())
      invariant room + |a.Contents()| == size
    {
      assert ops[..k + 1][..k] == ops[..k];
      if ops[k].None? {
        var t, p := TakeBoth(a, b);
        tuned, plain := tuned + [t], plain + [p];
        if t.Some? {
          room := room + 1;
        }
      } else if room > 0 {
        GiveBoth(a, b, ops[k].value);
        room := room - 1;
      }
      k := k + 1;
    }
    assert ops[..k] == ops;
    tunedEmpty := a.IsEmpty();
    plainEmpty := b.IsEmpty();
  }

  // ---------------------------------------------------------------- tags in use

  /** A pool together with the tags its users have. */
  datatype Pool = Pool(avail: seq<nat>, held: seq<nat>)

  /** `Take` gets a tag; `Give(j)` releases the j-th one held. */
  datatype Op = Take | Give(j: nat)

  function Do(p: Pool, op: Op, fifo: bool): Pool {
    match op
    case Take => if p.avail == [] then p else Pool(p.avail[1..], p.held + [p.avail[0]])
    case Give(j) => if j >= |p.held| then p else Pool(Released(p.avail, p.held[j], fifo), DropAt(p.held, j))
  }

  function DoAll(p: Pool, ops: seq<Op>, fifo: bool): Pool {
    if ops == [] then p else Do(DoAll(p, ops[..|ops| - 1], fifo), ops[|ops| - 1], fifo)
  }

  /** Users that release only what they hold never get a tag somebody holds; nor is a tag lost. */
  lemma {:induction false} EveryTagOnce(size: nat, ops: seq<Op>, fifo: bool, tag: nat)
    ensures var p := DoAll(Pool(Filled(size), []), ops, fifo);
      Count(p.avail, tag) + Count(p.held, tag) == if tag < size then 1 else 0
  {
    if ops == [] {
      CountUpto(size, tag);
    } else {
      EveryTagOnce(size, ops[..|ops| - 1], fifo, tag);
      hide Sum;
      var p := DoAll(Pool(Filled(size), []), ops[..|ops| - 1], fifo);
      match ops[|ops| - 1] {
        case Take =>
          if p.avail != [] {
            SumHead(p.avail, Same, tag);
            CountSnoc(p.held, p.avail[0], tag);
          }
        case Give(j) =>
          if j < |p.held| {
            SumDrop(p.held, j, Same, tag);
            CountSnoc(p.avail, p.held[j], tag);
            SumConcat([p.held[j]], p.avail, Same, tag);
            CountSmall(p.held[j], tag);
          }
      }
    }
  }
}
