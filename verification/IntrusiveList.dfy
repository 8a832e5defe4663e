/**
 The doubly linked rings of include/com_list.c.  A ring is described by the sequence of its
 nodes from any one of them on; a list is a ring seen from its head, which holds no entry.
 */
module IntrusiveList {
  import opened Common

  class ListHead {
    var prev: ListHead?
    var next: ListHead?

    /** MV_LIST_HEAD_INIT. */
    constructor ()
      ensures IsRing([this])
    {
      new;
      prev, next := this, this;
    }
  }

  function After(i: nat, n: nat): nat
    requires i < n
  {
    if i + 1 == n then 0 else i + 1
  }

  /** `next` goes round the nodes of `s` in order, and `prev` goes round the other way. */
  ghost predicate IsRing(s: seq<ListHead>)
    reads s
  {
    && s != []
    && (forall i, j :: 0 <= i < j < |s| ==> s[i] != s[j])
    && (forall i :: 0 <= i < |s| ==> s[i].next == s[After(i, |s|)])
    && (forall i :: 0 <= i < |s| ==> s[After(i, |s|)].prev == s[i])
  }

  /** The list with head `h` has the entries `xs`. */
  ghost predicate IsList(h: ListHead, xs: seq<ListHead>)
    reads h, xs
  {
    IsRing([h] + xs)
  }

  /** A ring may be read from any of its nodes. */
  lemma Rotate(s: seq<ListHead>, k: nat)
    requires IsRing(s) && k < |s|
    ensures IsRing(s[k..] + s[..k])
  {
    var t := s[k..] + s[..k];
    var n := |s|;
    forall i | 0 <= i < n ensures t[i].next == t[After(i, n)] && t[After(i, n)].prev == t[i] {
      var a := if i < n - k then i + k else i + k - n;
      assert t[i] == s[a];
      assert t[After(i, n)] == s[After(a, n)];
    }
  }

  // ---------------------------------------------------------------- the two primitives

  /** The sequence with `x` put in after position `k`. */
  function InsertAfter<T>(s: seq<T>, k: nat, x: T): (t: seq<T>)
    requires k < |s|
    ensures |t| == |s| + 1 && t[k + 1] == x
    ensures forall i :: 0 <= i <= k ==> t[i] == s[i]
    ensures forall i :: k + 1 < i < |t| ==> t[i] == s[i - 1]
  {
    s[..k + 1] + [x] + s[k + 1..]
  }

  /** __List_Add between node `k` of the ring and the node after it. */
  method AddBetween(newOne: ListHead, prev: ListHead, next: ListHead, ghost s: seq<ListHead>, ghost k: nat)
    requires IsRing(s) && k < |s| && newOne !in s
    requires prev == s[k] && next == s[After(k, |s|)]
    modifies newOne, prev, next
    ensures IsRing(InsertAfter(s, k, newOne))
  {
    next.prev := newOne;
    newOne.next := next;
    newOne.prev := prev;
    prev.next := newOne;
    ghost var t := InsertAfter(s, k, newOne);
    hide InsertAfter;
    ghost var n := |t|;
    forall i | 0 <= i < n ensures t[i].next == t[After(i, n)] && t[After(i, n)].prev == t[i] {
      if i < k {
        assert t[i] == s[i] && t[i + 1] == s[i + 1];
      } else if i == k {
        assert t[i] == prev && t[i + 1] == newOne;
      } else if i == k + 1 {
        assert t[i] == newOne && t[After(i, n)] == next;
      } else {
        assert t[i] == s[i - 1] && t[After(i, n)] == s[After(i - 1, |s|)];
      }
    }
    forall i, j | 0 <= i < j < n ensures t[i] != t[j] {
      assert i != k + 1 ==> t[i] == s[if i <= k then i else i - 1];
      assert j != k + 1 ==> t[j] == s[if j <= k then j else j - 1];
    }
  }

  /** Where position `i` was before position `k` was dropped. */
  function Origin(i: nat, k: nat): nat { if i < k then i else i + 1 }

  lemma AfterDrop(n: nat, k: nat, i: nat)
    requires k < n && i + 1 < n
    ensures Origin(After(i, n - 1), k) == if After(Origin(i, k), n) == k then After(k, n) else After(Origin(i, k), n)
  {
  }

  /** __List_Del around node `k` of a ring of two or more. */
  method Unlink(prev: ListHead, next: ListHead, ghost s: seq<ListHead>, ghost k: nat)
    requires IsRing(s) && |s| > 1 && k < |s|
    requires prev == s[k].prev && next == s[k].next
    modifies prev, next
    ensures IsRing(DropAt(s, k))
    ensures s[k].prev == old(s[k].prev) && s[k].next == old(s[k].next)
  {
    hide DropAt;
    ghost var n := |s|;
    ghost var before := if k == 0 then n - 1 else k - 1;
    assert After(before, n) == k && prev == s[before];
    next.prev := prev;
    prev.next := next;
    ghost var t := DropAt(s, k);
    forall i | 0 <= i < n - 1 ensures t[i].next == t[After(i, n - 1)] && t[After(i, n - 1)].prev == t[i] {
      AfterDrop(n, k, i);
      assert t[i] == s[Origin(i, k)] && t[After(i, n - 1)] == s[Origin(After(i, n - 1), k)];
    }
  }

  // ---------------------------------------------------------------- single entries

  method Add(newOne: ListHead, head: ListHead, ghost xs: seq<ListHead>)
    requires IsList(head, xs) && newOne !in [head] + xs
    modifies newOne, head, head.next
    ensures IsList(head, [newOne] + xs)
  {
    ghost var s := [head] + xs;
    assert head.next == s[After(0, |s|)];
    AddBetween(newOne, head, head.next, s, 0);
    assert InsertAfter(s, 0, newOne) == [head] + ([newOne] + xs);
  }

  method AddTail(newOne: ListHead, head: ListHead, ghost xs: seq<ListHead>)
    requires IsList(head, xs) && newOne !in [head] + xs
    modifies newOne, head, head.prev
    ensures IsList(head, xs + [newOne])
  {
    ghost var s := [head] + xs;
    assert s[After(|s| - 1, |s|)].prev == s[|s| - 1];
    AddBetween(newOne, head.prev, head, s, |s| - 1);
    assert InsertAfter(s, |s| - 1, newOne) == [head] + (xs + [newOne]);
  }

  /** Removes entry `k`; its links are cleared. */
  method Del(entry: ListHead, ghost head: ListHead, ghost xs: seq<ListHead>, ghost k: nat)
    requires IsList(head, xs) && k < |xs| && entry == xs[k]
    modifies entry, entry.prev, entry.next
    ensures IsList(head, DropAt(xs, k)) && entry.prev == null && entry.next == null
  {
    UnlinkEntry(entry, head, xs, k);
    entry.next := null;
    entry.prev := null;
  }

  /** The neighbours of an entry are made neighbours of each other. */
  method UnlinkEntry(entry: ListHead, ghost head: ListHead, ghost xs: seq<ListHead>, ghost k: nat)
    requires IsList(head, xs) && k < |xs| && entry == xs[k]
    modifies entry.prev, entry.next
    ensures IsList(head, DropAt(xs, k)) && entry !in [head] + DropAt(xs, k)
  {
    ghost var s := [head] + xs;
    assert s[k + 1] == entry && s[After(k + 1, |s|)] == entry.next;
    assert s[k] == entry.prev by { assert s[After(k, |s|)] == entry; }
    Unlink(entry.prev, entry.next, s, k + 1);
    assert DropAt(s, k + 1) == [head] + DropAt(xs, k);
    assert forall i :: 0 <= i < |s| && i != k + 1 ==> s[i] != s[k + 1];
  }

  /** Removes entry `k` and leaves it a ring of its own. */
  method DelInit(entry: ListHead, ghost head: ListHead, ghost xs: seq<ListHead>, ghost k: nat)
    requires IsList(head, xs) && k < |xs| && entry == xs[k]
    modifies entry, entry.prev, entry.next
    ensures IsList(head, DropAt(xs, k)) && IsRing([entry])
  {
    UnlinkEntry(entry, head, xs, k);
    entry.next, entry.prev := entry, entry;
  }

  /** List_MoveTail within one list: the entry goes to its end. */
  method MoveToTail(entry: ListHead, head: ListHead, ghost xs: seq<ListHead>, ghost k: nat)
    requires IsList(head, xs) && k < |xs| && entry == xs[k]
    modifies head, xs
    ensures IsList(head, DropAt(xs, k) + [entry])
  {
    InTheList(head, xs, k);
    UnlinkEntry(entry, head, xs, k);
    ghost var ys := DropAt(xs, k);
    assert forall y <- ys :: y in xs;
    LastInTheList(head, ys);
    AddTail(entry, head, ys);
  }

  /** List_MoveTail from one list to another. */
  method MoveTail(entry: ListHead, head: ListHead, ghost from: ListHead, ghost xs: seq<ListHead>, ghost k: nat, ghost ys: seq<ListHead>)
    requires IsList(from, xs) && k < |xs| && entry == xs[k]
    requires IsList(head, ys) && forall x <- [from] + xs :: x !in [head] + ys
    modifies head, from, xs, ys
    ensures IsList(from, DropAt(xs, k)) && IsList(head, ys + [entry])
  {
    InTheList(from, xs, k);
    LastInTheList(head, ys);
    Separate(from, head, xs, ys);
    hide DropAt, IsRing;
    UnlinkEntry(entry, from, xs, k);
    AddTail(entry, head, ys);
  }

  /** The neighbours of an entry are the head or entries too. */
  lemma InTheList(head: ListHead, xs: seq<ListHead>, k: nat)
    requires IsList(head, xs) && k < |xs|
    ensures xs[k].next != null && xs[k].prev != null
    ensures xs[k].next == head || xs[k].next in xs
    ensures xs[k].prev == head || xs[k].prev in xs
  {
    var s := [head] + xs;
    assert s[k + 1] == xs[k];
    assert s[After(k, |s|)].prev == s[k];
    assert s[k + 1].next == s[After(k + 1, |s|)];
  }

  lemma LastInTheList(head: ListHead, xs: seq<ListHead>)
    requires IsList(head, xs)
    ensures head.prev != null && (head.prev == head || head.prev in xs)
    ensures head.next != null && (head.next == head || head.next in xs)
  {
    var s := [head] + xs;
    assert s[After(|s| - 1, |s|)].prev == s[|s| - 1];
    assert s[0].next == s[After(0, |s|)];
  }

  method Empty(head: ListHead, ghost xs: seq<ListHead>) returns (empty: bool)
    requires IsList(head, xs)
    ensures empty <==> xs == []
  {
    ghost var s := [head] + xs;
    assert s[0].next == s[After(0, |s|)];
    empty := head.next == head;
  }

  /** LIST_FOR_EACH with a counter. */
  method GetCount(head: ListHead, ghost xs: seq<ListHead>) returns (count: nat)
    requires IsList(head, xs)
    ensures count == |xs|
  {
    ghost var s := [head] + xs;
    assert s[0].next == s[After(0, |s|)];
    ShiftedByHead(head, xs);
    count := 0;
    var pos := head.next;
    while pos != head
      invariant count <= |xs|
      invariant pos == if count == |xs| then head else xs[count]
      decreases |xs| - count
    {
      assert pos == s[count + 1] && s[count + 1].next == s[After(count + 1, |s|)];
      count := count + 1;
      pos := pos.next;
    }
  }

  method GetFirst(head: ListHead, ghost xs: seq<ListHead>) returns (one: ListHead?)
    requires IsList(head, xs)
    modifies head, xs
    ensures if xs == [] then one == null && IsList(head, [])
            else one == xs[0] && one.next == null && one.prev == null && IsList(head, xs[1..])
  {
    var empty := Empty(head, xs);
    if empty {
      return null;
    }
    ghost var s := [head] + xs;
    assert s[0].next == s[After(0, |s|)];
    InTheList(head, xs, 0);
    one := head.next;
    Del(one, head, xs, 0);
    assert DropAt(xs, 0) == xs[1..];
  }

  method GetLast(head: ListHead, ghost xs: seq<ListHead>) returns (one: ListHead?)
    requires IsList(head, xs)
    modifies head, xs
    ensures if xs == [] then one == null && IsList(head, [])
            else one == xs[|xs| - 1] && one.next == null && one.prev == null && IsList(head, xs[..|xs| - 1])
  {
    var empty := Empty(head, xs);
    if empty {
      return null;
    }
    ghost var s := [head] + xs;
    assert s[After(|s| - 1, |s|)].prev == s[|s| - 1];
    InTheList(head, xs, |xs| - 1);
    one := head.prev;
    Del(one, head, xs, |xs| - 1);
    assert DropAt(xs, |xs| - 1) == xs[..|xs| - 1];
  }

  // ---------------------------------------------------------------- whole lists

  /** List_AddList: the entries of `list` go in front of those of `head`, and `list` is emptied. */
  method AddList(list: ListHead, head: ListHead, ghost xs: seq<ListHead>, ghost ys: seq<ListHead>)
    requires IsList(list, xs) && IsList(head, ys)
    requires forall x <- [list] + xs :: x !in [head] + ys
    modifies list, head, xs, ys
    ensures IsList(list, []) && IsList(head, xs + ys)
  {
    var empty := Empty(list, xs);
    assert xs == [] ==> xs + ys == ys;
    if !empty {
      Splice(list, head, xs, ys);
      list.next, list.prev := list, list;
    }
  }

  /** List_AddListTail: behind those of `head`. */
  method AddListTail(list: ListHead, head: ListHead, ghost xs: seq<ListHead>, ghost ys: seq<ListHead>)
    requires IsList(list, xs) && IsList(head, ys)
    requires forall x <- [list] + xs :: x !in [head] + ys
    modifies list, head, xs, ys
    ensures IsList(list, []) && IsList(head, ys + xs)
  {
    var empty := Empty(list, xs);
    assert xs == [] ==> ys + xs == ys;
    if !empty {
      SpliceTail(list, head, xs, ys);
      list.next, list.prev := list, list;
    }
  }

  /** Entries between themselves, without regard to what the two ends point to outside. */
  ghost predicate Chained(xs: seq<ListHead>)
    reads xs
  {
    && (forall i, j :: 0 <= i < j < |xs| ==> xs[i] != xs[j])
    && (forall i :: 0 <= i < |xs| - 1 ==> xs[i].next == xs[i + 1] && xs[i + 1].prev == xs[i])
  }

  lemma Chain(head: ListHead, xs: seq<ListHead>)
    requires IsList(head, xs)
    ensures Chained(xs) && head !in xs
    ensures xs != [] ==> head.next == xs[0] && xs[0].prev == head && head.prev == xs[|xs| - 1] && xs[|xs| - 1].next == head
    ensures xs == [] ==> head.next == head && head.prev == head
  {
    var s := [head] + xs;
    ShiftedByHead(head, xs);
    hide Chained;
    assert s[0].next == s[After(0, |s|)] && s[After(0, |s|)].prev == s[0];
    assert s[|xs|].next == s[After(|xs|, |s|)] && s[After(|xs|, |s|)].prev == s[|xs|];
    assert Chained(xs) by { ChainedTail(head, xs); }
  }

  lemma ShiftedByHead(head: ListHead, xs: seq<ListHead>)
    requires IsList(head, xs)
    ensures forall i :: 0 <= i < |xs| ==> xs[i] == ([head] + xs)[i + 1] && xs[i] != head
  {
    forall i | 0 <= i < |xs| ensures xs[i] != head {
      assert ([head] + xs)[0] != ([head] + xs)[i + 1];
    }
  }

  lemma ChainedTail(head: ListHead, xs: seq<ListHead>)
    requires IsList(head, xs)
    ensures Chained(xs)
  {
    var s := [head] + xs;
    forall i | 0 <= i < |xs| - 1 ensures xs[i].next == xs[i + 1] && xs[i + 1].prev == xs[i] {
      assert s[i + 1].next == s[After(i + 1, |s|)] && s[After(i + 1, |s|)].prev == s[i + 1];
    }
    forall i, j | 0 <= i < j < |xs| ensures xs[i] != xs[j] {
      assert s[i + 1] != s[j + 1];
    }
  }

  lemma Unchain(head: ListHead, xs: seq<ListHead>)
    requires Chained(xs) && head !in xs
    requires xs != [] ==> head.next == xs[0] && xs[0].prev == head && head.prev == xs[|xs| - 1] && xs[|xs| - 1].next == head
    requires xs == [] ==> head.next == head && head.prev == head
    ensures IsList(head, xs)
  {
    var s := [head] + xs;
    forall i | 0 <= i < |s| ensures s[i].next == s[After(i, |s|)] && s[After(i, |s|)].prev == s[i] {
      assert i > 0 ==> s[i] == xs[i - 1];
      assert After(i, |s|) > 0 ==> s[After(i, |s|)] == xs[i];
    }
  }

  /** Two chains become one when the last of the first and the first of the second are linked. */
  lemma ChainConcat(xs: seq<ListHead>, ys: seq<ListHead>)
    requires Chained(xs) && Chained(ys) && forall x <- xs :: x !in ys
    requires xs != [] && ys != [] ==> xs[|xs| - 1].next == ys[0] && ys[0].prev == xs[|xs| - 1]
    ensures Chained(xs + ys)
  {
    var s := xs + ys;
    forall i | 0 <= i < |s| - 1 ensures s[i].next == s[i + 1] && s[i + 1].prev == s[i] {
      if i >= |xs| {
        assert s[i] == ys[i - |xs|] && s[i + 1] == ys[i + 1 - |xs|];
      }
    }
    forall i, j | 0 <= i < j < |s| ensures s[i] != s[j] {
      if i < |xs| <= j {
        assert s[i] in xs && s[j] in ys;
      }
    }
  }

  /** __List_Splice. */
  method Splice(list: ListHead, head: ListHead, ghost xs: seq<ListHead>, ghost ys: seq<ListHead>)
    requires IsList(list, xs) && xs != [] && IsList(head, ys)
    requires forall x <- [list] + xs :: x !in [head] + ys
    modifies head, xs, ys
    ensures IsList(head, xs + ys) && list !in [head] + (xs + ys)
  {
    Chain(list, xs);
    Chain(head, ys);
    Separate(list, head, xs, ys);
    var first := list.next;
    var last := list.prev;
    var at := head.next;
    first.prev := head;
    head.next := first;
    last.next := at;
    at.prev := last;
    ChainConcat(xs, ys);
    Unchain(head, xs + ys);
  }

  /** __List_SpliceTail. */
  method SpliceTail(list: ListHead, head: ListHead, ghost xs: seq<ListHead>, ghost ys: seq<ListHead>)
    requires IsList(list, xs) && xs != [] && IsList(head, ys)
    requires forall x <- [list] + xs :: x !in [head] + ys
    modifies head, xs, ys
    ensures IsList(head, ys + xs) && list !in [head] + (ys + xs)
  {
    Chain(list, xs);
    Chain(head, ys);
    Separate(list, head, xs, ys);
    var first := list.next;
    var last := list.prev;
    var at := head.prev;
    first.prev := at;
    at.next := first;
    last.next := head;
    head.prev := last;
    ChainConcat(ys, xs);
    Unchain(head, ys + xs);
  }

  lemma Separate(list: ListHead, head: ListHead, xs: seq<ListHead>, ys: seq<ListHead>)
    requires IsList(list, xs) && IsList(head, ys)
    requires forall x <- [list] + xs :: x !in [head] + ys
    ensures list != head && list !in xs && list !in ys && head !in xs && head !in ys
    ensures forall x <- xs :: x !in ys
  {
    var s, t := [list] + xs, [head] + ys;
    assert s[0] == list && t[0] == head;
    assert forall i :: 0 <= i < |xs| ==> s[i + 1] == xs[i];
    assert forall i :: 0 <= i < |ys| ==> t[i + 1] == ys[i];
    assert list in s && forall x <- xs :: x in s;
    assert head in t && forall y <- ys :: y in t;
  }

  // ---------------------------------------------------------------- counted lists

  /** A head that keeps the number of its entries. */
  class CountedListHead {
    const link: ListHead
    var nodeCount: nat

    ghost predicate Counts(xs: seq<ListHead>)
      reads this, link, xs
    {
      IsList(link, xs) && nodeCount == |xs|
    }

    constructor ()
      ensures fresh(link) && Counts([])
    {
      link := new ListHead();
      nodeCount := 0;
    }

    /** Counted_List_Add. */
    method AddFirst(newOne: ListHead, ghost xs: seq<ListHead>)
      requires Counts(xs) && newOne !in [link] + xs
      modifies this, newOne, link, link.next
      ensures Counts([newOne] + xs)
    {
      Add(newOne, link, xs);
      nodeCount := nodeCount + 1;
    }

    /** Counted_List_Del of entry `k`. */
    method Delete(entry: ListHead, ghost xs: seq<ListHead>, ghost k: nat)
      requires Counts(xs) && k < |xs| && entry == xs[k]
      modifies this, entry, entry.prev, entry.next
      ensures Counts(DropAt(xs, k)) && entry.prev == null && entry.next == null
    {
      Del(entry, link, xs, k);
      nodeCount := nodeCount - 1;
    }

    method AddLast(newOne: ListHead, ghost xs: seq<ListHead>)
      requires Counts(xs) && newOne !in [link] + xs
      modifies this, newOne, link, link.prev
      ensures Counts(xs + [newOne])
    {
      AddTail(newOne, link, xs);
      nodeCount := nodeCount + 1;
    }

    method TakeFirst(ghost xs: seq<ListHead>) returns (one: ListHead?)
      requires Counts(xs)
      modifies this, link, xs
      ensures if xs == [] then one == null && Counts([]) else one == xs[0] && Counts(xs[1..])
    {
      if nodeCount == 0 {
        return null;
      }
      one := GetFirst(link, xs);
      nodeCount := nodeCount - 1;
    }

    method TakeLast(ghost xs: seq<ListHead>) returns (one: ListHead?)
      requires Counts(xs)
      modifies this, link, xs
      ensures if xs == [] then one == null && Counts([]) else one == xs[|xs| - 1] && Counts(xs[..|xs| - 1])
    {
      if nodeCount == 0 {
        return null;
      }
      one := GetLast(link, xs);
      nodeCount := nodeCount - 1;
    }

    /** Both ways of counting agree. */
    method Count(traverse: bool, ghost xs: seq<ListHead>) returns (count: nat)
      requires Counts(xs)
      ensures count == |xs|
    {
      if traverse {
        count := GetCount(link, xs);
      } else {
        count := nodeCount;
      }
    }

    /** Counted_List_AddList: an ordinary list goes in front. */
    method AddPlainList(list: ListHead, ghost xs: seq<ListHead>, ghost ys: seq<ListHead>)
      requires IsList(list, xs) && Counts(ys)
      requires forall x <- [list] + xs :: x !in [link] + ys
      modifies this, list, link, xs, ys
      ensures IsList(list, []) && Counts(xs + ys)
    {
      var n := GetCount(list, xs);
      AddList(list, link, xs, ys);
      nodeCount := nodeCount + n;
    }

    /** Counted_List_AddList_Tail: behind. */
    method AddPlainListTail(list: ListHead, ghost xs: seq<ListHead>, ghost ys: seq<ListHead>)
      requires IsList(list, xs) && Counts(ys)
      requires forall x <- [list] + xs :: x !in [link] + ys
      modifies this, list, link, xs, ys
      ensures IsList(list, []) && Counts(ys + xs)
    {
      var n := GetCount(list, xs);
      AddListTail(list, link, xs, ys);
      nodeCount := nodeCount + n;
    }

    /** List_AddCountedList: this list's entries go in front of those of an ordinary one. */
    method EmptyInto(head: ListHead, ghost xs: seq<ListHead>, ghost ys: seq<ListHead>)
      requires Counts(xs) && IsList(head, ys)
      requires forall x <- [link] + xs :: x !in [head] + ys
      modifies this, link, head, xs, ys
      ensures Counts([]) && IsList(head, xs + ys)
    {
      AddList(link, head, xs, ys);
      nodeCount := 0;
    }

    /** List_AddCountedList_Tail: behind them. */
    method EmptyIntoTail(head: ListHead, ghost xs: seq<ListHead>, ghost ys: seq<ListHead>)
      requires Counts(xs) && IsList(head, ys)
      requires forall x <- [link] + xs :: x !in [head] + ys
      modifies this, link, head, xs, ys
      ensures Counts([]) && IsList(head, ys + xs)
    {
      AddListTail(link, head, xs, ys);
      nodeCount := 0;
    }

    /** Counted_List_AddCountedList. */
    method AddCountedList(list: CountedListHead, ghost xs: seq<ListHead>, ghost ys: seq<ListHead>)
      requires list != this && list.Counts(xs) && Counts(ys)
      requires forall x <- [list.link] + xs :: x !in [link] + ys
      modifies this, list, list.link, link, xs, ys
      ensures list.Counts([]) && Counts(xs + ys)
    {
      AddList(list.link, link, xs, ys);
      nodeCount := nodeCount + list.nodeCount;
      list.nodeCount := 0;
    }

    /** Counted_List_AddCountedList_Tail. */
    method AddCountedListTail(list: CountedListHead, ghost xs: seq<ListHead>, ghost ys: seq<ListHead>)
      requires list != this && list.Counts(xs) && Counts(ys)
      requires forall x <- [list.link] + xs :: x !in [link] + ys
      modifies this, list, list.link, link, xs, ys
      ensures list.Counts([]) && Counts(ys + xs)
    {
      AddListTail(list.link, link, xs, ys);
      nodeCount := nodeCount + list.nodeCount;
      list.nodeCount := 0;
    }
  }

  // ---------------------------------------------------------------- fan-out over a ring without a head

  /** A completion routine: the request may be reused at once, so its links may become anything. */
  method Complete(request: ListHead)
    modifies request
  {
    var any: ListHead? := *;
    request.next, request.prev := any, any;
  }

  /** The first member is taken off and completed; the others stay linked whatever becomes of it. */
  method CompleteFirst(q: ListHead, ghost rest: seq<ListHead>, ghost members: seq<ListHead>) returns (external: ListHead)
    requires IsList(q, rest) && rest != []
    requires q in members && forall i :: 0 <= i < |rest| ==> rest[i] in members
    modifies members
    ensures external == rest[0] && IsList(q, rest[1..])
  {
    ghost var s := [q] + rest;
    ghost var t := [q] + rest[1..];
    forall i | 0 <= i < |t| ensures t[i] != rest[0] {
      assert t[i] == s[if i == 0 then 0 else i + 1] && rest[0] == s[1];
    }
    external := GetFirst(q, rest);
    Complete(external);
  }

  /** The last member, one step back from the first, is the head of a list of the others. */
  method LastAsHead(first: ListHead, ghost members: seq<ListHead>) returns (q: ListHead)
    requires IsRing(members) && first == members[0]
    ensures q == members[|members| - 1] && IsList(q, members[..|members| - 1])
  {
    ghost var n := |members|;
    Rotate(members, n - 1);
    assert members[n - 1..] + members[..n - 1] == [members[n - 1]] + members[..n - 1];
    assert members[After(n - 1, n)].prev == members[n - 1];
    q := first.prev;
  }

  lemma RestAmong(members: seq<ListHead>, visited: seq<ListHead>, rest: seq<ListHead>)
    requires members != [] && visited + rest == members[..|members| - 1]
    ensures forall i :: 0 <= i < |rest| ==> rest[i] in members
    ensures members[|members| - 1] in members
  {
    forall i | 0 <= i < |rest| ensures rest[i] in members {
      assert rest[i] == (visited + rest)[|visited| + i] == members[|visited| + i];
    }
  }

  /**
   The fan-out of ModConsolid_RequestCallBack: from the first member the last is found, and it
   serves as the head of a list of the others, which are taken off and completed one by one.
   No link of a completed request is read again.
   */
  method FanOut(first: ListHead, ghost members: seq<ListHead>) returns (visited: seq<ListHead>)
    requires members != [] && IsRing(members) && first == members[0]
    modifies members
    ensures visited == members
  {
    hide IsList, IsRing;
    var q := LastAsHead(first, members);
    ghost var rest := members[..|members| - 1];
    RestAmong(members, [], rest);
    visited := [];
    var empty := Empty(q, rest);
    while !empty
      invariant q == members[|members| - 1] && IsList(q, rest) && empty == (rest == [])
      invariant visited + rest == members[..|members| - 1]
      decreases |rest|
    {
      RestAmong(members, visited, rest);
      var external := CompleteFirst(q, rest, members);
      visited := visited + [external];
      rest := rest[1..];
      empty := Empty(q, rest);
    }
    Complete(q);
    visited := visited + [q];
  }
}
